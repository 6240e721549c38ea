/** std::remove_if with erase, as the two clean-ups of mobigame/unprocessed/ use it. */
module Compaction {
  /** What stays when everything to be dropped is gone. */
  function Kept<T>(s: seq<T>, drop: T -> bool): seq<T> {
    if s == [] then []
    else if drop(s[0]) then Kept(s[1..], drop)
    else [s[0]] + Kept(s[1..], drop)
  }

  lemma {:induction false} KeptMembers<T>(s: seq<T>, drop: T -> bool)
    ensures forall x :: x in Kept(s, drop) <==> x in s && !drop(x)
    ensures |Kept(s, drop)| <= |s|
  {
    if s != [] {
      KeptMembers(s[1..], drop);
      assert forall x :: x in s <==> x == s[0] || x in s[1..];
    }
  }

  lemma KeptOne<T>(x: T, drop: T -> bool)
    ensures Kept([x], drop) == if drop(x) then [] else [x]
  {
    assert Kept([x][1..], drop) == [];
  }

  /** Filtering goes element by element, so nothing is lost or gained where two parts meet. */
  lemma {:induction false} KeptConcat<T>(a: seq<T>, b: seq<T>, drop: T -> bool)
    ensures Kept(a + b, drop) == Kept(a, drop) + Kept(b, drop)
  {
    if a == [] {
      assert a + b == b;
    } else {
      KeptConcat(a[1..], b, drop);
      assert (a + b)[1..] == a[1..] + b && (a + b)[0] == a[0];
      var rest, behind := Kept(a[1..], drop), Kept(b, drop);
      assert [a[0]] + (rest + behind) == [a[0]] + rest + behind;
    }
  }

  /** What is kept was there before, not earlier, and in the same order. */
  lemma {:induction false} KeptPositions<T>(s: seq<T>, drop: T -> bool, i: nat, k: nat) returns (j: nat, l: nat)
    requires i < k < |Kept(s, drop)|
    ensures i <= j < l < |s| && k <= l && s[j] == Kept(s, drop)[i] && s[l] == Kept(s, drop)[k]
  {
    if drop(s[0]) {
      j, l := KeptPositions(s[1..], drop, i, k);
      j, l := j + 1, l + 1;
    } else if i == 0 {
      l := KeptPosition(s[1..], drop, k - 1);
      j, l := 0, l + 1;
    } else {
      j, l := KeptPositions(s[1..], drop, i - 1, k - 1);
      j, l := j + 1, l + 1;
    }
  }

  lemma {:induction false} KeptPosition<T>(s: seq<T>, drop: T -> bool, i: nat) returns (j: nat)
    requires i < |Kept(s, drop)|
    ensures i <= j < |s| && s[j] == Kept(s, drop)[i]
  {
    if drop(s[0]) {
      j := KeptPosition(s[1..], drop, i);
      j := j + 1;
    } else if i == 0 {
      j := 0;
    } else {
      j := KeptPosition(s[1..], drop, i - 1);
      j := j + 1;
    }
  }

  /** What will have been kept, once `keep` survivors have been moved down and `k` elements looked at. */
  ghost function Compacted<T>(s: seq<T>, drop: T -> bool, keep: nat, k: nat): seq<T>
    requires keep <= k <= |s|
  {
    s[..keep] + Kept(s[k..], drop)
  }

  lemma CompactStep<T>(s: seq<T>, drop: T -> bool, keep: nat, k: nat)
    requires keep <= k < |s|
    ensures Compacted(s, drop, keep, k)
            == if drop(s[k]) then Compacted(s, drop, keep, k + 1) else Compacted(s[keep := s[k]], drop, keep + 1, k + 1)
  {
    assert s[k..][0] == s[k] && s[k..][1..] == s[k + 1..];
    assert s[keep := s[k]][..keep + 1] == s[..keep] + [s[k]];
    assert s[keep := s[k]][k + 1..] == s[k + 1..];
    assert s[..keep] + ([s[k]] + Kept(s[k + 1..], drop)) == s[..keep] + [s[k]] + Kept(s[k + 1..], drop);
  }

  /** Survivors are moved down in place, then the tail is cut off. */
  method RemoveIf<T>(s: seq<T>, drop: T -> bool) returns (r: seq<T>)
    ensures r == Kept(s, drop)
  {
    hide Kept;
    r := s;
    var keep, k := 0, 0;
    assert s[..0] == [] && s[0..] == s;
    while k < |r|
      invariant keep <= k <= |r|
      invariant Kept(s, drop) == Compacted(r, drop, keep, k)
    {
      CompactStep(r, drop, keep, k);
      if !drop(r[k]) {
        r := r[keep := r[k]];
        keep := keep + 1;
      }
      k := k + 1;
    }
    NothingKept(drop);
    assert r[|r|..] == [];
    r := r[..keep];
  }

  lemma NothingKept<T>(drop: T -> bool)
    ensures Kept([], drop) == []
  {}
}
