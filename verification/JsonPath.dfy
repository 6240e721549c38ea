/**
 * The dotted-path scripts update-json.py (set) and jsonfield-value.py (get).
 * `Set` and `Get` say on values what the scripts compute; the laws below are about them.
 */
module JsonPath {
  /** A parsed JSON document; `Null` is also what the reader returns for a missing field. */
  datatype Json =
    | Null
    | Bool(b: bool)
    | Int(i: int)
    | Real(r: real)
    | Str(s: string)
    | Arr(items: seq<Json>)
    | Obj(fields: map<string, Json>)

  type Path = seq<string>

  // ----- Splitting a dotted path -----

  /** `str.split('.')`: never empty, and the parts hold no dot. */
  function Split(s: string): (parts: Path)
    ensures parts != [] && forall i :: 0 <= i < |parts| ==> '.' !in parts[i]
  {
    if s == "" then [""]
    else
      var rest := Split(s[1..]);
      if s[0] == '.' then [""] + rest
      else [[s[0]] + rest[0]] + rest[1..]
  }

  function Join(parts: Path): string
    requires parts != []
  {
    if |parts| == 1 then parts[0] else parts[0] + "." + Join(parts[1..])
  }

  lemma {:induction false} JoinSplit(s: string)
    ensures Join(Split(s)) == s
  {
    if s != "" {
      JoinSplit(s[1..]);
      var rest := Split(s[1..]);
      if s[0] == '.' {
        assert Split(s)[1..] == rest;
        assert s == "." + s[1..];
      } else {
        assert Split(s)[1..] == rest[1..];
        assert s == [s[0]] + s[1..];
      }
    }
  }

  lemma {:induction false} SplitJoin(parts: Path)
    requires parts != [] && forall i :: 0 <= i < |parts| ==> '.' !in parts[i]
    ensures Split(Join(parts)) == parts
    decreases |parts|, |parts[0]|
  {
    var s := Join(parts);
    if parts[0] != "" {
      var shorter := [parts[0][1..]] + parts[1..];
      assert shorter[1..] == parts[1..];
      assert Join(shorter) == s[1..];
      SplitJoin(shorter);
      assert s[0] == parts[0][0] && s[0] != '.';
      assert [s[0]] + shorter[0] == parts[0];
    } else if |parts| > 1 {
      assert s[1..] == Join(parts[1..]);
      SplitJoin(parts[1..]);
    }
  }

  // ----- Reading and writing on values -----

  function Fields(j: Json): map<string, Json> { if j.Obj? then j.fields else map[] }

  function Child(j: Json, key: string): Json { if key in Fields(j) then Fields(j)[key] else Null }

  function Get(j: Json, path: Path): Json
    decreases |path|
  {
    if path == [] then j else Get(Child(j, path[0]), path[1..])
  }

  function Set(j: Json, path: Path, value: Json): Json
    decreases |path|
  {
    if path == [] then value
    else Obj(Fields(j)[path[0] := Set(Child(j, path[0]), path[1..], value)])
  }

  predicate Comparable(p: Path, q: Path) { p <= q || q <= p }

  /**
   * What every path reads after a write at `p`: inside the written value, above it, or beside it.
   */
  lemma {:induction false} GetAfterSet(j: Json, p: Path, value: Json, q: Path)
    ensures p <= q ==> Get(Set(j, p, value), q) == Get(value, q[|p|..])
    ensures q <= p ==> Get(Set(j, p, value), q) == Set(Get(j, q), p[|q|..], value)
    ensures !Comparable(p, q) ==> Get(Set(j, p, value), q) == Get(j, q)
    decreases |p|
  {
    if p != [] && q != [] {
      GetAfterSet(Child(j, p[0]), p[1..], value, q[1..]);
      assert p == [p[0]] + p[1..] && q == [q[0]] + q[1..];
      if p[0] == q[0] {
        assert p[1..] <= q[1..] <==> p <= q;
        assert q[1..] <= p[1..] <==> q <= p;
        assert p <= q ==> q[1..][|p[1..]|..] == q[|p|..];
        assert q <= p ==> p[1..][|q[1..]|..] == p[|q|..];
      }
    } else if p == [] {
      assert q[0..] == q;
      assert q == [] ==> p[|q|..] == [];
    } else {
      assert p[0..] == p;
    }
  }

  /** Writing below one key: that child is rewritten, the other children stay. */
  lemma SetChild(j: Json, p: Path, v: Json, key: string)
    requires p != []
    ensures Child(Set(j, p, v), key) == if key == p[0] then Set(Child(j, key), p[1..], v) else Child(j, key)
  {}

  lemma TwoKeysCommute(j: Json, a: string, x: Json, b: string, y: Json)
    requires a != b
    ensures Obj(Fields(Obj(Fields(j)[a := x]))[b := y]) == Obj(Fields(Obj(Fields(j)[b := y]))[a := x])
  {
    assert Fields(j)[a := x][b := y] == Fields(j)[b := y][a := x];
  }

  lemma SameKeyTwice(j: Json, a: string, x: Json, y: Json)
    ensures Obj(Fields(Obj(Fields(j)[a := x]))[a := y]) == Obj(Fields(j)[a := y])
  {
    assert Fields(j)[a := x][a := y] == Fields(j)[a := y];
  }

  /** Writes at incomparable paths commute. */
  lemma {:induction false} SetsCommute(j: Json, p: Path, v: Json, q: Path, w: Json)
    requires !Comparable(p, q)
    ensures Set(Set(j, p, v), q, w) == Set(Set(j, q, w), p, v)
    decreases |p|
  {
    var a, b := p[0], q[0];
    var x, y := Set(Child(j, a), p[1..], v), Set(Child(j, b), q[1..], w);
    SetChild(j, p, v, b);
    SetChild(j, q, w, a);
    if a == b {
      assert p == [a] + p[1..] && q == [a] + q[1..];
      SetsCommute(Child(j, a), p[1..], v, q[1..], w);
      SameKeyTwice(j, a, x, Set(x, q[1..], w));
      SameKeyTwice(j, a, y, Set(y, p[1..], v));
    } else {
      TwoKeysCommute(j, a, x, b, y);
    }
  }

  /** A later write at a prefix of an earlier one (the same path included) hides it completely. */
  lemma {:induction false} LaterPrefixWins(j: Json, p: Path, v: Json, q: Path, w: Json)
    requires p <= q
    ensures Set(Set(j, q, w), p, v) == Set(j, p, v)
    decreases |p|
  {
    if p != [] {
      var a := p[0];
      assert q == [a] + q[1..] && p[1..] <= q[1..];
      LaterPrefixWins(Child(j, a), p[1..], v, q[1..], w);
      SetChild(j, q, w, a);
      SameKeyTwice(j, a, Set(Child(j, a), q[1..], w), Set(Child(j, a), p[1..], v));
    }
  }

  /** A later write below an earlier one lands inside the value written first. */
  lemma {:induction false} LaterExtensionNests(j: Json, p: Path, v: Json, q: Path, w: Json)
    requires p <= q
    ensures Set(Set(j, p, v), q, w) == Set(j, p, Set(v, q[|p|..], w))
    decreases |p|
  {
    if p == [] {
      assert q[0..] == q;
    } else {
      var a := p[0];
      var x := Set(Child(j, a), p[1..], v);
      assert q == [a] + q[1..] && p[1..] <= q[1..] && q[1..][|p[1..]|..] == q[|p|..];
      LaterExtensionNests(Child(j, a), p[1..], v, q[1..], w);
      SetChild(j, p, v, a);
      SameKeyTwice(j, a, x, Set(x, q[1..], w));
    }
  }

  // ----- The update loop of update-json.py -----

  datatype Update = Update(path: Path, value: Json)

  function ApplyAll(j: Json, updates: seq<Update>): Json {
    if updates == [] then j
    else
      var last := updates[|updates| - 1];
      Set(ApplyAll(j, updates[..|updates| - 1]), last.path, last.value)
  }

  predicate IsScalar(v: Json) { !v.Obj? }

  /** No update after position `i` touches, contains or is contained in the path written there. */
  ghost predicate Undisturbed(updates: seq<Update>, i: nat)
    requires i < |updates|
  {
    forall k :: i < k < |updates| ==> !Comparable(updates[i].path, updates[k].path)
  }

  lemma ApplyLast(j: Json, us: seq<Update>)
    requires us != []
    ensures ApplyAll(j, us) == Set(ApplyAll(j, us[..|us| - 1]), us[|us| - 1].path, us[|us| - 1].value)
  {}

  lemma ApplyNone(j: Json)
    ensures ApplyAll(j, []) == j
  {}

  /** What stays at `p` behind position `n`, when nothing comparable follows. */
  lemma {:induction false} StaysBehind(j: Json, us: seq<Update>, p: Path, n: nat, m: nat)
    requires n <= m <= |us|
    requires forall k :: n <= k < m ==> !Comparable(p, us[k].path)
    ensures Get(ApplyAll(j, us[..m]), p) == Get(ApplyAll(j, us[..n]), p)
    decreases m
  {
    hide ApplyAll, Get, Set;
    if n < m {
      StaysBehind(j, us, p, n, m - 1);
      assert us[..m][..m - 1] == us[..m - 1];
      var before, u := ApplyAll(j, us[..m - 1]), us[m - 1];
      ApplyLast(j, us[..m]);
      GetAfterSet(before, u.path, u.value, p);
    }
  }

  lemma ReadsBackAt(j: Json, updates: seq<Update>, i: nat, n: nat)
    requires i < n <= |updates|
    requires forall k :: i < k < n ==> !Comparable(updates[i].path, updates[k].path)
    ensures Get(ApplyAll(j, updates[..n]), updates[i].path) == updates[i].value
  {
    hide ApplyAll, Get, Set, Comparable;
    var p := updates[i].path;
    StaysBehind(j, updates, p, i + 1, n);
    assert updates[..i + 1][..i] == updates[..i];
    ApplyLast(j, updates[..i + 1]);
    ReadsBackNow(ApplyAll(j, updates[..i]), p, updates[i].value);
  }

  lemma ReadsBackNow(j: Json, p: Path, v: Json)
    ensures Get(Set(j, p, v), p) == v
  {
    GetAfterSet(j, p, v, p);
    assert p[|p|..] == [];
  }

  /** A scalar written at a path comparable to `p`, but not equal, leaves an object or nothing at `p`. */
  lemma DisturbingWrite(j: Json, q: Path, v: Json, p: Path)
    requires IsScalar(v) && p != q && Comparable(p, q)
    ensures var r := Get(Set(j, q, v), p); if p <= q then r.Obj? else r.Null?
  {
    GetAfterSet(j, q, v, p);
    if q <= p {
      NothingBelowScalar(v, p[|q|..]);
    }
  }

  lemma DisturbedAt(j: Json, updates: seq<Update>, i: nat, k: nat, n: nat)
    requires i < k < n <= |updates|
    requires updates[k].path != updates[i].path && Comparable(updates[i].path, updates[k].path)
    requires IsScalar(updates[k].value)
    requires forall m :: k < m < n ==> !Comparable(updates[i].path, updates[m].path)
    ensures var r := Get(ApplyAll(j, updates[..n]), updates[i].path);
            if updates[i].path <= updates[k].path then r.Obj? else r.Null?
  {
    hide ApplyAll, Get, Set, Comparable;
    StaysBehind(j, updates, updates[i].path, k + 1, n);
    assert updates[..k + 1][..k] == updates[..k];
    ApplyLast(j, updates[..k + 1]);
    DisturbingWrite(ApplyAll(j, updates[..k]), updates[k].path, updates[k].value, updates[i].path);
  }

  lemma {:induction false} NothingBelowScalar(v: Json, path: Path)
    requires IsScalar(v) && path != []
    ensures Get(v, path) == Null
    decreases |path|
  {
    if |path| > 1 {
      NothingBelowScalar(Null, path[1..]);
    }
  }

  ghost function LastDisturbance(updates: seq<Update>, i: nat, n: nat): (k: nat)
    requires i < n <= |updates|
    requires exists m :: i < m < n && Comparable(updates[i].path, updates[m].path)
    ensures i < k < n && Comparable(updates[i].path, updates[k].path)
    ensures forall m :: k < m < n ==> !Comparable(updates[i].path, updates[m].path)
    decreases n
  {
    if Comparable(updates[i].path, updates[n - 1].path) && i < n - 1 then n - 1
    else LastDisturbance(updates, i, n - 1)
  }

  /** Whether what a field was set to survives the later fields of the command line. */
  ghost predicate Survives(updates: seq<Update>, i: nat)
    requires i < |updates|
  {
    Undisturbed(updates, i)
    || (updates[i].value.Null? && !(updates[i].path <= updates[LastDisturbance(updates, i, |updates|)].path))
  }

  /**
   * After the whole update loop a field reads back the value given for it exactly when no later
   * field is a prefix or an extension of it; a null also when the last such field is a prefix.
   */
  lemma UpdateReadsBack(j: Json, updates: seq<Update>, i: nat)
    requires i < |updates|
    requires forall a, b :: 0 <= a < b < |updates| ==> updates[a].path != updates[b].path
    requires forall a :: 0 <= a < |updates| ==> IsScalar(updates[a].value)
    ensures Get(ApplyAll(j, updates), updates[i].path) == updates[i].value <==> Survives(updates, i)
  {
    var n := |updates|;
    assert updates[..n] == updates;
    if Undisturbed(updates, i) {
      ReadsBackAt(j, updates, i, n);
    } else {
      var k := LastDisturbance(updates, i, n);
      DisturbedAt(j, updates, i, k, n);
    }
  }

  // ----- Collecting the --field arguments: a Python dict keeps a key's first position -----

  function Position(updates: seq<Update>, path: Path): (k: nat)
    ensures k <= |updates|
    ensures k < |updates| ==> updates[k].path == path
    ensures forall m :: 0 <= m < k ==> updates[m].path != path
  {
    if updates == [] || updates[0].path == path then 0 else 1 + Position(updates[1..], path)
  }

  function Put(updates: seq<Update>, u: Update): (r: seq<Update>)
  {
    var k := Position(updates, u.path);
    if k < |updates| then updates[k := u] else updates + [u]
  }

  function Collect(args: seq<Update>): (r: seq<Update>)
    ensures forall a, b :: 0 <= a < b < |r| ==> r[a].path != r[b].path
  {
    if args == [] then [] else Put(Collect(args[..|args| - 1]), args[|args| - 1])
  }

  /** No argument strictly between two for the same path is for another path comparable to it. */
  ghost predicate NothingBetween(args: seq<Update>) {
    forall a, m, b :: 0 <= a < m < b < |args| && args[a].path == args[b].path ==>
      args[m].path == args[a].path || !Comparable(args[a].path, args[m].path)
  }

  /** Moving a write past writes at incomparable paths changes nothing. */
  lemma {:induction false} ReplaceInPlace(j: Json, us: seq<Update>, k: nat, u: Update)
    requires k < |us| && us[k].path == u.path
    requires forall m :: k < m < |us| ==> !Comparable(u.path, us[m].path)
    ensures ApplyAll(j, us[k := u]) == Set(ApplyAll(j, us), u.path, u.value)
    decreases |us|
  {
    var n := |us|;
    var before := ApplyAll(j, us[..n - 1]);
    if k == n - 1 {
      assert us[k := u][..n - 1] == us[..n - 1];
      LaterPrefixWins(before, u.path, u.value, u.path, us[k].value);
    } else {
      assert us[k := u][..n - 1] == us[..n - 1][k := u];
      ReplaceInPlace(j, us[..n - 1], k, u);
      SetsCommute(before, u.path, u.value, us[n - 1].path, us[n - 1].value);
    }
  }

  ghost predicate IsGiven(args: seq<Update>, path: Path) {
    exists b :: 0 <= b < |args| && args[b].path == path
  }

  lemma {:induction false} CollectedIsGiven(args: seq<Update>, a: nat)
    requires a < |Collect(args)|
    ensures IsGiven(args, Collect(args)[a].path)
  {
    var n := |args| - 1;
    var before := Collect(args[..n]);
    if a < |before| && Collect(args)[a] == before[a] {
      CollectedIsGiven(args[..n], a);
      var b :| 0 <= b < n && args[..n][b].path == before[a].path;
      assert args[b].path == before[a].path;
    } else {
      assert Collect(args)[a] == args[n];
    }
  }

  lemma {:induction false} GivenIsCollected(args: seq<Update>, a: nat) returns (k: nat)
    requires a < |args|
    ensures k < |Collect(args)| && Collect(args)[k].path == args[a].path
  {
    var n := |args| - 1;
    var before := Collect(args[..n]);
    if a == n {
      k := Position(before, args[n].path);
    } else {
      k := GivenIsCollected(args[..n], a);
    }
  }

  /** Some argument for `p` comes before all those for `q`. */
  ghost predicate GivenBefore(args: seq<Update>, p: Path, q: Path) {
    exists a, c :: 0 <= a < c < |args| && args[a].path == p && FirstFor(args, c, q)
  }

  ghost predicate FirstFor(args: seq<Update>, c: nat, q: Path) {
    c < |args| && args[c].path == q && forall d :: 0 <= d < c ==> args[d].path != q
  }

  lemma AddedIsFirst(args: seq<Update>)
    requires args != [] && |Collect(args)| > |Collect(args[..|args| - 1])|
    ensures FirstFor(args, |args| - 1, args[|args| - 1].path)
  {
    var n := |args| - 1;
    var before := Collect(args[..n]);
    forall d | 0 <= d < n ensures args[d].path != args[n].path {
      var k := GivenIsCollected(args[..n], d);
      assert before[k].path == args[d].path;
    }
  }

  lemma GivenBeforeExtends(args: seq<Update>, more: Update, p: Path, q: Path)
    requires GivenBefore(args, p, q)
    ensures GivenBefore(args + [more], p, q)
  {
    var a, c :| 0 <= a < c < |args| && args[a].path == p && FirstFor(args, c, q);
    assert (args + [more])[a].path == p && FirstFor(args + [more], c, q);
  }

  lemma AddedComesLast(args: seq<Update>, k: nat)
    requires args != [] && k < |Collect(args[..|args| - 1])| < |Collect(args)|
    ensures GivenBefore(args, Collect(args[..|args| - 1])[k].path, args[|args| - 1].path)
  {
    var n := |args| - 1;
    var p := Collect(args[..n])[k].path;
    CollectedIsGiven(args[..n], k);
    var a :| 0 <= a < n && args[..n][a].path == p;
    AddedIsFirst(args);
    assert args[a].path == p && FirstFor(args, n, args[n].path);
  }

  /** Fields are collected in the order in which their paths were first given. */
  lemma {:induction false} CollectedInOrder(args: seq<Update>, k: nat, l: nat)
    requires k < l < |Collect(args)|
    ensures GivenBefore(args, Collect(args)[k].path, Collect(args)[l].path)
  {
    hide GivenBefore;
    var n := |args| - 1;
    if l < |Collect(args[..n])| {
      CollectedInOrder(args[..n], k, l);
      GivenBeforeExtends(args[..n], args[n], Collect(args)[k].path, Collect(args)[l].path);
      assert args[..n] + [args[n]] == args;
    } else {
      AddedComesLast(args, k);
    }
  }

  lemma LaterIsApart(args: seq<Update>, k: nat, m: nat)
    requires args != [] && NothingBetween(args)
    requires k < m < |Collect(args[..|args| - 1])| && Collect(args[..|args| - 1])[k].path == args[|args| - 1].path
    ensures !Comparable(args[|args| - 1].path, Collect(args[..|args| - 1])[m].path)
  {
    var n := |args| - 1;
    var us := Collect(args[..n]);
    CollectedInOrder(args[..n], k, m);
    var a, c :| 0 <= a < c < n && args[..n][a].path == us[k].path && FirstFor(args[..n], c, us[m].path);
    assert args[a].path == args[n].path && args[c].path == us[m].path != us[k].path;
  }

  /**
   * Collecting the arguments in a dict first and applying it afterwards is the same as applying every
   * argument in the order given, unless between two arguments for one path there is one for a path
   * above or below it. This holds for any values; for scalars, CollectingChangesNothingIff is exact.
   */
  lemma {:induction false} CollectingIsHarmless(j: Json, args: seq<Update>)
    requires NothingBetween(args)
    ensures ApplyAll(j, Collect(args)) == ApplyAll(j, args)
  {
    hide ApplyAll, Set, Comparable;
    if args == [] {
      assert Collect(args) == args;
    } else {
      var n := |args| - 1;
      var us, u := Collect(args[..n]), args[n];
      CollectingIsHarmless(j, args[..n]);
      ApplyLast(j, args);
      var k := Position(us, u.path);
      if k < |us| {
        forall m | k < m < |us| ensures !Comparable(u.path, us[m].path) {
          LaterIsApart(args, k, m);
        }
        ReplaceInPlace(j, us, k, u);
      } else {
        assert (us + [u])[..|us|] == us;
        ApplyLast(j, us + [u]);
      }
    }
  }

  // ----- What a path finds in a document, and what the update loop leaves there -----

  /** At a path there is no field, or an object, or a value. */
  datatype Seen = Missing | Inner | Scalar(v: Json)

  function See(j: Json, q: Path): Seen
    decreases |q|
  {
    if q == [] then if j.Obj? then Inner else Scalar(j)
    else if q[0] in Fields(j) then See(Fields(j)[q[0]], q[1..])
    else Missing
  }

  lemma SeeChild(j: Json, key: string, q: Path)
    ensures See(j, [key] + q) == if key in Fields(j) then See(Fields(j)[key], q) else Missing
  {
    assert ([key] + q)[1..] == q;
  }

  /** The reading script shows what a path finds, and null where there is nothing. */
  lemma {:induction false} GetIsSeen(j: Json, q: Path)
    ensures var r := Get(j, q);
            match See(j, q)
            case Missing => r == Null
            case Inner => r.Obj?
            case Scalar(v) => r == v && IsScalar(v)
    decreases |q|
  {
    if q != [] {
      if q[0] in Fields(j) {
        GetIsSeen(Fields(j)[q[0]], q[1..]);
      } else {
        MissingReadsNull(j, q);
      }
    }
  }

  /** A document is no more than what its paths find. */
  lemma {:induction false} SeenIsAll(a: Json, b: Json)
    requires forall q :: See(a, q) == See(b, q)
    ensures a == b
    decreases a
  {
    assert See(a, []) == See(b, []);
    if a.Obj? {
      forall key ensures key in a.fields <==> key in b.fields {
        SeeChild(a, key, []);
        SeeChild(b, key, []);
        assert See(a, [key] + []) == See(b, [key] + []);
      }
      forall key | key in a.fields ensures a.fields[key] == b.fields[key] {
        forall q ensures See(a.fields[key], q) == See(b.fields[key], q) {
          SeeChild(a, key, q);
          SeeChild(b, key, q);
          assert See(a, [key] + q) == See(b, [key] + q);
        }
        SeenIsAll(a.fields[key], b.fields[key]);
      }
      assert a.fields == b.fields;
    }
  }

  /** What the write of a scalar leaves at its own path, above it and below it. */
  function Leaves(u: Update, q: Path): Seen {
    if q == u.path then Scalar(u.value) else if q <= u.path then Inner else Missing
  }

  lemma {:induction false} SeeAfterSet(j: Json, p: Path, v: Json, q: Path)
    requires IsScalar(v)
    ensures See(Set(j, p, v), q) == if Comparable(p, q) then Leaves(Update(p, v), q) else See(j, q)
    decreases |p|
  {
    if p != [] && q != [] {
      assert p == [p[0]] + p[1..] && q == [q[0]] + q[1..];
      if p[0] == q[0] {
        SeeAfterSet(Child(j, p[0]), p[1..], v, q[1..]);
        assert p[1..] <= q[1..] <==> p <= q;
        assert q[1..] <= p[1..] <==> q <= p;
      }
    }
  }

  ghost predicate Scalars(us: seq<Update>) { forall k :: 0 <= k < |us| ==> IsScalar(us[k].value) }

  /** The last update whose path is above or below `q`, or `q` itself. */
  ghost predicate LastTouch(us: seq<Update>, k: nat, q: Path) {
    && k < |us| && Comparable(us[k].path, q)
    && forall m :: k < m < |us| ==> !Comparable(us[m].path, q)
  }

  ghost predicate Touched(us: seq<Update>, q: Path) { exists k: nat :: LastTouch(us, k, q) }

  /** The last update that touches a path decides alone what is there, whatever the document was. */
  lemma {:induction false} SeenAfterAll(j: Json, us: seq<Update>, q: Path)
    requires Scalars(us)
    ensures !Touched(us, q) ==> See(ApplyAll(j, us), q) == See(j, q)
    ensures forall k: nat :: LastTouch(us, k, q) ==> See(ApplyAll(j, us), q) == Leaves(us[k], q)
  {
    hide ApplyAll, Set, See, Leaves, Comparable;
    if us == [] {
      ApplyNone(j);
    } else {
      var n := |us| - 1;
      ApplyLast(j, us);
      SeeAfterSet(ApplyAll(j, us[..n]), us[n].path, us[n].value, q);
      if Comparable(us[n].path, q) {
        assert LastTouch(us, n, q);
      } else {
        SeenAfterAll(j, us[..n], q);
        assert forall k: nat :: LastTouch(us[..n], k, q) <==> LastTouch(us, k, q);
      }
    }
  }

  lemma {:induction false} GivenIsTouched(us: seq<Update>, q: Path, i: nat)
    requires i < |us| && Comparable(us[i].path, q)
    ensures exists k: nat :: i <= k && LastTouch(us, k, q)
    decreases |us| - i
  {
    if exists m :: i < m < |us| && Comparable(us[m].path, q) {
      var m :| i < m < |us| && Comparable(us[m].path, q);
      GivenIsTouched(us, q, m);
    } else {
      assert LastTouch(us, i, q);
    }
  }

  /** The update is there in the end: behind it nothing is written above, below or at its path. */
  ghost predicate Stands(us: seq<Update>, u: Update) { exists i :: 0 <= i < |us| && us[i] == u && Undisturbed(us, i) }

  lemma PrefixesComparable(a: Path, b: Path, c: Path)
    requires a <= c && b <= c
    ensures Comparable(a, b)
  {
    if |a| <= |b| {
      assert c[..|b|][..|a|] == c[..|a|];
    } else {
      assert c[..|a|][..|b|] == c[..|b|];
    }
  }

  /** What touches a path last, from below or at it, stands. */
  lemma TouchFromBelowStands(us: seq<Update>, k: nat, q: Path)
    requires LastTouch(us, k, q) && q <= us[k].path
    ensures Undisturbed(us, k) && Stands(us, us[k])
  {
    forall m | k < m < |us| ensures !Comparable(us[k].path, us[m].path) {
      if us[m].path <= us[k].path {
        PrefixesComparable(q, us[m].path, us[k].path);
      }
    }
  }

  /** If what touches `q` from below in one list stands in the other, the other leaves the same at `q`. */
  lemma SameFromBelow(us: seq<Update>, k: nat, vs: seq<Update>, l: nat, q: Path)
    requires LastTouch(us, k, q) && LastTouch(vs, l, q) && q <= us[k].path
    requires Stands(vs, us[k])
    ensures Leaves(us[k], q) == Leaves(vs[l], q)
  {
    var i :| 0 <= i < |vs| && vs[i] == us[k] && Undisturbed(vs, i);
    assert i <= l;
    assert i < l ==> !(vs[l].path <= q);
  }

  ghost predicate SamePaths(us: seq<Update>, vs: seq<Update>) { forall p :: IsGiven(us, p) <==> IsGiven(vs, p) }

  lemma TouchedInBoth(us: seq<Update>, vs: seq<Update>, k: nat, q: Path)
    requires SamePaths(us, vs) && LastTouch(us, k, q)
    ensures Touched(vs, q)
  {
    assert IsGiven(us, us[k].path);
    var i :| 0 <= i < |vs| && vs[i].path == us[k].path;
    GivenIsTouched(vs, q, i);
  }

  lemma SameSeen(j: Json, us: seq<Update>, vs: seq<Update>, q: Path)
    requires Scalars(us) && Scalars(vs) && SamePaths(us, vs)
    requires forall u :: Stands(us, u) <==> Stands(vs, u)
    ensures See(ApplyAll(j, us), q) == See(ApplyAll(j, vs), q)
  {
    hide ApplyAll, See, Leaves, Stands, IsGiven, LastTouch;
    SeenAfterAll(j, us, q);
    SeenAfterAll(j, vs, q);
    if Touched(us, q) {
      var k: nat :| LastTouch(us, k, q);
      TouchedInBoth(us, vs, k, q);
      var l: nat :| LastTouch(vs, l, q);
      SameLeft(us, k, vs, l, q);
    } else if Touched(vs, q) {
      var l: nat :| LastTouch(vs, l, q);
      TouchedInBoth(vs, us, l, q);
    }
  }

  lemma SameLeft(us: seq<Update>, k: nat, vs: seq<Update>, l: nat, q: Path)
    requires LastTouch(us, k, q) && LastTouch(vs, l, q)
    requires forall u :: Stands(us, u) <==> Stands(vs, u)
    ensures Leaves(us[k], q) == Leaves(vs[l], q)
  {
    hide Stands;
    if q <= us[k].path {
      TouchFromBelowStands(us, k, q);
      SameFromBelow(us, k, vs, l, q);
    } else if q <= vs[l].path {
      TouchFromBelowStands(vs, l, q);
      SameFromBelow(vs, l, us, k, q);
    }
  }

  lemma StandingIsSeen(j: Json, us: seq<Update>, vs: seq<Update>, u: Update)
    requires Scalars(us) && Scalars(vs) && SamePaths(us, vs)
    requires ApplyAll(j, us) == ApplyAll(j, vs) && Stands(us, u)
    ensures Stands(vs, u)
  {
    hide ApplyAll, See, SamePaths, Scalars;
    var i :| 0 <= i < |us| && us[i] == u && Undisturbed(us, i);
    assert LastTouch(us, i, u.path);
    SeenAfterAll(j, us, u.path);
    SeenAfterAll(j, vs, u.path);
    TouchedInBoth(us, vs, i, u.path);
    var l: nat :| LastTouch(vs, l, u.path);
    TouchFromBelowStands(vs, l, u.path);
  }

  /** Two lists of writes at the same paths have the same outcome exactly if the same writes stand. */
  lemma SameOutcomeIff(j: Json, us: seq<Update>, vs: seq<Update>)
    requires Scalars(us) && Scalars(vs) && SamePaths(us, vs)
    ensures ApplyAll(j, us) == ApplyAll(j, vs) <==> forall u :: Stands(us, u) <==> Stands(vs, u)
  {
    hide ApplyAll, See, Stands, IsGiven, Scalars;
    if forall u :: Stands(us, u) <==> Stands(vs, u) {
      forall q ensures See(ApplyAll(j, us), q) == See(ApplyAll(j, vs), q) {
        SameSeen(j, us, vs, q);
      }
      SeenIsAll(ApplyAll(j, us), ApplyAll(j, vs));
    }
    if ApplyAll(j, us) == ApplyAll(j, vs) {
      forall u ensures Stands(us, u) <==> Stands(vs, u) {
        if Stands(us, u) {
          StandingIsSeen(j, us, vs, u);
        }
        if Stands(vs, u) {
          StandingIsSeen(j, vs, us, u);
        }
      }
    }
  }

  // ----- Where collecting makes a difference -----

  lemma {:induction false} CollectedScalars(args: seq<Update>)
    requires Scalars(args)
    ensures Scalars(Collect(args))
  {
    if args != [] {
      CollectedScalars(args[..|args| - 1]);
    }
  }

  lemma NotGivenBefore(args: seq<Update>, a: nat, q: Path)
    requires a < |args| && forall c :: 0 <= c < a ==> args[c].path != q
    ensures !GivenBefore(args, q, args[a].path)
  {}

  /** A path first given behind another is collected behind it. */
  lemma FirstGivenFirst(args: seq<Update>, a: nat, k: nat, l: nat)
    requires a < |args| && k < |Collect(args)| && l < |Collect(args)|
    requires Collect(args)[k].path == args[a].path && Collect(args)[l].path != args[a].path
    requires forall c :: 0 <= c < a ==> args[c].path != Collect(args)[l].path
    ensures k < l
  {
    NotGivenBefore(args, a, Collect(args)[l].path);
    if l < k {
      CollectedInOrder(args, l, k);
    }
  }

  ghost predicate LastFor(args: seq<Update>, b: nat, p: Path) {
    b < |args| && args[b].path == p && forall d :: b < d < |args| ==> args[d].path != p
  }

  lemma {:induction false} FirstIndex(args: seq<Update>, i: nat) returns (a: nat)
    requires i < |args|
    ensures a <= i && FirstFor(args, a, args[i].path)
  {
    if exists c :: 0 <= c < i && args[c].path == args[i].path {
      var c :| 0 <= c < i && args[c].path == args[i].path;
      a := FirstIndex(args, c);
    } else {
      a := i;
    }
  }

  lemma {:induction false} LastIndex(args: seq<Update>, i: nat) returns (b: nat)
    requires i < |args|
    ensures i <= b && LastFor(args, b, args[i].path)
    decreases |args| - i
  {
    if exists c :: i < c < |args| && args[c].path == args[i].path {
      var c :| i < c < |args| && args[c].path == args[i].path;
      b := LastIndex(args, c);
    } else {
      b := i;
    }
  }

  /** What is collected for a path is the last argument given for it. */
  lemma {:induction false} CollectedIsLast(args: seq<Update>, b: nat, k: nat)
    requires k < |Collect(args)| && LastFor(args, b, Collect(args)[k].path)
    ensures Collect(args)[k] == args[b]
  {
    var n := |args| - 1;
    var before := Collect(args[..n]);
    if b < n {
      assert k < |before| && Collect(args)[k] == before[k];
      CollectedIsLast(args[..n], b, k);
    }
  }

  /** Behind the argument no path above or below it is given for the first time. */
  ghost predicate NothingNewBehind(args: seq<Update>, a: nat)
    requires a < |args|
  {
    forall m :: a < m < |args| && FirstFor(args, m, args[m].path) ==> !Comparable(args[a].path, args[m].path)
  }

  lemma CollectedUndisturbed(args: seq<Update>, a: nat, k: nat)
    requires k < |Collect(args)| && FirstFor(args, a, Collect(args)[k].path)
    ensures Undisturbed(Collect(args), k) <==> NothingNewBehind(args, a)
  {
    hide Collect, Comparable;
    var us := Collect(args);
    if Undisturbed(us, k) {
      forall m | a < m < |args| && FirstFor(args, m, args[m].path) ensures !Comparable(args[a].path, args[m].path) {
        var l := GivenIsCollected(args, m);
        FirstGivenFirst(args, a, k, l);
      }
    }
    if NothingNewBehind(args, a) {
      forall l | k < l < |us| ensures !Comparable(us[k].path, us[l].path) {
        CollectedInOrder(args, k, l);
        var c, m :| 0 <= c < m < |args| && args[c].path == us[k].path && FirstFor(args, m, us[l].path);
        assert a <= c;
      }
    }
  }

  /** Whether the last value given for a path is there in the end, without and with collecting. */
  lemma FateOfPath(args: seq<Update>, a: nat, b: nat, p: Path)
    requires FirstFor(args, a, p) && LastFor(args, b, p)
    ensures Stands(args, args[b]) <==> Undisturbed(args, b)
    ensures Stands(Collect(args), args[b]) <==> NothingNewBehind(args, a)
  {
    hide Collect, NothingNewBehind;
    var us := Collect(args);
    var k := GivenIsCollected(args, b);
    CollectedIsLast(args, b, k);
    CollectedUndisturbed(args, a, k);
    if Stands(args, args[b]) {
      var i :| 0 <= i < |args| && args[i] == args[b] && Undisturbed(args, i);
      assert i == b;
    }
    if Stands(us, args[b]) {
      var i :| 0 <= i < |us| && us[i] == args[b] && Undisturbed(us, i);
      assert i == k;
    }
  }

  /**
   * For every given path: no argument for a path above or below follows its last argument exactly if
   * none is given for the first time behind its first.
   */
  ghost predicate SameEnd(args: seq<Update>) {
    forall a: nat, b: nat, p :: FirstFor(args, a, p) && LastFor(args, b, p) ==> (Undisturbed(args, b) <==> NothingNewBehind(args, a))
  }

  lemma CollectedSamePaths(args: seq<Update>)
    ensures SamePaths(Collect(args), args)
  {
    hide Collect;
    var us := Collect(args);
    forall p ensures IsGiven(us, p) <==> IsGiven(args, p) {
      if IsGiven(us, p) {
        var k :| 0 <= k < |us| && us[k].path == p;
        CollectedIsGiven(args, k);
      }
      if IsGiven(args, p) {
        var b :| 0 <= b < |args| && args[b].path == p;
        var k := GivenIsCollected(args, b);
      }
    }
  }

  /** What stands with or without collecting is the last argument for its path. */
  lemma StandingIsLast(args: seq<Update>, u: Update) returns (a: nat, b: nat)
    requires Stands(args, u) || Stands(Collect(args), u)
    ensures FirstFor(args, a, u.path) && LastFor(args, b, u.path) && args[b] == u
  {
    hide Collect, Undisturbed;
    var us := Collect(args);
    var i: nat, k: nat;
    if Stands(args, u) {
      i :| i < |args| && args[i] == u && Undisturbed(args, i);
      b := LastIndex(args, i);
      UndisturbedIsLast(args, i, b);
    } else {
      k :| k < |us| && us[k] == u && Undisturbed(us, k);
      CollectedIsGiven(args, k);
      i :| i < |args| && args[i].path == us[k].path;
      b := LastIndex(args, i);
      CollectedIsLast(args, b, k);
    }
    a := FirstIndex(args, i);
  }

  lemma UndisturbedIsLast(args: seq<Update>, i: nat, b: nat)
    requires i <= b < |args| && Undisturbed(args, i) && args[b].path == args[i].path
    ensures b == i
  {}

  lemma SameEndIff(args: seq<Update>)
    ensures SameEnd(args) <==> forall u :: Stands(Collect(args), u) <==> Stands(args, u)
  {
    hide Collect, Stands, Undisturbed, NothingNewBehind;
    var us := Collect(args);
    if SameEnd(args) {
      forall u ensures Stands(us, u) <==> Stands(args, u) {
        if Stands(us, u) || Stands(args, u) {
          var a, b := StandingIsLast(args, u);
          FateOfPath(args, a, b, u.path);
        }
      }
    }
    if forall u :: Stands(us, u) <==> Stands(args, u) {
      forall a: nat, b: nat, p | FirstFor(args, a, p) && LastFor(args, b, p) ensures Undisturbed(args, b) <==> NothingNewBehind(args, a) {
        FateOfPath(args, a, b, p);
        assert Stands(us, args[b]) <==> Stands(args, args[b]);
      }
    }
  }

  /**
   * The exact condition, the same for every document: collecting the arguments in a dict first changes
   * nothing exactly if, for every path, what is written last without collecting is also collected last.
   */
  lemma CollectingChangesNothingIff(j: Json, args: seq<Update>)
    requires Scalars(args)
    ensures ApplyAll(j, Collect(args)) == ApplyAll(j, args) <==> SameEnd(args)
  {
    hide Collect, ApplyAll, Stands, SameEnd, SamePaths;
    CollectedScalars(args);
    CollectedSamePaths(args);
    SameOutcomeIff(j, Collect(args), args);
    SameEndIff(args);
  }

  lemma SameIsComparable(p: Path)
    ensures Comparable(p, p)
  {}

  /**
   * So it makes a difference, for every document, if between two arguments for one path one for a path
   * above or below it comes that had not been given before the first, and nothing above or below it
   * follows the second.
   */
  lemma CollectingReorders(j: Json, args: seq<Update>, a: nat, m: nat, b: nat)
    requires forall c :: 0 <= c < |args| ==> IsScalar(args[c].value)
    requires a < m < b < |args| && args[a].path == args[b].path
    requires args[m].path != args[a].path && Comparable(args[a].path, args[m].path)
    requires forall c :: 0 <= c < a ==> args[c].path != args[m].path
    requires forall c :: b < c < |args| ==> !Comparable(args[a].path, args[c].path)
    ensures ApplyAll(j, Collect(args)) != ApplyAll(j, args)
  {
    hide Collect, ApplyAll, Comparable;
    CollectingChangesNothingIff(j, args);
    var c := FirstIndex(args, a);
    var d := FirstIndex(args, m);
    SameIsComparable(args[a].path);
    assert LastFor(args, b, args[a].path) && Undisturbed(args, b);
    assert FirstFor(args, d, args[d].path) && c < d && Comparable(args[c].path, args[d].path);
  }

  lemma CollectedThree(u: Update, v: Update, w: Update)
    requires u.path == w.path && v.path != u.path
    ensures Collect([u, v, w]) == [w, v]
  {
    assert [u, v, w][..2] == [u, v] && [u, v][..1] == [u] && [u][..0] == [];
    assert Collect([u]) == [u];
    assert Collect([u, v]) == [u, v];
    assert Position([u, v], w.path) == 0;
  }

  /** For instance: the first position of a repeated key decides. */
  lemma CollectingCanReorder()
    ensures var a1, ab, a2 := Update(["a"], Int(1)), Update(["a", "b"], Int(2)), Update(["a"], Int(3));
            var j := Obj(map[]);
            Get(ApplyAll(j, [a1, ab, a2]), ["a"]) == Int(3)
            && Get(ApplyAll(j, Collect([a1, ab, a2])), ["a", "b"]) == Int(2)
  {
    hide Collect, ApplyAll, Get, Position, Put;
    var a1, ab, a2 := Update(["a"], Int(1)), Update(["a", "b"], Int(2)), Update(["a"], Int(3));
    var j := Obj(map[]);
    CollectedThree(a1, ab, a2);
    ReadsBackAt(j, [a1, ab, a2], 2, 3);
    ReadsBackAt(j, [a2, ab], 1, 2);
    assert [a1, ab, a2][..3] == [a1, ab, a2] && [a2, ab][..2] == [a2, ab];
  }

  // ----- The scripts' own loops -----

  /** get_nested_field */
  method GetNestedField(obj: Json, fieldPath: string) returns (r: Json)
    ensures r == Get(obj, Split(fieldPath))
  {
    var parts := Split(fieldPath);
    var current := obj;
    for k := 0 to |parts|
      invariant Get(obj, parts) == Get(current, parts[k..])
    {
      if !current.Obj? {
        MissingReadsNull(current, parts[k..]);
        return Null;
      }
      if parts[k] !in current.fields {
        MissingReadsNull(current, parts[k..]);
        return Null;
      }
      current := current.fields[parts[k]];
      assert parts[k..][1..] == parts[k + 1..];
    }
    return current;
  }

  lemma MissingReadsNull(j: Json, path: Path)
    requires path != [] && path[0] !in Fields(j)
    ensures Get(j, path) == Null
  {
    if |path| > 1 {
      NothingBelowScalar(Null, path[1..]);
    }
  }

  /** Stepping into a child and writing there is writing from here. */
  lemma SetThroughChild(doc: map<string, Json>, parts: Path, value: Json, stepped: map<string, Json>, child: Json)
    requires |parts| > 1
    requires child == Obj(Fields(Child(Obj(doc), parts[0])))
    requires stepped == doc[parts[0] := child]
    ensures Obj(stepped[parts[0] := Set(child, parts[1..], value)]) == Set(Obj(doc), parts, value)
  {
    SameKeyTwice(Obj(doc), parts[0], child, Set(child, parts[1..], value));
  }

  /** A value stored in a Python dict: another dict, or anything the scripts treat as a leaf. */
  datatype Node = Leaf(v: Json) | Sub(d: Dict)

  /**
   * A mutable Python dict; nested dicts are separate objects and are updated in place.
   * `doc` is the document the tree of dicts stands for.
   */
  class Dict {
    var fields: map<string, Node>
    ghost var doc: map<string, Json>
    ghost var Repr: set<object>

    ghost predicate Valid()
      reads this, Repr
      ensures Valid() ==> this in Repr
      decreases Repr
    {
      && this in Repr
      && fields.Keys == doc.Keys
      && (forall k :: k in fields ==> Owns(fields[k], doc[k]))
      && (forall k, l :: k in fields && l in fields && k != l && fields[k].Sub? && fields[l].Sub? ==>
            fields[k].d.Repr !! fields[l].d.Repr)
    }

    /** `n` is stored in this dict and stands for `j`. */
    ghost predicate Owns(n: Node, j: Json)
      requires this in Repr
      reads this, Repr
      decreases Repr, 0
    {
      match n
      case Leaf(v) => j == v && !v.Obj?
      case Sub(d) => d in Repr && d.Repr <= Repr && this !in d.Repr && d.Valid() && j == Obj(d.doc)
    }

    constructor ()
      ensures Valid() && fresh(Repr) && doc == map[]
    {
      fields := map[];
      doc := map[];
      Repr := {this};
    }

    /** `current[final_key] = value` */
    method PutLeaf(key: string, value: Json)
      requires Valid() && !value.Obj?
      modifies this
      ensures Valid() && Repr == old(Repr)
      ensures doc == old(doc)[key := value]
    {
      fields := fields[key := Leaf(value)];
      doc := doc[key := value];
    }

    /** One turn of the loop: step into `part`, creating or replacing what is not a dict. */
    method StepInto(part: string) returns (current: Dict)
      requires Valid()
      modifies this
      ensures Valid() && fresh(Repr - old(Repr))
      ensures part in fields && fields[part] == Sub(current)
      ensures doc[part] == Obj(current.doc)
      ensures doc == old(doc)[part := Obj(Fields(Child(Obj(old(doc)), part)))]
    {
      if part !in fields || !fields[part].Sub? {
        current := new Dict();
        fields := fields[part := Sub(current)];
        Repr := Repr + current.Repr;
        doc := doc[part := Obj(map[])];
      } else {
        current := fields[part].d;
      }
    }

    /** set_nested_field: the loop's cursor `current` is the receiver of the tail call. */
    method SetNestedField(parts: Path, value: Json)
      requires Valid() && parts != [] && !value.Obj?
      modifies Repr
      ensures Valid() && fresh(Repr - old(Repr))
      ensures Obj(doc) == Set(Obj(old(doc)), parts, value)
      decreases |parts|
    {
      var part := parts[0];
      if |parts| == 1 {
        PutLeaf(part, value);
      } else {
        var current := StepInto(part);
        SetThroughChild(old(doc), parts, value, doc, doc[part]);
        current.SetNestedField(parts[1..], value);
        Rejoin(part, current);
      }
    }

    /** Ghost bookkeeping on the way out: the child's new state becomes part of this tree's. */
    ghost method Rejoin(part: string, current: Dict)
      requires this in Repr && fields.Keys == doc.Keys
      requires part in fields && fields[part] == Sub(current)
      requires current.Valid() && this !in current.Repr
      requires forall k :: k in fields && k != part ==> Owns(fields[k], doc[k])
      requires forall k :: k in fields && k != part && fields[k].Sub? ==> fields[k].d.Repr !! current.Repr
      requires forall k, l :: k in fields && l in fields && k != part && l != part && k != l && fields[k].Sub? && fields[l].Sub? ==>
                 fields[k].d.Repr !! fields[l].d.Repr
      modifies this
      ensures Valid() && Repr == old(Repr) + current.Repr && fields == old(fields)
      ensures doc == old(doc)[part := Obj(current.doc)]
    {
      Repr := Repr + current.Repr;
      doc := doc[part := Obj(current.doc)];
    }
  }

  /** The update loop of main, over the collected fields. */
  method UpdateFields(data: Dict, updates: seq<Update>)
    requires data.Valid()
    requires forall k :: 0 <= k < |updates| ==> updates[k].path != [] && IsScalar(updates[k].value)
    modifies data.Repr
    ensures data.Valid() && fresh(data.Repr - old(data.Repr))
    ensures Obj(data.doc) == ApplyAll(Obj(old(data.doc)), updates)
  {
    assert updates[..0] == [];
    for k := 0 to |updates|
      invariant data.Valid() && fresh(data.Repr - old(data.Repr))
      invariant Obj(data.doc) == ApplyAll(Obj(old(data.doc)), updates[..k])
    {
      assert updates[..k + 1][..k] == updates[..k];
      data.SetNestedField(updates[k].path, updates[k].value);
    }
    assert updates[..|updates|] == updates;
  }
}
