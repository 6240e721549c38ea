/**
 * improved::Container of Source/Core/Utility/container.h: an index of raw pointers beside a vector
 * of owners. Its meaning is a map that remembers the order of insertion.
 */
module Containers {
  import opened Common

  datatype Entry<K, V> = Entry(key: K, val: V)

  // ----- Insertion-ordered maps -----

  ghost predicate DistinctKeys<K, V>(es: seq<Entry<K, V>>) {
    forall i, j :: 0 <= i < j < |es| ==> es[i].key != es[j].key
  }

  function Keys<K(==), V>(es: seq<Entry<K, V>>): set<K> {
    set i | 0 <= i < |es| :: es[i].key
  }

  predicate Has<K(==), V>(es: seq<Entry<K, V>>, key: K) { key in Keys(es) }

  function Lookup<K(==), V>(es: seq<Entry<K, V>>, key: K): Option<V> {
    if es == [] then None
    else if es[0].key == key then Some(es[0].val)
    else Lookup(es[1..], key)
  }

  function Remove<K(==), V>(es: seq<Entry<K, V>>, key: K): seq<Entry<K, V>> {
    if es == [] then []
    else if es[0].key == key then Remove(es[1..], key)
    else [es[0]] + Remove(es[1..], key)
  }

  lemma {:induction false} LookupAt<K, V>(es: seq<Entry<K, V>>, i: nat)
    requires DistinctKeys(es) && i < |es|
    ensures Lookup(es, es[i].key) == Some(es[i].val)
  {
    if i > 0 {
      assert es[1..][i - 1] == es[i];
      LookupAt(es[1..], i - 1);
    }
  }

  lemma KeysCons<K, V>(es: seq<Entry<K, V>>)
    requires es != []
    ensures Keys(es) == {es[0].key} + Keys(es[1..])
  {
    forall k | k in Keys(es) ensures k in {es[0].key} + Keys(es[1..]) {
      var i :| 0 <= i < |es| && es[i].key == k;
      if i > 0 {
        assert es[1..][i - 1].key == k;
      }
    }
    forall k | k in Keys(es[1..]) ensures k in Keys(es) {
      var i :| 0 <= i < |es[1..]| && es[1..][i].key == k;
      assert es[i + 1].key == k;
    }
  }

  lemma KeysAppend<K, V>(es: seq<Entry<K, V>>, e: Entry<K, V>)
    ensures Keys(es + [e]) == Keys(es) + {e.key}
  {
    assert (es + [e])[|es|] == e;
    forall k | k in Keys(es) ensures k in Keys(es + [e]) {
      var i :| 0 <= i < |es| && es[i].key == k;
      assert (es + [e])[i].key == k;
    }
  }

  lemma {:induction false} LookupMissing<K, V>(es: seq<Entry<K, V>>, key: K)
    ensures Lookup(es, key).None? <==> !Has(es, key)
  {
    if es != [] {
      KeysCons(es);
      LookupMissing(es[1..], key);
    }
  }

  lemma {:induction false} RemoveMissing<K, V>(es: seq<Entry<K, V>>, key: K)
    requires forall i :: 0 <= i < |es| ==> es[i].key != key
    ensures Remove(es, key) == es
  {
    if es != [] {
      RemoveMissing(es[1..], key);
    }
  }

  /** Removing a key takes out its entry and leaves the others in their order. */
  lemma {:induction false} RemoveAt<K, V>(es: seq<Entry<K, V>>, i: nat)
    requires DistinctKeys(es) && i < |es|
    ensures Remove(es, es[i].key) == es[..i] + es[i + 1..]
  {
    if i == 0 {
      RemoveMissing(es[1..], es[0].key);
    } else {
      RemoveAt(es[1..], i - 1);
      assert es[1..][i - 1] == es[i];
      assert es[1..][..i - 1] == es[1..i] && es[1..][i..] == es[i + 1..];
      assert [es[0]] + (es[1..i] + es[i + 1..]) == es[..i] + es[i + 1..];
    }
  }

  lemma {:induction false} RemoveKeys<K, V>(es: seq<Entry<K, V>>, key: K)
    ensures Keys(Remove(es, key)) == Keys(es) - {key}
    ensures DistinctKeys(es) ==> DistinctKeys(Remove(es, key))
  {
    if es != [] {
      KeysCons(es);
      RemoveKeys(es[1..], key);
      var rest := Remove(es[1..], key);
      if es[0].key != key {
        var r := [es[0]] + rest;
        assert r[1..] == rest;
        KeysCons(r);
        if DistinctKeys(es) {
          forall i | 0 <= i < |rest| ensures rest[i].key != es[0].key {
            assert rest[i].key in Keys(rest);
            var k :| 0 <= k < |es[1..]| && es[1..][k].key == rest[i].key;
            assert es[k + 1].key != es[0].key;
          }
        }
      }
    }
  }

  lemma {:induction false} RemoveEntries<K, V>(es: seq<Entry<K, V>>, key: K)
    ensures forall e :: e in Remove(es, key) <==> e in es && e.key != key
  {
    if es != [] {
      RemoveEntries(es[1..], key);
      assert forall e :: e in es <==> e == es[0] || e in es[1..];
    }
  }

  /** What lookups see after an insertion, and after a removal. */
  lemma {:induction false} LookupAfterInsert<K, V>(es: seq<Entry<K, V>>, key: K, val: V, other: K)
    requires !Has(es, key)
    ensures Lookup(es + [Entry(key, val)], other) == if other == key then Some(val) else Lookup(es, other)
  {
    if es != [] {
      assert (es + [Entry(key, val)])[1..] == es[1..] + [Entry(key, val)];
      KeysCons(es);
      LookupAfterInsert(es[1..], key, val, other);
    }
  }

  lemma {:induction false} LookupAfterRemove<K, V>(es: seq<Entry<K, V>>, key: K, other: K)
    ensures Lookup(Remove(es, key), other) == if other == key then None else Lookup(es, other)
  {
    if es != [] {
      LookupAfterRemove(es[1..], key, other);
    }
  }

  // ----- The container -----

  /** One heap cell with its owner's value; the container compares cells by address. */
  class Cell<V> {
    const val: V

    constructor (v: V)
      ensures val == v
    {
      val := v;
    }
  }

  /** The index and the owners are in bijection, and both hold exactly `entries`. */
  ghost predicate Linked<K(!new), V>(index: map<K, Cell<V>>, owners: seq<Cell<V>>, entries: seq<Entry<K, V>>) {
    && |entries| == |owners|
    && DistinctKeys(entries)
    && (forall i, j :: 0 <= i < j < |owners| ==> owners[i] != owners[j])
    && index.Keys == Keys(entries)
    && (forall i :: 0 <= i < |owners| ==>
          entries[i].key in index && index[entries[i].key] == owners[i] && owners[i].val == entries[i].val)
  }

  lemma ErasedLinked<K(!new), V>(index: map<K, Cell<V>>, owners: seq<Cell<V>>, entries: seq<Entry<K, V>>, at: nat)
    requires Linked(index, owners, entries) && at < |owners|
    ensures var key := entries[at].key;
            Linked(index - {key}, owners[..at] + owners[at + 1..], Remove(entries, key))
  {
    var key := entries[at].key;
    RemoveAt(entries, at);
    RemoveKeys(entries, key);
    var r, o := Remove(entries, key), owners[..at] + owners[at + 1..];
    forall i | 0 <= i < |r|
      ensures r[i].key in index - {key} && index[r[i].key] == o[i] && o[i].val == r[i].val
    {
      var k := if i < at then i else i + 1;
      assert r[i] == entries[k] && o[i] == owners[k];
    }
  }

  class Container<K(==, !new), V> {
    var index: map<K, Cell<V>>
    var owners: seq<Cell<V>>
    /** What the container holds, in order of insertion. */
    ghost var entries: seq<Entry<K, V>>

    ghost predicate Valid()
      reads this
    {
      Linked(index, owners, entries)
    }

    constructor ()
      ensures Valid() && entries == []
    {
      index, owners, entries := map[], [], [];
    }

    method Emplace(key: K, val: V) returns (ok: bool)
      requires Valid()
      modifies this
      ensures Valid()
      ensures ok <==> !Has(old(entries), key)
      ensures entries == if ok then old(entries) + [Entry(key, val)] else old(entries)
    {
      if key in index {
        return false;
      }
      var cell := new Cell(val);
      index := index[key := cell];
      owners := owners + [cell];
      KeysAppend(entries, Entry(key, val));
      entries := entries + [Entry(key, val)];
      return true;
    }

    method FindByKey(key: K) returns (found: Option<V>)
      requires Valid()
      ensures found == Lookup(entries, key)
    {
      LookupMissing(entries, key);
      if key in index {
        ghost var i :| 0 <= i < |entries| && entries[i].key == key;
        LookupAt(entries, i);
        return Some(index[key].val);
      }
      return None;
    }

    /** The std::find_if over the owners. */
    method FindOwner(ptr: Cell<V>) returns (at: nat)
      ensures at <= |owners|
      ensures forall i :: 0 <= i < at ==> owners[i] != ptr
      ensures at < |owners| ==> owners[at] == ptr
    {
      at := 0;
      while at < |owners| && owners[at] != ptr
        invariant at <= |owners|
        invariant forall i :: 0 <= i < at ==> owners[i] != ptr
      {
        at := at + 1;
      }
    }

    method EraseByKey(key: K) returns (ok: bool)
      requires Valid()
      modifies this
      ensures Valid()
      ensures ok <==> Has(old(entries), key)
      ensures entries == Remove(old(entries), key)
    {
      if key !in index {
        assert forall i :: 0 <= i < |entries| ==> entries[i].key in Keys(entries);
        RemoveMissing(entries, key);
        return false;
      }
      var ptr := index[key];
      ghost var home :| 0 <= home < |entries| && entries[home].key == key;
      index := index - {key};
      var at := FindOwner(ptr);
      if at == |owners| {
        assert false; // the owner of an indexed cell is always found
        return false;
      }
      ErasedLinked(old(index), owners, entries, at);
      owners := owners[..at] + owners[at + 1..];
      entries := Remove(entries, key);
      return true;
    }

    method Clear()
      modifies this
      ensures Valid() && entries == []
    {
      index, owners, entries := map[], [], [];
    }

    function Size(): (n: nat)
      requires Valid()
      reads this
      ensures n == |entries|
    {
      |owners|
    }

    /** The element ForEach visits at position `i`. */
    function ElementAt(i: nat): (v: V)
      requires Valid() && i < Size()
      reads this
      ensures v == entries[i].val
    {
      owners[i].val
    }
  }
}
