/**
  A name-keyed, create-on-miss cache: the `LightweightCache<string, T>` that
  the transport keeps for its exchanges and for its queues.

  The cache is an association list in enumeration order. Reading a missing
  name builds the entry with the cache's factory and appends it; writing a
  name overwrites the entry in place (or appends it when the name is new).
  Lookup always finds the first entry with the name, so a lookup is
  well defined whether or not the keys are distinct; `UniqueKeys` is kept as
  an invariant by every operation.
*/
module NameCache {
  import opened Wrappers

  datatype Entry<T> = Entry(key: string, value: T)

  datatype Cache<T> = Cache(entries: seq<Entry<T>>)

  function Empty<T>(): Cache<T> {
    Cache([])
  }

  /** The names the cache holds. */
  function Keys<T>(c: Cache<T>): set<string> {
    set i | 0 <= i < |c.entries| :: c.entries[i].key
  }

  /** Every name occurs at most once. */
  ghost predicate UniqueKeys<T>(c: Cache<T>) {
    forall i, j :: 0 <= i < j < |c.entries| ==> c.entries[i].key != c.entries[j].key
  }

  /** The first position at or after `from` holding `key`, if any. */
  function FindFrom<T>(es: seq<Entry<T>>, key: string, from: nat): (r: Option<nat>)
    requires from <= |es|
    ensures r.Some? ==> from <= r.value < |es| && es[r.value].key == key
    ensures r.Some? ==> forall j :: from <= j < r.value ==> es[j].key != key
    ensures r.None? ==> forall j :: from <= j < |es| ==> es[j].key != key
    decreases |es| - from
  {
    if from == |es| then None
    else if es[from].key == key then Some(from)
    else FindFrom(es, key, from + 1)
  }

  /** The position of the entry stored under `key`. */
  function IndexOf<T>(c: Cache<T>, key: string): (r: Option<nat>)
    ensures r.Some? <==> key in Keys(c)
    ensures r.Some? ==> r.value < |c.entries| && c.entries[r.value].key == key
    ensures r.Some? ==> forall j :: 0 <= j < r.value ==> c.entries[j].key != key
  {
    var r := FindFrom(c.entries, key, 0);
    assert r.None? ==> key !in Keys(c);
    r
  }

  /** The value stored under `key`, without creating one. */
  function Lookup<T>(c: Cache<T>, key: string): (r: Option<T>)
    ensures r.Some? <==> key in Keys(c)
    ensures r.Some? ==> Entry(key, r.value) in c.entries
  {
    match IndexOf(c, key)
    case None => None
    case Some(i) => Some(c.entries[i].value)
  }

  /** The cached values in enumeration order. */
  function Values<T>(c: Cache<T>): (r: seq<T>)
    ensures |r| == |c.entries|
    ensures forall i :: 0 <= i < |r| ==> r[i] == c.entries[i].value
  {
    seq(|c.entries|, i requires 0 <= i < |c.entries| => c.entries[i].value)
  }

  /** Appending an entry for a new name leaves every other name's lookup alone. */
  lemma LookupAfterAppend<T>(c: Cache<T>, key: string, v: T, k: string)
    requires key !in Keys(c)
    ensures Lookup(Cache(c.entries + [Entry(key, v)]), k) ==
            if k == key then Some(v) else Lookup(c, k)
  {
    var c' := Cache(c.entries + [Entry(key, v)]);
    assert c'.entries[|c.entries|].key == key;
    if k != key && k in Keys(c) {
      var m := IndexOf(c, k).value;
      assert c'.entries[m].key == k;
    }
  }

  /** Overwriting the entry at the first position of `key` changes only that name. */
  lemma LookupAfterOverwrite<T>(c: Cache<T>, key: string, v: T, k: string)
    requires key in Keys(c)
    ensures Lookup(Cache(c.entries[IndexOf(c, key).value := Entry(key, v)]), k) ==
            if k == key then Some(v) else Lookup(c, k)
  {
    var p := IndexOf(c, key).value;
    var c' := Cache(c.entries[p := Entry(key, v)]);
    assert c'.entries[p].key == key;
    if k != key && k in Keys(c) {
      var m := IndexOf(c, k).value;
      assert c'.entries[m].key == k;
    }
  }

  /**
    The cache indexer's getter: the entry for `key`, created with `factory`
    and appended when the name is missing.
  */
  function Get<T>(c: Cache<T>, key: string, factory: string -> T): (r: (Cache<T>, T))
    ensures Lookup(r.0, key) == Some(r.1)
    ensures key in Keys(c) ==> r.0 == c && Lookup(c, key) == Some(r.1)
    ensures key !in Keys(c) ==> r.1 == factory(key) && r.0.entries == c.entries + [Entry(key, r.1)]
    ensures Keys(r.0) == Keys(c) + {key}
    ensures forall k :: k != key ==> Lookup(r.0, k) == Lookup(c, k)
    ensures UniqueKeys(c) ==> UniqueKeys(r.0)
  {
    match IndexOf(c, key)
    case Some(i) => (c, c.entries[i].value)
    case None =>
      var v := factory(key);
      var c' := Cache(c.entries + [Entry(key, v)]);
      LookupAfterAppend(c, key, v, key);
      forall k | k != key
        ensures Lookup(c', k) == Lookup(c, k)
      {
        LookupAfterAppend(c, key, v, k);
      }
      assert Keys(c') == Keys(c) + {key} by {
        assert c'.entries[|c.entries|].key == key;
        forall k | k in Keys(c')
          ensures k in Keys(c) + {key}
        {
          var i :| 0 <= i < |c'.entries| && c'.entries[i].key == k;
          if i < |c.entries| { assert c.entries[i].key == k; }
        }
        forall k | k in Keys(c)
          ensures k in Keys(c')
        {
          var i :| 0 <= i < |c.entries| && c.entries[i].key == k;
          assert c'.entries[i].key == k;
        }
      }
      (c', v)
  }

  /**
    The cache indexer's setter: stores `v` under `key`, overwriting in place
    the entry of that name, or appending one when the name is new.
  */
  function Set<T>(c: Cache<T>, key: string, v: T): (r: Cache<T>)
    ensures Lookup(r, key) == Some(v)
    ensures forall k :: k != key ==> Lookup(r, k) == Lookup(c, k)
    ensures Keys(r) == Keys(c) + {key}
    ensures key in Keys(c) ==> |r.entries| == |c.entries|
    ensures key !in Keys(c) ==> r.entries == c.entries + [Entry(key, v)]
    ensures forall i :: 0 <= i < |c.entries| ==>
              r.entries[i] == c.entries[i] || (c.entries[i].key == key && r.entries[i] == Entry(key, v))
    ensures UniqueKeys(c) ==> UniqueKeys(r)
  {
    match IndexOf(c, key)
    case Some(p) =>
      var r := Cache(c.entries[p := Entry(key, v)]);
      forall k
        ensures Lookup(r, k) == if k == key then Some(v) else Lookup(c, k)
      {
        LookupAfterOverwrite(c, key, v, k);
      }
      assert Keys(r) == Keys(c) by {
        forall k | k in Keys(r)
          ensures k in Keys(c)
        {
          var i :| 0 <= i < |r.entries| && r.entries[i].key == k;
          assert c.entries[i].key == k;
        }
        forall k | k in Keys(c)
          ensures k in Keys(r)
        {
          var i :| 0 <= i < |c.entries| && c.entries[i].key == k;
          assert r.entries[i].key == k;
        }
      }
      r
    case None =>
      var r := Cache(c.entries + [Entry(key, v)]);
      forall k
        ensures Lookup(r, k) == if k == key then Some(v) else Lookup(c, k)
      {
        LookupAfterAppend(c, key, v, k);
      }
      assert Keys(r) == Keys(c) + {key} by {
        assert r.entries[|c.entries|].key == key;
        forall k | k in Keys(r)
          ensures k in Keys(c) + {key}
        {
          var i :| 0 <= i < |r.entries| && r.entries[i].key == k;
          if i < |c.entries| { assert c.entries[i].key == k; }
        }
        forall k | k in Keys(c)
          ensures k in Keys(r)
        {
          var i :| 0 <= i < |c.entries| && c.entries[i].key == k;
          assert r.entries[i].key == k;
        }
      }
      r
  }

  /** Looking a name up twice returns the same entry and leaves the cache as the first lookup left it. */
  lemma GetIdempotent<T>(c: Cache<T>, key: string, factory: string -> T)
    ensures Get(Get(c, key, factory).0, key, factory) == Get(c, key, factory)
  {
  }
}
