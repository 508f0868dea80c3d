/**
 The duration table: an insertion-ordered dictionary from hook keys to
 elapsed seconds. `Assign` is the reference meaning of a Python dict
 assignment on the table seen as a list of entries; `DurationTable` is the
 in-place table kept as an ordered key list plus a map.
 */
module Durations {
  import opened Wrappers

  /** One `key: seconds` pair of the dictionary, in iteration order. */
  datatype Entry = Entry(key: string, seconds: real)

  function KeysOf(es: seq<Entry>): (ks: seq<string>)
    ensures |ks| == |es| && forall i :: 0 <= i < |es| ==> ks[i] == es[i].key
  {
    seq(|es|, i requires 0 <= i < |es| => es[i].key)
  }

  predicate UniqueKeys(ks: seq<string>) {
    forall i, j :: 0 <= i < j < |ks| ==> ks[i] != ks[j]
  }

  /** `d[k] = v`: replaces the value of an existing key in place, else appends. */
  function Assign(es: seq<Entry>, k: string, v: real): seq<Entry>
    decreases |es|
  {
    if es == [] then [Entry(k, v)]
    else if es[0].key == k then [Entry(k, v)] + es[1..]
    else [es[0]] + Assign(es[1..], k, v)
  }

  /** `d.get(k)`. */
  function Lookup(es: seq<Entry>, k: string): Option<real>
    decreases |es|
  {
    if es == [] then None
    else if es[0].key == k then Some(es[0].seconds)
    else Lookup(es[1..], k)
  }

  /** Assigning an existing key overwrites its value and keeps every position. */
  lemma {:induction false} AssignExisting(es: seq<Entry>, j: nat, v: real)
    requires UniqueKeys(KeysOf(es))
    requires j < |es|
    ensures Assign(es, es[j].key, v) == es[j := Entry(es[j].key, v)]
    decreases |es|
  {
    var k := es[j].key;
    if j > 0 {
      assert KeysOf(es)[0] != KeysOf(es)[j];
      var tail := es[1..];
      assert UniqueKeys(KeysOf(tail)) by {
        forall a, b | 0 <= a < b < |tail| ensures KeysOf(tail)[a] != KeysOf(tail)[b] {
          assert KeysOf(es)[a + 1] != KeysOf(es)[b + 1];
        }
      }
      assert tail[j - 1] == es[j];
      AssignExisting(tail, j - 1, v);
      assert es[j := Entry(k, v)] == [es[0]] + tail[j - 1 := Entry(k, v)];
    }
  }

  /** Assigning a new key appends it at the end of the iteration order. */
  lemma {:induction false} AssignNew(es: seq<Entry>, k: string, v: real)
    requires k !in KeysOf(es)
    ensures Assign(es, k, v) == es + [Entry(k, v)]
    decreases |es|
  {
    if es != [] {
      assert es[0].key == KeysOf(es)[0];
      assert k !in KeysOf(es[1..]) by {
        forall i | 0 <= i < |es| - 1 ensures KeysOf(es[1..])[i] != k {
          assert KeysOf(es[1..])[i] == KeysOf(es)[i + 1];
        }
      }
      AssignNew(es[1..], k, v);
      assert es == [es[0]] + es[1..];
    }
  }

  /** Assignment never introduces a duplicate key. */
  lemma {:induction false} AssignKeepsKeysUnique(es: seq<Entry>, k: string, v: real)
    requires UniqueKeys(KeysOf(es))
    ensures UniqueKeys(KeysOf(Assign(es, k, v)))
    ensures KeysOf(Assign(es, k, v)) == if k in KeysOf(es) then KeysOf(es) else KeysOf(es) + [k]
  {
    if k in KeysOf(es) {
      var j :| 0 <= j < |es| && KeysOf(es)[j] == k;
      AssignExisting(es, j, v);
      assert KeysOf(Assign(es, k, v)) == KeysOf(es);
    } else {
      AssignNew(es, k, v);
      assert KeysOf(Assign(es, k, v)) == KeysOf(es) + [k];
    }
  }

  /** After `d[k] = v`, `k` maps to `v` and every other key keeps its value. */
  lemma {:induction false} AssignLookup(es: seq<Entry>, k: string, v: real, k': string)
    ensures Lookup(Assign(es, k, v), k') == if k' == k then Some(v) else Lookup(es, k')
    decreases |es|
  {
    if es != [] && es[0].key != k {
      AssignLookup(es[1..], k, v, k');
      assert Assign(es, k, v)[1..] == Assign(es[1..], k, v);
    }
  }

  /** A second assignment to the same key leaves only the later value. */
  lemma {:induction false} AssignOverwrites(es: seq<Entry>, k: string, v1: real, v2: real)
    ensures Assign(Assign(es, k, v1), k, v2) == Assign(es, k, v2)
    decreases |es|
  {
    if es != [] && es[0].key != k {
      AssignOverwrites(es[1..], k, v1, v2);
      assert Assign(es, k, v1)[1..] == Assign(es[1..], k, v1);
    }
  }

  /** The entries of a key list read through a map, in key-list order. */
  function EntriesOf(keys: seq<string>, values: map<string, real>): (es: seq<Entry>)
    requires forall k :: k in keys ==> k in values
  {
    seq(|keys|, i requires 0 <= i < |keys| => Entry(keys[i], values[keys[i]]))
  }

  /**
   The dictionary `PytestExecutionTimer.durations`, updated in place: the
   keys in insertion order and the mapping from each key to its seconds.
   */
  class DurationTable {
    var keys: seq<string>
    var values: map<string, real>

    ghost predicate Valid()
      reads this
    {
      && UniqueKeys(keys)
      && forall k :: k in values <==> k in keys
    }

    /** The table as the sequence `durations.items()` iterates over. */
    function Entries(): seq<Entry>
      reads this
      requires Valid()
    {
      EntriesOf(keys, values)
    }

    /** `dict()`: the empty table. */
    constructor ()
      ensures Valid() && keys == [] && values == map[]
      ensures Entries() == []
    {
      keys := [];
      values := map[];
    }

    /** `durations[k] = v`. */
    method Put(k: string, v: real)
      requires Valid()
      modifies this
      ensures Valid()
      ensures keys == if k in old(keys) then old(keys) else old(keys) + [k]
      ensures values == old(values)[k := v]
      ensures Entries() == Assign(old(Entries()), k, v)
    {
      ghost var before := Entries();
      assert KeysOf(before) == keys;
      if k in values {
        var j :| 0 <= j < |keys| && keys[j] == k;
        values := values[k := v];
        AssignExisting(before, j, v);
        assert Entries() == before[j := Entry(k, v)];
      } else {
        keys := keys + [k];
        values := values[k := v];
        AssignNew(before, k, v);
        assert Entries() == before + [Entry(k, v)];
      }
    }
  }
}
