/** The keyed record store behind `Queue` and `Cluster` in
    cloudmesh/queue/jobqueue.py: a YAML-backed dict whose keys keep their
    insertion order, indexed by key or, through `list(keys())`, by position. */
module Stores {
  import opened Wrappers

  /** No key occurs twice. */
  predicate Distinct(keys: seq<string>) {
    forall i, j :: 0 <= i < j < |keys| ==> keys[i] != keys[j]
  }

  /** A dict: its keys in insertion order and the value under each. */
  datatype Store<V> = Store(keys: seq<string>, data: map<string, V>) {

    /** The key list holds each key of the dict exactly once. */
    predicate Valid() {
      && Distinct(keys)
      && (forall k :: k in data ==> k in keys)
      && (forall i :: 0 <= i < |keys| ==> keys[i] in data)
    }
  }

  /** The empty dict a fresh store starts from. */
  function Empty<V>(): (s: Store<V>)
    ensures s.Valid() && s.data == map[]
  {
    Store([], map[])
  }

  /** `len(data)`. */
  function Len<V>(s: Store<V>): nat {
    |s.data|
  }

  /** `store[k]`: `None` stands for the `KeyError` of a missing key. */
  function Get<V>(s: Store<V>, k: string): (r: Option<V>)
    ensures r.Some? <==> k in s.data
  {
    if k in s.data then Some(s.data[k]) else None
  }

  /** `store[k] = v`: an existing key keeps its place, a new key goes last. */
  function Put<V>(s: Store<V>, k: string, v: V): (r: Store<V>)
    requires s.Valid()
    ensures r.Valid()
  {
    if k in s.data then Store(s.keys, s.data[k := v])
    else Store(s.keys + [k], s.data[k := v])
  }

  /** `del store[k]`; the caller has checked that `k` is present. */
  function Remove<V>(s: Store<V>, k: string): (r: Store<V>)
    requires s.Valid() && k in s.data
    ensures r.Valid()
  {
    WithoutFacts(s.keys, k);
    Store(Without(s.keys, k), s.data - {k})
  }

  /** The keys other than `k`, in order. */
  function Without(keys: seq<string>, k: string): seq<string> {
    if keys == [] then []
    else (if keys[0] == k then [] else [keys[0]]) + Without(keys[1..], k)
  }

  lemma {:induction false} WithoutFacts(keys: seq<string>, k: string)
    requires Distinct(keys)
    ensures Distinct(Without(keys, k))
    ensures forall x :: x in Without(keys, k) <==> x in keys && x != k
    ensures forall i :: 0 <= i < |Without(keys, k)| ==> Without(keys, k)[i] in keys && Without(keys, k)[i] != k
    decreases |keys|
  {
    if keys != [] {
      var rest := Without(keys[1..], k);
      assert Distinct(keys[1..]) by {
        forall i, j | 0 <= i < j < |keys[1..]| ensures keys[1..][i] != keys[1..][j] {
          assert keys[1..][i] == keys[i + 1] && keys[1..][j] == keys[j + 1];
        }
      }
      WithoutFacts(keys[1..], k);
      assert keys[0] !in keys[1..];
      if keys[0] != k {
        DistinctCons(keys[0], rest);
      }
    }
  }

  lemma DistinctCons(a: string, t: seq<string>)
    requires Distinct(t) && a !in t
    ensures Distinct([a] + t)
  {
    forall i, j | 0 <= i < j < |t| + 1 ensures ([a] + t)[i] != ([a] + t)[j] {
      assert ([a] + t)[j] == t[j - 1];
    }
  }

  /** Removing a key that is not there leaves the key list alone. */
  lemma {:induction false} WithoutAbsent(keys: seq<string>, k: string)
    requires k !in keys
    ensures Without(keys, k) == keys
    decreases |keys|
  {
    if keys != [] {
      WithoutAbsent(keys[1..], k);
      assert keys == [keys[0]] + keys[1..];
    }
  }

  lemma {:induction false} WithoutAppend(a: seq<string>, b: seq<string>, k: string)
    ensures Without(a + b, k) == Without(a, k) + Without(b, k)
    decreases |a|
  {
    if a != [] {
      assert (a + b)[1..] == a[1..] + b;
      WithoutAppend(a[1..], b, k);
    } else {
      assert a + b == b;
    }
  }

  /** Python's `list(keys())[i]`: a negative index counts from the end; an
      index out of range is the `IndexError` (`None`). */
  function At<V>(s: Store<V>, i: int): (r: Option<string>)
    ensures r.Some? <==> -|s.keys| <= i < |s.keys|
    ensures r.Some? ==> r.value in s.keys
  {
    if 0 <= i < |s.keys| then Some(s.keys[i])
    else if -|s.keys| <= i < 0 then Some(s.keys[|s.keys| + i])
    else None
  }

  // ---------------------------------------------------------------------
  // Properties

  /** A stored value is read back, and no other key changes. */
  lemma PutGet<V>(s: Store<V>, k: string, v: V, other: string)
    requires s.Valid()
    ensures Get(Put(s, k, v), k) == Some(v)
    ensures other != k ==> Get(Put(s, k, v), other) == Get(s, other)
  {
  }

  /** Overwriting keeps the order: the keys are unchanged when `k` was
      present, and `k` is appended otherwise. */
  lemma PutOrder<V>(s: Store<V>, k: string, v: V)
    requires s.Valid()
    ensures k in s.data ==> Put(s, k, v).keys == s.keys
    ensures k !in s.data ==> Put(s, k, v).keys == s.keys + [k]
    ensures Len(Put(s, k, v)) == Len(s) + (if k in s.data then 0 else 1)
  {
    if k !in s.data {
      assert s.data[k := v].Keys == s.data.Keys + {k};
    } else {
      assert s.data[k := v].Keys == s.data.Keys;
    }
  }

  /** The last write wins. */
  lemma PutPut<V>(s: Store<V>, k: string, v: V, w: V)
    requires s.Valid()
    ensures Put(Put(s, k, v), k, w) == Put(s, k, w)
  {
  }

  /** Removing a key just added undoes the addition. */
  lemma RemovePut<V>(s: Store<V>, k: string, v: V)
    requires s.Valid() && k !in s.data
    ensures Remove(Put(s, k, v), k) == s
  {
    WithoutAppend(s.keys, [k], k);
    WithoutAbsent(s.keys, k);
    assert Without([k], k) == [];
    assert s.data[k := v] - {k} == s.data;
  }

  /** Removing drops exactly that key, keeps the others in order and their
      values unchanged. */
  lemma RemoveGet<V>(s: Store<V>, k: string, other: string)
    requires s.Valid() && k in s.data
    ensures Get(Remove(s, k), k) == None
    ensures other != k ==> Get(Remove(s, k), other) == Get(s, other)
    ensures Len(Remove(s, k)) == Len(s) - 1
  {
  }

  /** The dict has as many entries as the key list. */
  lemma LenIsKeys<V>(s: Store<V>)
    requires s.Valid()
    ensures Len(s) == |s.keys|
  {
    assert s.data.Keys == set x | x in s.keys;
    DistinctCard(s.keys);
  }

  lemma {:induction false} DistinctCard(keys: seq<string>)
    requires Distinct(keys)
    ensures |set x | x in keys| == |keys|
    decreases |keys|
  {
    if keys != [] {
      var n := |keys| - 1;
      assert keys == keys[..n] + [keys[n]];
      assert (set x | x in keys) == (set x | x in keys[..n]) + {keys[n]};
      DistinctCard(keys[..n]);
    }
  }

  /** A negative position reaches the same key as its positive counterpart. */
  lemma AtNegative<V>(s: Store<V>, i: int)
    requires 0 <= i < |s.keys|
    ensures At(s, i - |s.keys|) == At(s, i) == Some(s.keys[i])
  {
  }
}
