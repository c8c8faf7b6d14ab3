/**
 The board's `tiles` dictionary: Python dictionaries remember insertion
 order, which decides the order of `tiles.values()` and so breaks ties in the
 scan. A dictionary is a list of (key, value) entries with distinct keys;
 assigning to an existing key keeps that key's position.
 */
module OrderedDict {
  import opened Tiles

  datatype Option<T> = None | Some(value: T)

  type Dict<V> = seq<(Key, V)>

  predicate HasKey<V>(d: Dict<V>, k: Key) {
    exists i | 0 <= i < |d| :: d[i].0 == k
  }

  predicate DistinctKeys<V>(d: Dict<V>) {
    forall i, j | 0 <= i < j < |d| :: d[i].0 != d[j].0
  }

  function Keys<V>(d: Dict<V>): (r: seq<Key>)
    ensures |r| == |d| && forall i | 0 <= i < |d| :: r[i] == d[i].0
  {
    seq(|d|, i requires 0 <= i < |d| => d[i].0)
  }

  /** `tiles.values()` */
  function Values<V>(d: Dict<V>): (r: seq<V>)
    ensures |r| == |d| && forall i | 0 <= i < |d| :: r[i] == d[i].1
  {
    seq(|d|, i requires 0 <= i < |d| => d[i].1)
  }

  /** `tiles.get(k)` */
  function Lookup<V>(d: Dict<V>, k: Key): (r: Option<V>)
    ensures r.None? <==> !HasKey(d, k)
    ensures r.Some? ==> r.value in Values(d)
    ensures DistinctKeys(d) ==> forall i | 0 <= i < |d| && d[i].0 == k :: r == Some(d[i].1)
  {
    if d == [] then None
    else if d[0].0 == k then Some(d[0].1)
    else
      var r := Lookup(d[1..], k);
      assert forall i | 1 <= i < |d| :: d[i] == d[1..][i - 1];
      r
  }

  /** `tiles[k] = v`: a new key goes at the end, an existing one keeps its place. */
  function Put<V>(d: Dict<V>, k: Key, v: V): Dict<V>
  {
    if HasKey(d, k) then seq(|d|, i requires 0 <= i < |d| => if d[i].0 == k then (k, v) else d[i])
    else d + [(k, v)]
  }

  /** After `tiles[k] = v` the keys are still distinct and k holds v. */
  lemma PutLookup<V>(d: Dict<V>, k: Key, v: V)
    requires DistinctKeys(d)
    ensures DistinctKeys(Put(d, k, v))
    ensures HasKey(Put(d, k, v), k) && Lookup(Put(d, k, v), k) == Some(v)
    ensures forall e | e in Put(d, k, v) :: e == (k, v) || e in d
  {
    if HasKey(d, k) {
      PutPresent(d, k, v);
    } else {
      PutAbsent(d, k, v);
    }
  }

  lemma PutPresent<V>(d: Dict<V>, k: Key, v: V)
    requires DistinctKeys(d) && HasKey(d, k)
    ensures DistinctKeys(Put(d, k, v))
    ensures HasKey(Put(d, k, v), k) && Lookup(Put(d, k, v), k) == Some(v)
    ensures forall e | e in Put(d, k, v) :: e == (k, v) || e in d
  {
    var r := Put(d, k, v);
    var i :| 0 <= i < |d| && d[i].0 == k;
    assert r[i] == (k, v);
    SameKeys(d, r);
    LookupAt(r, i);
    forall e | e in r ensures e == (k, v) || e in d {
      var j :| 0 <= j < |r| && r[j] == e;
      assert r[j] == (if d[j].0 == k then (k, v) else d[j]);
    }
  }

  /** Two dictionaries with the same keys in the same places. */
  lemma SameKeys<V>(d: Dict<V>, r: Dict<V>)
    requires DistinctKeys(d) && |r| == |d| && forall j | 0 <= j < |d| :: r[j].0 == d[j].0
    ensures DistinctKeys(r)
  {
  }

  lemma LookupAt<V>(d: Dict<V>, i: nat)
    requires DistinctKeys(d) && i < |d|
    ensures HasKey(d, d[i].0) && Lookup(d, d[i].0) == Some(d[i].1)
  {
  }

  lemma PutAbsent<V>(d: Dict<V>, k: Key, v: V)
    requires DistinctKeys(d) && !HasKey(d, k)
    ensures DistinctKeys(Put(d, k, v))
    ensures HasKey(Put(d, k, v), k) && Lookup(Put(d, k, v), k) == Some(v)
    ensures forall e | e in Put(d, k, v) :: e == (k, v) || e in d
  {
    var r := Put(d, k, v);
    assert r == d + [(k, v)];
    assert r[|d|] == (k, v);
    forall e | e in r ensures e == (k, v) || e in d {
      var j :| 0 <= j < |r| && r[j] == e;
      if j < |d| {
        assert r[j] == d[j];
      }
    }
  }

  /** `tiles[k] = v` leaves every other key as it was. */
  lemma PutLookupOther<V>(d: Dict<V>, k: Key, v: V, k': Key)
    requires DistinctKeys(d) && k' != k
    ensures Lookup(Put(d, k, v), k') == Lookup(d, k')
  {
    var r := Put(d, k, v);
    assert DistinctKeys(r) by {
      PutLookup(d, k, v);
    }
    if HasKey(d, k') {
      var j :| 0 <= j < |d| && d[j].0 == k';
      assert j < |r| && r[j] == d[j] by {
        if HasKey(d, k) {
        } else {
          assert r == d + [(k, v)];
        }
      }
    }
  }

  /** `tiles[k] = v` adds the key k and no other, and grows the dictionary by at most one entry. */
  lemma PutKeys<V>(d: Dict<V>, k: Key, v: V)
    ensures forall k' :: HasKey(Put(d, k, v), k') <==> HasKey(d, k') || k' == k
    ensures |Put(d, k, v)| == (if HasKey(d, k) then |d| else |d| + 1)
  {
    var r := Put(d, k, v);
    if HasKey(d, k) {
      assert forall i | 0 <= i < |d| :: r[i].0 == d[i].0;
      forall k' ensures HasKey(r, k') <==> HasKey(d, k') || k' == k {
        if HasKey(r, k') {
          var i :| 0 <= i < |r| && r[i].0 == k';
          assert d[i].0 == k';
        }
        if HasKey(d, k') {
          var i :| 0 <= i < |d| && d[i].0 == k';
          assert r[i].0 == k';
        }
      }
    } else {
      forall k' ensures HasKey(r, k') <==> HasKey(d, k') || k' == k {
        if HasKey(r, k') {
          var i :| 0 <= i < |r| && r[i].0 == k';
          if i < |d| {
            assert d[i].0 == k';
          }
        }
        if HasKey(d, k') {
          var i :| 0 <= i < |d| && d[i].0 == k';
          assert r[i] == d[i];
        }
        if k' == k {
          assert r[|d|].0 == k;
        }
      }
    }
  }

  /** `tiles[k] = v` keeps the insertion order: only a new key is appended, at the end. */
  lemma PutOrder<V>(d: Dict<V>, k: Key, v: V)
    ensures Keys(Put(d, k, v)) == if HasKey(d, k) then Keys(d) else Keys(d) + [k]
  {
  }

  /** On distinct keys, `tiles.get(k)` is v exactly when (k, v) is an entry. */
  lemma LookupEntry<V>(d: Dict<V>, k: Key, v: V)
    requires DistinctKeys(d)
    ensures Lookup(d, k) == Some(v) <==> (k, v) in d
  {
    if (k, v) in d {
      var i :| 0 <= i < |d| && d[i] == (k, v);
    }
    if Lookup(d, k) == Some(v) {
      var i :| 0 <= i < |d| && d[i].0 == k;
    }
  }

  /** Two dictionaries with distinct keys and the same entries answer every lookup alike. */
  lemma LookupSame<V>(d: Dict<V>, e: Dict<V>, k: Key)
    requires DistinctKeys(d) && DistinctKeys(e)
    requires forall x :: x in d <==> x in e
    ensures Lookup(d, k) == Lookup(e, k)
  {
    if Lookup(d, k).Some? {
      LookupEntry(d, k, Lookup(d, k).value);
      LookupEntry(e, k, Lookup(d, k).value);
    } else if Lookup(e, k).Some? {
      LookupEntry(d, k, Lookup(e, k).value);
      LookupEntry(e, k, Lookup(e, k).value);
    }
  }
}
