/**
 The two-level map of histories, in place, behaves as one flat map from pairs of keys to histories, in which absent and
 empty are the same, and it never keeps an empty history or an empty bucket.
 */
module MultiVersionMaps {
  import opened Common
  import opened Histories

  type Bucket<K, T> = map<K, History<T>>

  function In<K, T>(b: Bucket<K, T>, k: K): History<T> {
    if k in b then b[k] else Empty()
  }

  ghost predicate NoneEmpty<K(!new), T>(b: Bucket<K, T>) {
    forall k :: k in b ==> b[k] != Empty()
  }

  // One bucket.

  method InsertIn<K(==, !new), T>(b: Bucket<K, T>, key: K, item: T) returns (after: Bucket<K, T>)
    requires NoneEmpty(b)
    ensures NoneEmpty(after) && forall k :: In(after, k) == if k == key then AddLatest(In(b, k), item) else In(b, k)
    ensures after != map[]
  {
    after := b[key := AddLatest(if key in b then b[key] else Empty(), item)];
    assert key in after;
  }

  method EraseIn<K(==, !new), T>(b: Bucket<K, T>, key: K) returns (after: Bucket<K, T>)
    requires NoneEmpty(b)
    ensures NoneEmpty(after) && forall k :: In(after, k) == if k == key then DeleteLatest(In(b, k)) else In(b, k)
    ensures after.Keys == b.Keys
  {
    after := if key in b then b[key := DeleteLatest(b[key])] else b;
  }

  /** Replaces a history, dropping the key when nothing is left of it. */
  method Store<K(==, !new), T(==)>(b: Bucket<K, T>, key: K, h: History<T>) returns (after: Bucket<K, T>)
    requires NoneEmpty(b)
    ensures NoneEmpty(after) && forall k :: In(after, k) == if k == key then h else In(b, k)
  {
    after := if h.stable == [] && h.unstable.None? then b - {key} else b[key := h];
  }

  /** With base 0 drops what is uncommitted, otherwise prunes. */
  function Cleared<T>(h: History<T>, base: nat): History<T> {
    if base == 0 then Rollback(h) else Prune(h, base)
  }

  method ClearIn<K(==, !new), T(==)>(b: Bucket<K, T>, key: K, base: nat) returns (after: Bucket<K, T>)
    requires NoneEmpty(b)
    ensures NoneEmpty(after) && forall k :: In(after, k) == if k == key then Cleared(In(b, k), base) else In(b, k)
  {
    if key in b {
      after := Store(b, key, Cleared(b[key], base));
    } else {
      after := b;
    }
  }

  /** Prunes every history of a bucket, in any order. */
  method ClearAllIn<K(==, !new), T(==)>(b: Bucket<K, T>, base: nat) returns (after: Bucket<K, T>)
    requires NoneEmpty(b)
    ensures NoneEmpty(after) && forall k :: In(after, k) == Prune(In(b, k), base)
  {
    var todo := b.Keys;
    after := b;
    while todo != {}
      invariant NoneEmpty(after) && todo <= b.Keys
      invariant forall k :: In(after, k) == if k in todo then In(b, k) else Prune(In(b, k), base)
      decreases |todo|
    {
      var key :| key in todo;
      var h := if key in after then after[key] else Empty();
      after := Store(after, key, Prune(h, base));
      todo := todo - {key};
    }
  }

  method KeysIn<K(==, !new), T>(b: Bucket<K, T>) returns (keys: seq<K>)
    ensures forall k :: k in keys <==> k in b
    ensures forall i, j :: 0 <= i < j < |keys| ==> keys[i] != keys[j]
  {
    var todo := b.Keys;
    keys := [];
    while todo != {}
      invariant forall k :: k in b <==> k in keys || k in todo
      invariant forall i, j :: 0 <= i < j < |keys| ==> keys[i] != keys[j]
      invariant forall i :: 0 <= i < |keys| ==> keys[i] !in todo
      decreases |todo|
    {
      var k :| k in todo;
      keys := keys + [k];
      todo := todo - {k};
    }
  }

  class TwoLevelMap<K1(==, !new), K2(==, !new), T(==, !new)> {
    var outer: map<K1, Bucket<K2, T>>

    ghost predicate Valid()
      reads this
    {
      forall k1 :: k1 in outer ==> outer[k1] != map[] && NoneEmpty(outer[k1])
    }

    /** The flat map. */
    function At(k1: K1, k2: K2): History<T>
      reads this
    {
      if k1 in outer then In(outer[k1], k2) else Empty()
    }

    constructor ()
      ensures Valid() && forall k1, k2 :: At(k1, k2) == Empty()
    {
      outer := map[];
    }

    /** Puts a bucket back, dropping it when it is empty. */
    method Put(key: K1, b: Bucket<K2, T>)
      requires Valid() && NoneEmpty(b)
      modifies this
      ensures Valid()
      ensures forall k1, k2 :: At(k1, k2) == if k1 == key then In(b, k2) else old(At(k1, k2))
      ensures forall k1 :: k1 != key ==> (k1 in outer <==> k1 in old(outer))
    {
      outer := if b == map[] then outer - {key} else outer[key := b];
    }

    method Insert(key1: K1, key2: K2, item: T)
      requires Valid()
      modifies this
      ensures Valid()
      ensures forall k1, k2 :: At(k1, k2) ==
                if (k1, k2) == (key1, key2) then AddLatest(old(At(k1, k2)), item) else old(At(k1, k2))
    {
      var b := InsertIn(if key1 in outer then outer[key1] else map[], key2, item);
      Put(key1, b);
    }

    method Find(key1: K1, key2: K2) returns (r: Option<T>)
      ensures r == Latest(At(key1, key2))
    {
      if key1 !in outer || key2 !in outer[key1] {
        return None;
      }
      return Latest(outer[key1][key2]);
    }

    method FindAt(version: nat, key1: K1, key2: K2) returns (r: Option<T>)
      ensures r == ReadAt(At(key1, key2), version)
    {
      if key1 !in outer || key2 !in outer[key1] {
        return None;
      }
      return ReadAt(outer[key1][key2], version);
    }

    method Erase(key1: K1, key2: K2)
      requires Valid()
      modifies this
      ensures Valid()
      ensures forall k1, k2 :: At(k1, k2) ==
                if (k1, k2) == (key1, key2) then DeleteLatest(old(At(k1, k2))) else old(At(k1, k2))
    {
      if key1 in outer {
        var b := EraseIn(outer[key1], key2);
        Put(key1, b);
      }
    }

    /** Finds a history and commits its uncommitted version. */
    method Upgrade(key1: K1, key2: K2, version: nat)
      requires Valid()
      modifies this
      ensures Valid()
      ensures forall k1, k2 :: At(k1, k2) ==
                if (k1, k2) == (key1, key2) then Commit(old(At(k1, k2)), version) else old(At(k1, k2))
    {
      if key1 in outer && key2 in outer[key1] {
        var b := Store(outer[key1], key2, Commit(outer[key1][key2], version));
        Put(key1, b);
      }
    }

    method ClearAt(key1: K1, key2: K2, base: nat)
      requires Valid()
      modifies this
      ensures Valid()
      ensures forall k1, k2 :: At(k1, k2) ==
                if (k1, k2) == (key1, key2) then Cleared(old(At(k1, k2)), base) else old(At(k1, k2))
    {
      if key1 in outer {
        var b := ClearIn(outer[key1], key2, base);
        Put(key1, b);
      }
    }

    /** Prunes every history of every bucket. */
    method Clear(base: nat)
      requires Valid()
      modifies this
      ensures Valid()
      ensures forall k1, k2 :: At(k1, k2) == Prune(old(At(k1, k2)), base)
    {
      var todo := outer.Keys;
      while todo != {}
        invariant Valid() && todo <= outer.Keys
        invariant forall k1, k2 :: At(k1, k2) == if k1 in todo then old(At(k1, k2)) else Prune(old(At(k1, k2)), base)
        decreases |todo|
      {
        var key :| key in todo;
        var b := ClearAllIn(outer[key], base);
        Put(key, b);
        todo := todo - {key};
      }
    }

    /** The second keys under a first key, once each: exactly those with anything in their history. */
    method Keys(key1: K1) returns (keys: seq<K2>)
      requires Valid()
      ensures forall k :: k in keys <==> At(key1, k) != Empty()
      ensures forall i, j :: 0 <= i < j < |keys| ==> keys[i] != keys[j]
    {
      keys := [];
      if key1 in outer {
        keys := KeysIn(outer[key1]);
      }
    }
  }
}
