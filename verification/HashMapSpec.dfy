/** What the hash map stores, as a value: a table of buckets, and the finite map it stands for. */
module HashMapSpec {
  import opened Prelude
  import opened ArrayLists

  datatype Element<K, V> = Element(key: K, value: Option<V>)

  /** A null bucket is None. */
  type Table<K, V> = seq<Option<seq<Element<K, V>>>>

  /** The key functions: the hash, and a comparator separate from it. */
  datatype Keys<!K(!new)> = Keys(hash: K -> nat, cmp: (K, K) -> bool)
  {
    /** All that is asked of them: the comparator is an equivalence, and equal keys collide. */
    ghost predicate Ok() {
      && (forall a :: cmp(a, a))
      && (forall a, b :: cmp(a, b) ==> cmp(b, a) && hash(a) == hash(b))
      && (forall a, b, c :: cmp(a, b) && cmp(b, c) ==> cmp(a, c))
    }
  }

  /** The index of the first element whose key equals `key`, or the length. */
  function FindIn<K(!new), V>(b: seq<Element<K, V>>, keys: Keys<K>, key: K): (i: nat)
    ensures i <= |b| && (forall j :: 0 <= j < i ==> !keys.cmp(b[j].key, key))
    ensures i < |b| ==> keys.cmp(b[i].key, key)
  {
    if b == [] then 0 else if keys.cmp(b[0].key, key) then 0 else 1 + FindIn(b[1..], keys, key)
  }

  function BucketAt<K(!new), V>(t: Table<K, V>, i: nat): seq<Element<K, V>> {
    if i < |t| && t[i].Some? then t[i].value else []
  }

  /** The value stored under `key`; a missing key and a stored null read alike. */
  function Get<K(!new), V>(t: Table<K, V>, keys: Keys<K>, key: K): Option<V> {
    var b := BucketAt(t, keys.hash(key));
    var i := FindIn(b, keys, key);
    if i < |b| then b[i].value else None
  }

  predicate Has<K(!new), V>(t: Table<K, V>, keys: Keys<K>, key: K) {
    var b := BucketAt(t, keys.hash(key));
    FindIn(b, keys, key) < |b|
  }

  function Remove<K(!new), V>(t: Table<K, V>, keys: Keys<K>, key: K): Table<K, V> {
    var h := keys.hash(key);
    var r := Touched(t, h);
    if r[h].None? then r else r[h := Some(Without(r[h].value, FindIn(r[h].value, keys, key)))]
  }

  function Put<K(!new), V>(t: Table<K, V>, keys: Keys<K>, key: K, value: Option<V>): Table<K, V> {
    var h, r := keys.hash(key), Remove(t, keys, key);
    r[h := Some(BucketAt(r, h) + [Element(key, value)])]
  }

  /** Every element is in the bucket of its hash, and no two elements have equal keys. */
  ghost predicate TableOk<K(!new), V>(t: Table<K, V>, keys: Keys<K>) {
    && keys.Ok()
    && (forall i :: 0 <= i < |t| ==> BucketOk(BucketAt(t, i), keys, i))
  }

  ghost predicate BucketOk<K(!new), V>(b: seq<Element<K, V>>, keys: Keys<K>, h: nat) {
    && (forall j :: 0 <= j < |b| ==> keys.hash(b[j].key) == h)
    && (forall j, k :: 0 <= j < k < |b| ==> !keys.cmp(b[j].key, b[k].key))
  }

  /** All elements in iteration order: bucket by bucket. */
  function Pairs<K(!new), V>(t: Table<K, V>): seq<Element<K, V>> {
    From(t, 0, 0)
  }

  /** The elements from position `index` of bucket `bucket` on. */
  function From<K(!new), V>(t: Table<K, V>, bucket: nat, index: nat): seq<Element<K, V>>
    decreases |t| - bucket
  {
    if bucket >= |t| then []
    else
      var b := BucketAt(t, bucket);
      (if index <= |b| then b[index..] else []) + From(t, bucket + 1, 0)
  }

  lemma FromStep<K(!new), V>(t: Table<K, V>, bucket: nat, index: nat)
    requires bucket < |t| && index < |BucketAt(t, bucket)|
    ensures From(t, bucket, index) == [BucketAt(t, bucket)[index]] + From(t, bucket, index + 1)
  {
  }

  // ----- lookups after updates

  lemma FindUnique<K(!new), V>(b: seq<Element<K, V>>, keys: Keys<K>, key: K, j: nat)
    requires keys.Ok() && j < |b| && keys.cmp(b[j].key, key)
    requires forall i, k :: 0 <= i < k < |b| ==> !keys.cmp(b[i].key, b[k].key)
    ensures FindIn(b, keys, key) == j
  {
    forall i | 0 <= i < j
      ensures !keys.cmp(b[i].key, key)
    {
      Equal(keys, b[i].key, key, b[j].key);
    }
  }

  /** Two keys equal to a third are equal. */
  lemma Equal<K(!new)>(keys: Keys<K>, a: K, b: K, c: K)
    requires keys.Ok()
    ensures keys.cmp(a, b) && (keys.cmp(b, c) || keys.cmp(c, b)) ==> keys.cmp(a, c) && keys.cmp(c, a)
    ensures keys.cmp(a, b) <==> keys.cmp(b, a)
  {
  }

  lemma TouchedOk<K(!new), V>(t: Table<K, V>, keys: Keys<K>, position: int)
    requires TableOk(t, keys)
    ensures TableOk(Touched(t, position), keys)
    ensures forall i :: BucketAt(Touched(t, position), i) == BucketAt(t, i)
    ensures forall key :: Get(Touched(t, position), keys, key) == Get(t, keys, key)
    ensures forall key :: Has(Touched(t, position), keys, key) <==> Has(t, keys, key)
  {
    var r := Touched(t, position);
    forall i | 0 <= i < |r|
      ensures BucketOk(BucketAt(r, i), keys, i)
    {
      assert BucketAt(r, i) == BucketAt(t, i);
    }
  }

  lemma WithoutOk<K(!new), V>(b: seq<Element<K, V>>, keys: Keys<K>, h: nat, key: K)
    requires BucketOk(b, keys, h) && keys.Ok()
    ensures
      var c := Without(b, FindIn(b, keys, key));
      && BucketOk(c, keys, h)
      && forall j :: 0 <= j < |c| ==> !keys.cmp(c[j].key, key)
  {
    var i := FindIn(b, keys, key);
    var c := Without(b, i);
    forall j | 0 <= j < |c|
      ensures !keys.cmp(c[j].key, key)
    {
      if j >= i {
        Equal(keys, b[i].key, key, b[j + 1].key);
        Equal(keys, b[j + 1].key, key, b[i].key);
      }
    }
  }

  lemma OneKey<K(!new), V>(b: seq<Element<K, V>>, keys: Keys<K>, h: nat)
    requires BucketOk(b, keys, h)
    ensures forall i, k :: 0 <= i < k < |b| ==> !keys.cmp(b[i].key, b[k].key)
  {
  }

  /** Another key is found in a bucket exactly as before the removal of `key`. */
  lemma FindOther<K(!new), V>(b: seq<Element<K, V>>, keys: Keys<K>, h: nat, key: K, other: K)
    requires BucketOk(b, keys, h) && keys.Ok() && !keys.cmp(key, other)
    ensures
      var c := Without(b, FindIn(b, keys, key));
      var i, j := FindIn(b, keys, other), FindIn(c, keys, other);
      if i < |b| then j < |c| && c[j] == b[i] else j >= |c|
  {
    hide BucketOk;
    var r := FindIn(b, keys, key);
    var c := Without(b, r);
    var i := FindIn(b, keys, other);
    WithoutOk(b, keys, h, key);
    assert BucketOk(c, keys, h);
    OneKey(c, keys, h);
    if i < |b| {
      Equal(keys, key, b[i].key, other);
      Equal(keys, key, other, b[i].key);
      var j := if i < r then i else i - 1;
      assert c[j] == b[i];
      FindUnique(c, keys, other, j);
    } else {
      assert forall j :: 0 <= j < |c| ==> c[j] == b[if j < r then j else j + 1];
    }
  }

  /** Removal deletes the key and leaves every other key alone. */
  lemma RemoveLaws<K(!new), V>(t: Table<K, V>, keys: Keys<K>, key: K, other: K)
    requires TableOk(t, keys)
    ensures TableOk(Remove(t, keys, key), keys)
    ensures keys.cmp(key, other) ==> !Has(Remove(t, keys, key), keys, other)
    ensures !keys.cmp(key, other) ==>
              && Get(Remove(t, keys, key), keys, other) == Get(t, keys, other)
              && (Has(Remove(t, keys, key), keys, other) <==> Has(t, keys, other))
  {
    var h, r, s := keys.hash(key), Touched(t, keys.hash(key)), Remove(t, keys, key);
    TouchedOk(t, keys, h);
    var b := BucketAt(r, h);
    assert BucketOk(b, keys, h);
    WithoutOk(b, keys, h, key);
    var c := BucketAt(s, h);
    assert c == Without(b, FindIn(b, keys, key));
    assert forall i :: i != h ==> BucketAt(s, i) == BucketAt(r, i);
    assert forall i :: 0 <= i < |s| ==> BucketOk(BucketAt(s, i), keys, i);
    if keys.cmp(key, other) {
      forall i | 0 <= i < |c|
        ensures !keys.cmp(c[i].key, other)
      {
        Equal(keys, c[i].key, other, key);
      }
    } else if keys.hash(other) == h {
      FindOther(b, keys, h, key, other);
    }
  }

  lemma FindAppended<K(!new), V>(b: seq<Element<K, V>>, e: Element<K, V>, keys: Keys<K>, key: K)
    ensures
      var i := FindIn(b, keys, key);
      FindIn(b + [e], keys, key) == if i < |b| then i else if keys.cmp(e.key, key) then |b| else |b| + 1
  {
    var c, i, j := b + [e], FindIn(b, keys, key), FindIn(b + [e], keys, key);
    assert i < |b| ==> c[i] == b[i];
    assert j < |b| ==> c[j] == b[j];
    assert c[|b|] == e;
  }

  /** Storing a value makes it the value of the key and leaves every other key alone. */
  lemma PutLaws<K(!new), V>(t: Table<K, V>, keys: Keys<K>, key: K, value: Option<V>, other: K)
    requires TableOk(t, keys)
    ensures TableOk(Put(t, keys, key, value), keys)
    ensures keys.cmp(key, other) ==>
              Has(Put(t, keys, key, value), keys, other) && Get(Put(t, keys, key, value), keys, other) == value
    ensures !keys.cmp(key, other) ==>
              && Get(Put(t, keys, key, value), keys, other) == Get(t, keys, other)
              && (Has(Put(t, keys, key, value), keys, other) <==> Has(t, keys, other))
  {
    var h, r, s, e := keys.hash(key), Remove(t, keys, key), Put(t, keys, key, value), Element(key, value);
    RemoveLaws(t, keys, key, other);
    RemoveLaws(t, keys, key, key);
    var b := BucketAt(r, h);
    assert BucketAt(s, h) == b + [e];
    assert forall i :: i != h ==> BucketAt(s, i) == BucketAt(r, i);
    assert BucketOk(b + [e], keys, h) by {
      assert BucketOk(b, keys, h);
      assert forall j :: 0 <= j < |b| ==> !keys.cmp(b[j].key, key);
    }
    assert forall i :: 0 <= i < |s| ==> BucketOk(BucketAt(s, i), keys, i);
    FindAppended(b, e, keys, other);
    if keys.cmp(key, other) {
      assert FindIn(b, keys, other) >= |b|;
    }
  }

  lemma {:induction false} FromTouched<K(!new), V>(t: Table<K, V>, position: int, bucket: nat, index: nat)
    ensures From(Touched(t, position), bucket, index) == From(t, bucket, index)
    decreases |Touched(t, position)| - bucket
  {
    var r := Touched(t, position);
    if bucket < |r| {
      FromTouched(t, position, bucket + 1, 0);
    }
  }

  // ----- iteration order

  /** `e` is what the map holds under its key. */
  ghost predicate Stored<K(!new), V>(t: Table<K, V>, keys: Keys<K>, e: Element<K, V>) {
    Has(t, keys, e.key) && Get(t, keys, e.key) == e.value
  }

  lemma FromUnfold<K(!new), V>(t: Table<K, V>, bucket: nat)
    requires bucket < |t|
    ensures From(t, bucket, 0) == BucketAt(t, bucket) + From(t, bucket + 1, 0)
  {
  }

  lemma BucketStored<K(!new), V>(t: Table<K, V>, keys: Keys<K>, bucket: nat, j: nat)
    requires TableOk(t, keys) && bucket < |t| && j < |BucketAt(t, bucket)|
    ensures keys.hash(BucketAt(t, bucket)[j].key) == bucket && Stored(t, keys, BucketAt(t, bucket)[j])
  {
    var b := BucketAt(t, bucket);
    assert BucketOk(b, keys, bucket);
    FindUnique(b, keys, b[j].key, j);
  }

  lemma {:induction false} FromSound<K(!new), V>(t: Table<K, V>, keys: Keys<K>, bucket: nat, j: nat)
    requires TableOk(t, keys) && j < |From(t, bucket, 0)|
    ensures bucket <= keys.hash(From(t, bucket, 0)[j].key) && Stored(t, keys, From(t, bucket, 0)[j])
    decreases |t| - bucket
  {
    var b := BucketAt(t, bucket);
    FromUnfold(t, bucket);
    if j < |b| {
      BucketStored(t, keys, bucket, j);
    } else {
      FromSound(t, keys, bucket + 1, j - |b|);
    }
  }

  lemma {:induction false} FromApart<K(!new), V>(t: Table<K, V>, keys: Keys<K>, bucket: nat, i: nat, j: nat)
    requires TableOk(t, keys) && i < j < |From(t, bucket, 0)|
    ensures !keys.cmp(From(t, bucket, 0)[i].key, From(t, bucket, 0)[j].key)
    decreases |t| - bucket
  {
    var b := BucketAt(t, bucket);
    FromUnfold(t, bucket);
    assert BucketOk(b, keys, bucket);
    if |b| <= i {
      FromApart(t, keys, bucket + 1, i - |b|, j - |b|);
    } else if |b| <= j {
      FromSound(t, keys, bucket + 1, j - |b|);
    }
  }

  lemma {:induction false} FromComplete<K(!new), V>(t: Table<K, V>, keys: Keys<K>, bucket: nat, key: K) returns (j: nat)
    requires TableOk(t, keys) && Has(t, keys, key) && bucket <= keys.hash(key)
    ensures j < |From(t, bucket, 0)| && keys.cmp(From(t, bucket, 0)[j].key, key)
    decreases |t| - bucket
  {
    hide From, BucketOk;
    var b := BucketAt(t, bucket);
    FromUnfold(t, bucket);
    if keys.hash(key) == bucket {
      j := FindIn(b, keys, key);
    } else {
      var k := FromComplete(t, keys, bucket + 1, key);
      j := |b| + k;
    }
  }

  /** What holds an equal key holds the value of `key`. */
  lemma StoredValue<K(!new), V>(t: Table<K, V>, keys: Keys<K>, e: Element<K, V>, key: K)
    requires TableOk(t, keys) && Stored(t, keys, e) && keys.cmp(e.key, key)
    ensures Has(t, keys, key) && Get(t, keys, key) == e.value
  {
    var b := BucketAt(t, keys.hash(key));
    var i := FindIn(b, keys, e.key);
    Equal(keys, b[i].key, e.key, key);
    assert BucketOk(b, keys, keys.hash(key));
    FindUnique(b, keys, key, i);
  }

  /** Iteration meets every key of the map exactly once, with its value, and no other key. */
  lemma PairsAreTheMap<K(!new), V>(t: Table<K, V>, keys: Keys<K>, key: K)
    requires TableOk(t, keys)
    ensures forall i, j :: 0 <= i < j < |Pairs(t)| ==> !keys.cmp(Pairs(t)[i].key, Pairs(t)[j].key)
    ensures Has(t, keys, key) <==> exists j :: 0 <= j < |Pairs(t)| && keys.cmp(Pairs(t)[j].key, key)
    ensures forall j :: 0 <= j < |Pairs(t)| && keys.cmp(Pairs(t)[j].key, key) ==> Pairs(t)[j].value == Get(t, keys, key)
  {
    hide From, FindIn;
    forall i, j | 0 <= i < j < |Pairs(t)|
      ensures !keys.cmp(Pairs(t)[i].key, Pairs(t)[j].key)
    {
      FromApart(t, keys, 0, i, j);
    }
    forall j | 0 <= j < |Pairs(t)| && keys.cmp(Pairs(t)[j].key, key)
      ensures Has(t, keys, key) && Pairs(t)[j].value == Get(t, keys, key)
    {
      FromSound(t, keys, 0, j);
      StoredValue(t, keys, Pairs(t)[j], key);
    }
    if Has(t, keys, key) {
      var j := FromComplete(t, keys, 0, key);
      assert j < |Pairs(t)| && keys.cmp(Pairs(t)[j].key, key);
    }
  }

  // ----- a constant hash

  lemma OtherBucket<K(!new), V>(t: Table<K, V>, keys: Keys<K>, h: nat, i: nat)
    requires TableOk(t, keys) && (forall a :: keys.hash(a) == h) && i < |t| && i != h
    ensures BucketAt(t, i) == []
  {
    var b := BucketAt(t, i);
    assert BucketOk(b, keys, i);
    assert b != [] ==> keys.hash(b[0].key) == i;
  }

  lemma {:induction false} OneBucket<K(!new), V>(t: Table<K, V>, keys: Keys<K>, h: nat, i: nat)
    requires TableOk(t, keys) && forall a :: keys.hash(a) == h
    ensures From(t, i, 0) == if i <= h then BucketAt(t, h) else []
    decreases |t| - i
  {
    hide TableOk;
    if i < |t| {
      OneBucket(t, keys, h, i + 1);
      assert BucketAt(t, i)[0..] == BucketAt(t, i);
      if i != h {
        OtherBucket(t, keys, h, i);
      }
    }
  }

  lemma RemoveBucket<K(!new), V>(t: Table<K, V>, keys: Keys<K>, key: K)
    requires TableOk(t, keys)
    ensures
      var h, r := keys.hash(key), Remove(t, keys, key);
      && h < |r| && BucketAt(r, h) == Without(BucketAt(t, h), FindIn(BucketAt(t, h), keys, key))
  {
    hide BucketOk;
    TouchedOk(t, keys, keys.hash(key));
  }

  /** Under a constant hash the iterator meets the elements in the order of their last store:
      storing takes an element with an equal key out of the order and appends the new one. */
  lemma ConstantHashOrder<K(!new), V>(t: Table<K, V>, keys: Keys<K>, h: nat, key: K, value: Option<V>)
    requires TableOk(t, keys) && forall a :: keys.hash(a) == h
    ensures Pairs(Remove(t, keys, key)) == Without(Pairs(t), FindIn(Pairs(t), keys, key))
    ensures Pairs(Put(t, keys, key, value)) ==
            Without(Pairs(t), FindIn(Pairs(t), keys, key)) + [Element(key, value)]
  {
    hide FindIn, Remove, BucketOk, From;
    var r := Remove(t, keys, key);
    RemoveLaws(t, keys, key, key);
    PutLaws(t, keys, key, value, key);
    TouchedOk(t, keys, h);
    OneBucket(t, keys, h, 0);
    OneBucket(r, keys, h, 0);
    OneBucket(Put(t, keys, key, value), keys, h, 0);
    RemoveBucket(t, keys, key);
  }
}
