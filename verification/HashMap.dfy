/** The hash map: a growing array of buckets, each a doubly linked list of elements. */
module HashMaps {
  import opened Prelude
  import opened ArrayLists
  import opened LinkedLists
  import opened HashMapSpec

  const INITIAL_BUCKETS: nat := 100

  /** A position in the map: a bucket number and an index in the bucket's list. */
  datatype Iterator = Iterator(bucket: nat, index: nat)

  class HashMap<K(!new), V> {
    const keys: Keys<K>
    const nodes: ArrayList<List<Element<K, V>>>
    ghost var table: Table<K, V>
    ghost var owner: map<object, int>   // the bucket that each list and list node belongs to

    /** Slot `i` holds a valid list of its own with the elements of the table, or null. */
    ghost predicate SlotOk(i: nat)
      requires nodes.Valid() && i < nodes.size == |table|
      reads this, nodes, nodes.data, owner.Keys
    {
      match nodes.data[i]
      case None => table[i] == None
      case Some(b) =>
        && b in owner.Keys && owner[b] == i
        && (forall k :: 0 <= k < |b.nodes| ==> b.nodes[k] in owner.Keys && owner[b.nodes[k]] == i)
        && b.Valid() && table[i] == Some(b.contents)
    }

    ghost predicate Valid()
      reads this, nodes, nodes.data, owner.Keys
    {
      && this !in owner.Keys && nodes !in owner.Keys && nodes.data !in owner.Keys
      && nodes.Valid() && |table| == nodes.size
      && (forall i :: 0 <= i < nodes.size ==> SlotOk(i))
      && TableOk(table, keys)
    }

    constructor (keys: Keys<K>)
      requires keys.Ok()
      ensures Valid() && this.keys == keys && Pairs(table) == [] && fresh(nodes) && fresh(nodes.data) && owner == map[]
    {
      this.keys := keys;
      nodes := new ArrayList<List<Element<K, V>>>();
      owner := map[];
      new;
      nodes.ResizeFill(INITIAL_BUCKETS);
      table := Nulls(INITIAL_BUCKETS);
      NoPairs(table, 0);
    }

    static lemma {:induction false} NoPairs(t: Table<K, V>, bucket: nat)
      requires forall i :: 0 <= i < |t| ==> t[i] == None
      ensures From(t, bucket, 0) == []
      decreases |t| - bucket
    {
      if bucket < |t| {
        NoPairs(t, bucket + 1);
      }
    }

    /** Reads a slot, growing the array if it is not there. */
    method Bucket(h: nat) returns (b: Option<List<Element<K, V>>>)
      requires Valid()
      modifies nodes, nodes.data, this`table
      ensures Valid() && (nodes.data == old(nodes.data) || fresh(nodes.data))
      ensures h < old(nodes.size) ==> nodes.data == old(nodes.data)
      ensures table == Touched(old(table), h)
      ensures h < nodes.size && b == nodes.data[h]
    {
      hide TableOk;
      TouchedOk(table, keys, h);
      ghost var before := nodes.Contents();
      b := nodes.GetValueAt(h);
      table := Touched(table, h);
      assert nodes.Contents() == Touched(before, h);
      forall i | 0 <= i < nodes.size
        ensures SlotOk(i)
      {
        assert nodes.data[i] == nodes.Contents()[i];
        if i < |before| {
          assert old(SlotOk(i));
        }
      }
    }

    /** The search loop over a bucket. */
    method FindNode(b: List<Element<K, V>>, key: K) returns (it: ListNode?<Element<K, V>>)
      requires b.Valid()
      ensures
        var k := FindIn(b.contents, keys, key);
        it == if k < |b.nodes| then b.nodes[k] else null
    {
      it := b.begin;
      ghost var k := 0;
      assert b.contents[0..] == b.contents;
      while it != null && !keys.cmp(it.value.key, key)
        invariant 0 <= k <= |b.nodes| && it == (if k == |b.nodes| then null else b.nodes[k])
        invariant FindIn(b.contents, keys, key) == k + FindIn(b.contents[k..], keys, key)
        decreases |b.nodes| - k
      {
        assert b.contents[k..][1..] == b.contents[k + 1..];
        it := it.right;
        k := k + 1;
      }
    }

    /** The value under the key, or null. */
    method HashMapGet(key: Option<K>) returns (v: Option<V>)
      requires Valid()
      modifies nodes, nodes.data, this`table
      ensures Valid() && (nodes.data == old(nodes.data) || fresh(nodes.data))
      ensures key == None ==> v == None && table == old(table)
      ensures key.Some? ==> v == Get(old(table), keys, key.value) && table == Touched(old(table), keys.hash(key.value))
    {
      if key == None { return None; }
      var hash := keys.hash(key.value);
      TouchedOk(table, keys, hash);
      var currentNode := Bucket(hash);
      assert SlotOk(hash);
      if currentNode == None { return None; }
      var i := FindNode(currentNode.value, key.value);
      if i != null {
        return i.value.value;
      }
      return None;
    }
  
    /** Detaches the node at index `k` of bucket `h`. */
    method DetachAt(h: nat, b: List<Element<K, V>>, it: ListNode<Element<K, V>>, ghost k: nat)
      requires Valid() && h < nodes.size && nodes.data[h] == Some(b)
      requires k < |b.nodes| && it == b.nodes[k]
      requires TableOk(table[h := Some(Without(b.contents, k))], keys)
      modifies this`table, owner.Keys
      ensures Valid() && table == old(table)[h := Some(Without(old(b.contents), k))]
    {
      hide TableOk;
      assert SlotOk(h);
      forall j | 0 <= j < nodes.size && j != h && nodes.data[j].Some?
        ensures nodes.data[j].value != b
        ensures forall i :: 0 <= i < |nodes.data[j].value.nodes| ==> nodes.data[j].value.nodes[i] !in b.nodes
      {
        assert SlotOk(j);
      }
      label before:
      b.DetachElement(it, k);
      table := table[h := Some(b.contents)];
      assert forall i :: 0 <= i < |b.nodes| ==> b.nodes[i] in old@before(b.nodes);
      assert SlotOk(h);
      forall j | 0 <= j < nodes.size && j != h
        ensures SlotOk(j)
      {
        assert old@before(SlotOk(j));
      }
    }

    /** Removes the key and returns its old value, or null. */
    method HashMapRemove(key: Option<K>) returns (v: Option<V>)
      requires Valid()
      modifies this`table, nodes, nodes.data, owner.Keys
      ensures Valid() && (nodes.data == old(nodes.data) || fresh(nodes.data))
      ensures key == None ==> v == None && table == old(table)
      ensures key.Some? ==> v == Get(old(table), keys, key.value) && table == Remove(old(table), keys, key.value)
      ensures key.Some? ==> keys.hash(key.value) < nodes.size
    {
      hide TableOk;
      if key == None { return None; }
      var hash := keys.hash(key.value);
      TouchedOk(table, keys, hash);
      RemoveLaws(table, keys, key.value, key.value);
      var currentNode := Bucket(hash);
      assert SlotOk(hash);
      if currentNode == None { return None; }
      var b := currentNode.value;
      var i := FindNode(b, key.value);
      if i != null {
        v := i.value.value;
        DetachAt(hash, b, i, FindIn(b.contents, keys, key.value));
        return;
      }
      assert table[hash := table[hash]] == table;
      return None;
    }

    /** Appends an element to bucket `h`. */
    method AppendTo(h: nat, b: List<Element<K, V>>, e: Element<K, V>)
      requires Valid() && h < nodes.size && nodes.data[h] == Some(b)
      requires TableOk(table[h := Some(b.contents + [e])], keys)
      modifies this`table, this`owner, owner.Keys
      ensures Valid() && table == old(table)[h := Some(old(b.contents) + [e])]
      ensures fresh(owner.Keys - old(owner.Keys))
    {
      hide TableOk;
      assert SlotOk(h);
      forall j | 0 <= j < nodes.size && j != h && nodes.data[j].Some?
        ensures nodes.data[j].value != b
        ensures forall i :: 0 <= i < |nodes.data[j].value.nodes| ==> nodes.data[j].value.nodes[i] !in b.nodes
      {
        assert SlotOk(j);
      }
      label before:
      var n := b.PushBack(e);
      owner := owner[n := h];
      table := table[h := Some(b.contents)];
      assert SlotOk(h);
      forall j | 0 <= j < nodes.size && j != h
        ensures SlotOk(j)
      {
        assert old@before(SlotOk(j));
      }
    }

    /** Stores the value under the key and returns the value it replaces, or null. A missing
        bucket is created empty, filled, and then stored in its slot; writing an existing one
        back to its slot changes nothing and is not repeated here. */
    method HashMapSet(key: Option<K>, value: Option<V>) returns (oldData: Option<V>)
      requires Valid()
      modifies this`table, this`owner, nodes, nodes.data, owner.Keys
      ensures Valid() && (nodes.data == old(nodes.data) || fresh(nodes.data)) && fresh(owner.Keys - old(owner.Keys))
      ensures key == None ==> oldData == None && table == old(table)
      ensures key.Some? ==>
                && oldData == Get(old(table), keys, key.value)
                && table == Put(old(table), keys, key.value, value)
    {
      hide TableOk;
      if key == None { return None; }
      PutLaws(table, keys, key.value, value, key.value);
      oldData := HashMapRemove(key);
      var hash := keys.hash(key.value);
      var currentNode := Bucket(hash);
      assert SlotOk(hash);
      assert table == Remove(old(table), keys, key.value);
      assert BucketAt(table, hash) + [Element(key.value, value)] ==
             if currentNode == None then [Element(key.value, value)]
             else currentNode.value.contents + [Element(key.value, value)];
      if currentNode == None {
        NewBucket(hash, Element(key.value, value));
      } else {
        AppendTo(hash, currentNode.value, Element(key.value, value));
      }
    }

    /** A new bucket with one element, in the null slot `h`. */
    method NewBucket(h: nat, e: Element<K, V>)
      requires Valid() && h < nodes.size && nodes.data[h] == None
      requires TableOk(table[h := Some([e])], keys)
      modifies this`table, this`owner, nodes, nodes.data
      ensures Valid() && (nodes.data == old(nodes.data) || fresh(nodes.data))
      ensures table == old(table)[h := Some([e])]
      ensures fresh(owner.Keys - old(owner.Keys))
    {
      hide TableOk;
      label before:
      var b := new List<Element<K, V>>();
      var n := b.PushBack(e);
      assert b.contents == [e];
      var previous := nodes.SetValueAt(h, Some(b));
      owner := owner[b := h][n := h];
      table := table[h := Some(b.contents)];
      assert nodes.Contents() == old(nodes.Contents())[h := Some(b)];
      forall j | 0 <= j < nodes.size
        ensures SlotOk(j)
      {
        assert nodes.data[j] == nodes.Contents()[j];
        if j != h {
          assert old@before(SlotOk(j));
        }
      }
    }
  
    // ----- iteration

    /** The position is at an element, or past the last bucket. */
    ghost predicate At(it: Iterator)
      reads this
    {
      it.bucket <= |table| && (it.bucket < |table| ==> it.index < |BucketAt(table, it.bucket)|)
    }

    /** The search for an element from a position on, bucket by bucket. */
    method Advance(start: Iterator) returns (it: Iterator)
      requires Valid() && start.bucket <= |table|
      modifies nodes, nodes.data, this`table
      ensures Valid() && nodes.data == old(nodes.data) && table == old(table)
      ensures At(it) && From(table, it.bucket, it.index) == From(table, start.bucket, start.index)
    {
      hide TableOk;
      it := start;
      while it.bucket < nodes.size
        modifies nodes, nodes.data, this`table
        invariant Valid() && nodes.data == old(nodes.data) && table == old(table)
        invariant it.bucket <= |table|
        invariant From(table, it.bucket, it.index) == From(table, start.bucket, start.index)
        decreases |table| - it.bucket
      {
        var items := Bucket(it.bucket);
        assert SlotOk(it.bucket);
        // a null bucket has a null list, whose elements read as null
        var element := None;
        if items.Some? {
          element := items.value.GetValueAt(it.index);
        }
        if element == None {
          it := Iterator(it.bucket + 1, 0);
        } else {
          return;
        }
      }
    }

    method HashMapBegin() returns (it: Iterator)
      requires Valid()
      modifies nodes, nodes.data, this`table
      ensures Valid() && nodes.data == old(nodes.data) && table == old(table)
      ensures At(it) && From(table, it.bucket, it.index) == Pairs(table)
    {
      it := Advance(Iterator(0, 0));
    }

    method HashMapNext(start: Iterator) returns (it: Iterator)
      requires Valid() && start.bucket <= |table|
      modifies nodes, nodes.data, this`table
      ensures Valid() && nodes.data == old(nodes.data) && table == old(table)
      ensures At(it) && From(table, it.bucket, it.index) == From(table, start.bucket, start.index + 1)
    {
      it := Advance(start.(index := start.index + 1));
    }

    /** The end test reads the slot, and so grows the array when it is past its end. */
    method HashMapIsEnd(it: Iterator) returns (end: bool)
      requires Valid() && At(it)
      modifies nodes, nodes.data, this`table
      ensures Valid() && (nodes.data == old(nodes.data) || fresh(nodes.data))
      ensures table == Touched(old(table), it.bucket)
      ensures end <==> it.bucket == |old(table)|
      ensures end <==> From(old(table), it.bucket, it.index) == []
      ensures !end ==> table == old(table) && it.bucket < |table| && nodes.data == old(nodes.data)
    {
      var b := Bucket(it.bucket);
      assert SlotOk(it.bucket);
      end := b == None;
    }

    /** The element at a position. */
    method GetElement(it: Iterator) returns (e: Element<K, V>)
      requires Valid() && At(it) && it.bucket < |table|
      modifies nodes, nodes.data, this`table
      ensures Valid() && nodes.data == old(nodes.data) && table == old(table)
      ensures e == From(table, it.bucket, it.index)[0]
    {
      var items := Bucket(it.bucket);
      assert SlotOk(it.bucket);
      var element := items.value.GetValueAt(it.index);
      e := element.value;
    }

    /** The iteration macro: begin, test for the end, use, next. It terminates and visits every
        stored pair exactly once, in order; the growth of the array by the last end test leaves
        the pairs as they were. */
    method Iterate() returns (visited: seq<Element<K, V>>)
      requires Valid()
      modifies nodes, nodes.data, this`table
      ensures Valid() && (nodes.data == old(nodes.data) || fresh(nodes.data))
      ensures visited == Pairs(old(table))
      ensures Pairs(table) == Pairs(old(table))
      ensures forall key :: Get(table, keys, key) == Get(old(table), keys, key)
    {
      hide TableOk, From, Touched, Get, FindIn, SlotOk;
      visited := [];
      ghost var all := table;
      var it := HashMapBegin();
      var end := HashMapIsEnd(it);
      FromTouched(all, it.bucket, 0, 0);
      TouchedOk(all, keys, it.bucket);
      while !end
        modifies nodes, nodes.data, this`table
        invariant Valid() && (nodes.data == old(nodes.data) || fresh(nodes.data))
        invariant !end ==> nodes.data == old(nodes.data) && table == all && At(it) && it.bucket < |table|
        invariant end ==> Pairs(table) == Pairs(all) && visited == Pairs(all)
        invariant end ==> forall key :: Get(table, keys, key) == Get(all, keys, key)
        invariant !end ==> visited + From(table, it.bucket, it.index) == Pairs(all)
        decreases !end, if end then 0 else |From(table, it.bucket, it.index)|
      {
        var e := GetElement(it);
        visited := visited + [e];
        FromStep(table, it.bucket, it.index);
        it := HashMapNext(it);
        end := HashMapIsEnd(it);
        FromTouched(all, it.bucket, 0, 0);
        TouchedOk(all, keys, it.bucket);
      }
    }
  
    /** The element records of a bucket, in the order in which its list holds them. */
    method Records(b: List<Element<K, V>>) returns (records: seq<Element<K, V>>)
      requires b.Valid()
      ensures records == b.contents
    {
      records := [];
      var it := b.begin;
      ghost var k := 0;
      while it != null
        invariant 0 <= k <= |b.nodes| && it == (if k == |b.nodes| then null else b.nodes[k])
        invariant records == b.contents[..k]
        decreases |b.nodes| - k
      {
        records := records + [it.value];
        it := it.right;
        k := k + 1;
      }
    }

    /** Bucket by bucket through the table. */
    static lemma NextBucket(t: Table<K, V>, i: nat, records: seq<Element<K, V>>)
      requires i < |t| && records + From(t, i, 0) == Pairs(t)
      ensures records + (if t[i] == None then [] else t[i].value) + From(t, i + 1, 0) == Pairs(t)
      ensures t[i] == None ==> records + From(t, i + 1, 0) == Pairs(t)
    {
      FromUnfold(t, i);
    }

    static lemma TableEnd(t: Table<K, V>)
      ensures From(t, |t|, 0) == []
    {
    }

    /** Destroys one bucket and leaves those after it alone. */
    method DestroyBucket(i: nat, b: List<Element<K, V>>) returns (records: seq<Element<K, V>>)
      requires nodes.Valid() && i < nodes.size == |table| && nodes.data[i] == Some(b)
      requires nodes !in owner.Keys && nodes.data !in owner.Keys && this !in owner.Keys
      requires forall j :: i <= j < nodes.size ==> SlotOk(j)
      modifies b, b.nodes
      ensures table[i] == Some(records)
      ensures forall k :: 0 <= k < |old(b.nodes)| ==> old(b.nodes)[k].freed
      ensures forall j :: i < j < nodes.size ==> SlotOk(j)
      ensures forall j :: i < j < nodes.size && nodes.data[j].Some? ==>
                            nodes.data[j].value.nodes == old(nodes.data[j].value.nodes)
    {
      assert SlotOk(i);
      records := Records(b);
      forall j | i < j < nodes.size && nodes.data[j].Some?
        ensures nodes.data[j].value != b
        ensures forall k :: 0 <= k < |nodes.data[j].value.nodes| ==> nodes.data[j].value.nodes[k] !in b.nodes
      {
        assert SlotOk(j);
      }
      b.Destroy();
      forall j | i < j < nodes.size
        ensures SlotOk(j)
      {
        assert old(SlotOk(j));
      }
    }

    /** Destroys every bucket. `records` are the element records freed, in order: those of the map,
        each once; `wrappers` are the buckets freed, each once; and each list node in the map is
        freed. */
    method HashMapDestroy() returns (records: seq<Element<K, V>>, wrappers: seq<List<Element<K, V>>>)
      requires Valid()
      modifies this`table, nodes, owner.Keys
      ensures nodes.size == 0 && table == []
      ensures records == Pairs(old(table))
      ensures forall i, j :: 0 <= i < j < |wrappers| ==> wrappers[i] != wrappers[j]
      ensures forall i :: 0 <= i < |old(table)| && old(nodes.data[i]).Some? ==> old(nodes.data[i]).value in wrappers
      ensures forall i, k :: (0 <= i < |old(table)| && old(nodes.data[i]).Some?
                              && 0 <= k < |old(nodes.data[i].value.nodes)|) ==>
                               old(nodes.data[i].value.nodes)[k].freed
    {
      hide TableOk, BucketAt, From;
      records, wrappers := [], [];
      for i := 0 to nodes.size
        modifies owner.Keys
        invariant forall j :: i <= j < nodes.size ==> SlotOk(j)
        invariant forall j :: i <= j < nodes.size && nodes.data[j].Some? ==>
                                nodes.data[j].value.nodes == old(nodes.data[j].value.nodes)
        invariant forall j, k :: 0 <= j < i && nodes.data[j].Some? && 0 <= k < |old(nodes.data[j].value.nodes)| ==>
                                   old(nodes.data[j].value.nodes)[k].freed
        invariant records + From(table, i, 0) == Pairs(table)
        invariant forall j, k :: 0 <= j < k < |wrappers| ==> wrappers[j] != wrappers[k]
        invariant forall b :: b in wrappers ==> b in owner.Keys && owner[b] < i
        invariant forall j :: 0 <= j < i && nodes.data[j].Some? ==> nodes.data[j].value in wrappers
      {
        assert SlotOk(i);
        NextBucket(table, i, records);
        if nodes.data[i].Some? {
          var b := nodes.data[i].value;
          forall j, k | 0 <= j < i && nodes.data[j].Some? && 0 <= k < |old(nodes.data[j].value.nodes)|
            ensures old(nodes.data[j].value.nodes)[k] !in b.nodes
          {
            assert old(SlotOk(j));
          }
          var own := DestroyBucket(i, b);
          records := records + own;
          wrappers := wrappers + [b];
        }
      }
      TableEnd(table);
      nodes.size := 0;
      table := [];
    }
  }
}
