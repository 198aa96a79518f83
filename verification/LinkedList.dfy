/** The doubly linked list. The ghost fields hold its nodes, and their values, from left to
    right. */
module LinkedLists {
  import opened Prelude

  class ListNode<T> {
    var left: ListNode?<T>
    var right: ListNode?<T>
    var value: T
    ghost var freed: bool

    constructor (left: ListNode?<T>, value: T, right: ListNode?<T>)
      ensures this.left == left && this.value == value && this.right == right && !freed
    {
      this.left := left;
      this.value := value;
      this.right := right;
      freed := false;
    }
  }

  /** Returns a node to the allocator. A node is freed at most once. */
  method Free<T>(n: ListNode<T>)
    requires !n.freed
    modifies n`freed
    ensures n.freed
  {
    n.freed := true;
  }

  ghost predicate Apart<T>(nodes: seq<ListNode<T>>) {
    forall i, j :: 0 <= i < j < |nodes| ==> nodes[i] != nodes[j]
  }

  /** The node at `k` and its neighbours differ from every other node. */
  lemma ApartFrom<T>(nodes: seq<ListNode<T>>, k: nat)
    requires Apart(nodes) && k < |nodes|
    ensures forall i :: 0 <= i < |nodes| && i != k ==> nodes[i] != nodes[k]
    ensures k > 0 ==> forall i :: 0 <= i < |nodes| && i != k - 1 ==> nodes[i] != nodes[k - 1]
    ensures k + 1 < |nodes| ==> forall i :: 0 <= i < |nodes| && i != k + 1 ==> nodes[i] != nodes[k + 1]
  {
  }

  lemma ApartWithout<T>(nodes: seq<ListNode<T>>, k: nat)
    requires Apart(nodes) && k < |nodes|
    ensures Apart(nodes[..k] + nodes[k + 1..]) && Apart(nodes[..k]) && Apart(nodes[k + 1..]) && Apart(nodes[..k + 1])
  {
  }

  lemma ApartSpliced<T>(nodes: seq<ListNode<T>>, spliced: seq<ListNode<T>>, k: nat)
    requires Apart(nodes) && Apart(spliced) && k <= |nodes|
    requires forall i, j :: 0 <= i < |nodes| && 0 <= j < |spliced| ==> nodes[i] != spliced[j]
    ensures Apart(nodes[..k] + spliced + nodes[k..])
  {
  }

  lemma ApartEmpty<T>()
    ensures Apart<T>([])
  {
  }

  /** Where the elements of a spliced sequence come from. */
  lemma SplicedAt<T>(s: seq<T>, spliced: seq<T>, k: nat)
    requires k <= |s|
    ensures
      var r, m := s[..k] + spliced + s[k..], |spliced|;
      && |r| == |s| + m
      && (forall i :: 0 <= i < k ==> r[i] == s[i])
      && (forall i :: k <= i < k + m ==> r[i] == spliced[i - k])
      && (forall i :: k + m <= i < |r| ==> r[i] == s[i - m])
  {
  }

  class List<T> {
    var begin: ListNode?<T>
    var end: ListNode?<T>
    ghost var nodes: seq<ListNode<T>>
    ghost var contents: seq<T>

    /** The nodes are distinct and live, the links are mutually inverse, and the root refers to
        the two ends. */
    ghost predicate Valid()
      reads this, nodes
    {
      && Apart(nodes)
      && |contents| == |nodes|
      && (forall i {:trigger nodes[i].value} :: 0 <= i < |nodes| ==> nodes[i].value == contents[i])
      && (forall i {:trigger nodes[i].freed} :: 0 <= i < |nodes| ==> !nodes[i].freed)
      && (forall i {:trigger nodes[i].left} :: 0 <= i < |nodes| ==>
            nodes[i].left == (if i == 0 then null else nodes[i - 1]))
      && (forall i {:trigger nodes[i].right} :: 0 <= i < |nodes| ==>
            nodes[i].right == (if i == |nodes| - 1 then null else nodes[i + 1]))
      && begin == (if nodes == [] then null else nodes[0])
      && end == (if nodes == [] then null else nodes[|nodes| - 1])
    }

    constructor ()
      ensures Valid() && nodes == [] && contents == []
    {
      begin, end, nodes, contents := null, null, [], [];
    }

    method PushFront(value: T) returns (n: ListNode<T>)
      requires Valid()
      modifies this, nodes
      ensures Valid() && fresh(n) && nodes == [n] + old(nodes)
      ensures contents == [value] + old(contents)
    {
      n := new ListNode<T>(null, value, begin);
      if begin != null {
        begin.left := n;
      }
      begin := n;
      if end == null {
        end := n;
      }
      nodes, contents := [n] + nodes, [value] + contents;
    }

    method PushBack(value: T) returns (n: ListNode<T>)
      requires Valid()
      modifies this, nodes
      ensures Valid() && fresh(n) && nodes == old(nodes) + [n]
      ensures contents == old(contents) + [value]
    {
      n := new ListNode<T>(end, value, null);
      if end != null {
        end.right := n;
      }
      end := n;
      if begin == null {
        begin := n;
      }
      nodes, contents := nodes + [n], contents + [value];
    }

    method PopFront() returns (v: Option<T>)
      requires Valid()
      modifies this, nodes
      ensures Valid()
      ensures if old(nodes) == [] then v == None && nodes == []
              else v == Some(old(contents)[0]) && nodes == old(nodes)[1..] && contents == old(contents)[1..]
                   && old(nodes)[0].freed
    {
      if begin == null { return None; }
      v := Some(begin.value);
      var newBegin := begin.right;
      if newBegin != null {
        newBegin.left := null;
      } else {
        end := null;
      }
      Free(begin);
      begin := newBegin;
      nodes, contents := nodes[1..], contents[1..];
    }

    method PopBack() returns (v: Option<T>)
      requires Valid()
      modifies this, nodes
      ensures Valid()
      ensures
        var n := |old(nodes)| - 1;
        if old(nodes) == [] then v == None && nodes == []
        else v == Some(old(contents)[n]) && nodes == old(nodes)[..n] && contents == old(contents)[..n]
             && old(nodes)[n].freed
    {
      if end == null { return None; }
      v := Some(end.value);
      var newEnd := end.left;
      if newEnd != null {
        newEnd.right := null;
      } else {
        begin := null;
      }
      Free(end);
      end := newEnd;
      nodes, contents := nodes[..|nodes| - 1], contents[..|nodes| - 1];
    }

    /** Unlinks and frees the node at index `k`. */
    method DetachElement(node: ListNode<T>, ghost k: nat)
      requires Valid() && k < |nodes| && nodes[k] == node
      modifies this, nodes
      ensures Valid() && nodes == old(nodes)[..k] + old(nodes)[k + 1..] && node.freed
      ensures contents == old(contents)[..k] + old(contents)[k + 1..]
    {
      hide Apart;
      ApartFrom(nodes, k);
      ApartWithout(nodes, k);
      var leftNeighbour := node.left;
      var rightNeighbour := node.right;
      if leftNeighbour != null {
        leftNeighbour.right := rightNeighbour;
      } else {
        begin := rightNeighbour;
      }
      if rightNeighbour != null {
        rightNeighbour.left := leftNeighbour;
      } else {
        end := leftNeighbour;
      }
      Free(node);
      ghost var before := nodes;
      nodes, contents := nodes[..k] + nodes[k + 1..], contents[..k] + contents[k + 1..];
      assert forall i :: 0 <= i < |nodes| ==> nodes[i] == before[if i < k then i else i + 1];
    }

    /** The nodes of this list with those of `spliced` to the left of index `k`: every node is
        live and linked to its neighbours in the combined sequence. */
    ghost predicate SplicedLinks(spliced: seq<ListNode<T>>, k: nat)
      requires k < |nodes| && spliced != []
      reads this, nodes, spliced
    {
      var m := |spliced|;
      && (forall i {:trigger nodes[i].freed} :: 0 <= i < |nodes| ==> !nodes[i].freed)
      && (forall i {:trigger nodes[i].left} :: 0 <= i < |nodes| ==>
            nodes[i].left == (if i == k then spliced[m - 1] else if i == 0 then null else nodes[i - 1]))
      && (forall i {:trigger nodes[i].right} :: 0 <= i < |nodes| ==>
            nodes[i].right == (if i == k - 1 then spliced[0] else if i == |nodes| - 1 then null else nodes[i + 1]))
      && (forall i {:trigger spliced[i].freed} :: 0 <= i < m ==> !spliced[i].freed)
      && (forall i {:trigger spliced[i].left} :: 0 <= i < m ==>
            spliced[i].left == (if i > 0 then spliced[i - 1] else if k == 0 then null else nodes[k - 1]))
      && (forall i {:trigger spliced[i].right} :: 0 <= i < m ==>
            spliced[i].right == (if i < m - 1 then spliced[i + 1] else nodes[k]))
    }

    /** The pointer updates of a splice. */
    method Relink(node: ListNode<T>, src: List<T>, ghost k: nat)
      requires Valid() && src.Valid() && src != this && src.nodes != []
      requires k < |nodes| && nodes[k] == node
      requires forall i, j :: 0 <= i < |nodes| && 0 <= j < |src.nodes| ==> nodes[i] != src.nodes[j]
      modifies this`begin, nodes`left, nodes`right, src.nodes`left, src.nodes`right
      ensures SplicedLinks(src.nodes, k)
      ensures begin == (if k == 0 then src.nodes[0] else nodes[0])
    {
      hide Apart;
      ApartFrom(nodes, k);
      ApartFrom(src.nodes, 0);
      ApartFrom(src.nodes, |src.nodes| - 1);
      ghost var first, last := src.nodes[0], src.nodes[|src.nodes| - 1];
      if node.left == null {
        begin := src.begin;
        src.end.right := node;
        node.left := src.end;
        assert SplicedLinks(src.nodes, k);
      } else {
        // a node at the right end and one in the middle are treated alike
        ghost var before := nodes[k - 1];
        node.left.right := src.begin;
        src.begin.left := node.left;
        node.left := src.end;
        src.end.right := node;
        assert before.right == first && first.left == before && node.left == last && last.right == node;
        assert SplicedLinks(src.nodes, k);
      }
    }

    /** Splices all of `src` in, to the left of the node at index `k`; `src` becomes empty. */
    method InsertListAt(node: ListNode<T>, src: List<T>, ghost k: nat)
      requires Valid() && src.Valid() && src != this
      requires k < |nodes| && nodes[k] == node
      requires forall i, j :: 0 <= i < |nodes| && 0 <= j < |src.nodes| ==> nodes[i] != src.nodes[j]
      modifies this, src, nodes, src.nodes
      ensures Valid() && src.Valid() && src.nodes == []
      ensures nodes == old(nodes)[..k] + old(src.nodes) + old(nodes)[k..]
      ensures contents == old(contents)[..k] + old(src.contents) + old(contents)[k..]
    {
      hide Apart;
      if src.begin == null || src.end == null {
        assert nodes == nodes[..k] + src.nodes + nodes[k..];
        assert contents == contents[..k] + src.contents + contents[k..];
        return;
      }
      ApartSpliced(nodes, src.nodes, k);
      Relink(node, src, k);
      src.begin := null;
      src.end := null;
      Combine(src.nodes, src.contents, k);
      src.nodes, src.contents := [], [];
      ApartEmpty<T>();
    }

    /** The ghost side of splicing. */
    ghost method Combine(spliced: seq<ListNode<T>>, values: seq<T>, k: nat)
      requires k < |nodes| && spliced != [] && SplicedLinks(spliced, k)
      requires Apart(nodes[..k] + spliced + nodes[k..])
      requires |contents| == |nodes| && |values| == |spliced|
      requires forall i {:trigger nodes[i].value} :: 0 <= i < |nodes| ==> nodes[i].value == contents[i]
      requires forall i {:trigger spliced[i].value} :: 0 <= i < |spliced| ==> spliced[i].value == values[i]
      requires begin == (if k == 0 then spliced[0] else nodes[0]) && end == nodes[|nodes| - 1]
      modifies this`nodes, this`contents
      ensures Valid()
      ensures nodes == old(nodes)[..k] + spliced + old(nodes)[k..]
      ensures contents == old(contents)[..k] + values + old(contents)[k..]
    {
      hide Apart;
      SplicedAt(nodes, spliced, k);
      SplicedAt(contents, values, k);
      nodes, contents := nodes[..k] + spliced + nodes[k..], contents[..k] + values + contents[k..];
    }
  
    /** One value to the left of the node at index `k`. */
    method InsertElementAt(node: ListNode<T>, value: T, ghost k: nat)
      requires Valid() && k < |nodes| && nodes[k] == node
      modifies this, nodes
      ensures Valid()
      ensures contents == old(contents)[..k] + [value] + old(contents)[k..]
    {
      hide Apart;
      var wrapper := new List<T>();
      var n := wrapper.PushBack(value);
      InsertListAt(node, wrapper, k);
      wrapper.Destroy();
    }

    /** Moves everything to the right of the node at index `k` to a new list. */
    method Split(splitter: ListNode<T>, ghost k: nat) returns (r: List<T>)
      requires Valid() && k < |nodes| && nodes[k] == splitter
      modifies this, nodes
      ensures Valid() && fresh(r) && r.Valid()
      ensures nodes == old(nodes)[..k + 1] && r.nodes == old(nodes)[k + 1..]
      ensures contents == old(contents)[..k + 1] && r.contents == old(contents)[k + 1..]
    {
      hide Apart;
      ApartFrom(nodes, k);
      r := new List<T>();
      var realEnd := end;
      end := splitter;
      if splitter.right != null {
        r.begin := splitter.right;
        r.end := realEnd;
        splitter.right := null;
        r.begin.left := null;
      }
      Divide(r, k);
    }

    /** The ghost side of splitting. */
    ghost method Divide(r: List<T>, k: nat)
      requires r != this && k < |nodes| == |contents| && Apart(nodes)
      requires forall i {:trigger nodes[i].value} :: 0 <= i < |nodes| ==> nodes[i].value == contents[i]
      requires forall i {:trigger nodes[i].freed} :: 0 <= i < |nodes| ==> !nodes[i].freed
      requires forall i {:trigger nodes[i].left} :: 0 <= i < |nodes| ==>
                                nodes[i].left == (if i == 0 || i == k + 1 then null else nodes[i - 1])
      requires forall i {:trigger nodes[i].right} :: 0 <= i < |nodes| ==>
                                nodes[i].right == (if i == |nodes| - 1 || i == k then null else nodes[i + 1])
      requires begin == nodes[0] && end == nodes[k]
      requires r.begin == (if k + 1 < |nodes| then nodes[k + 1] else null)
      requires r.end == (if k + 1 < |nodes| then nodes[|nodes| - 1] else null)
      modifies this`nodes, this`contents, r`nodes, r`contents
      ensures Valid() && r.Valid()
      ensures nodes == old(nodes)[..k + 1] && r.nodes == old(nodes)[k + 1..]
      ensures contents == old(contents)[..k + 1] && r.contents == old(contents)[k + 1..]
    {
      hide Apart;
      ApartWithout(nodes, k);
      ghost var before := nodes;
      r.nodes, r.contents := nodes[k + 1..], contents[k + 1..];
      nodes, contents := nodes[..k + 1], contents[..k + 1];
      assert forall i :: 0 <= i < |r.nodes| ==> r.nodes[i] == before[k + 1 + i];
    }

    /** Frees the nodes up to `n`, the last of `chain`, by recursion to the left first. */
    static method DestroyRecLeft(n: ListNode?<T>, ghost chain: seq<ListNode<T>>)
      requires Apart(chain)
      requires forall i {:trigger chain[i].freed} :: 0 <= i < |chain| ==> !chain[i].freed
      requires forall i {:trigger chain[i].left} :: 0 <= i < |chain| ==>
                                                      chain[i].left == (if i == 0 then null else chain[i - 1])
      requires n == (if chain == [] then null else chain[|chain| - 1])
      modifies chain
      ensures forall m :: m in chain ==> m.freed
      decreases |chain|
    {
      if n == null { return; }
      ghost var rest := chain[..|chain| - 1];
      if n.left != null {
        DestroyRecLeft(n.left, rest);
      }
      Free(n);
    }

    /** Empties the list, freeing each of its nodes once. */
    method Clear()
      requires Valid()
      modifies this, nodes
      ensures Valid() && nodes == []
      ensures forall n :: n in old(nodes) ==> n.freed
    {
      if end != null {
        DestroyRecLeft(end, nodes);
      }
      begin := null;
      end := null;
      nodes, contents := [], [];
    }

    /** Empties the list from the left, freeing each of its nodes once. */
    method Destroy()
      requires Valid()
      modifies this, nodes
      ensures Valid() && nodes == []
      ensures forall n :: n in old(nodes) ==> n.freed
    {
      var it := begin;
      ghost var k := 0;
      while it != null
        modifies nodes
        invariant 0 <= k <= |nodes|
        invariant it == (if k == |nodes| then null else nodes[k])
        invariant forall i {:trigger nodes[i].freed} :: 0 <= i < |nodes| ==> nodes[i].freed == (i < k)
        invariant forall i {:trigger nodes[i].right} :: 0 <= i < |nodes| ==>
                                nodes[i].right == (if i == |nodes| - 1 then null else nodes[i + 1])
        decreases |nodes| - k
      {
        var next := it.right;
        Free(it);
        it := next;
        k := k + 1;
      }
      begin := null;
      end := null;
      nodes, contents := [], [];
    }

    method Size() returns (n: nat)
      requires Valid()
      ensures n == |nodes|
    {
      n := 0;
      var it := begin;
      while it != null
        invariant n <= |nodes| && it == (if n == |nodes| then null else nodes[n])
        decreases |nodes| - n
      {
        n := n + 1;
        it := it.right;
      }
    }

    method GetValueAt(position: int) returns (v: Option<T>)
      requires Valid()
      ensures v == if 0 <= position < |contents| then Some(contents[position]) else None
    {
      if position < 0 { return None; }
      var index := 0;
      var it := begin;
      while it != null
        invariant 0 <= index <= |nodes| && index <= position
        invariant it == (if index == |nodes| then null else nodes[index])
        decreases |nodes| - index
      {
        if position == index { return Some(it.value); }
        index := index + 1;
        it := it.right;
      }
      return None;
    }
  
    /** Appends all values of this list to `tgt`. */
    method CopyInto(tgt: List<T>)
      requires Valid() && tgt.Valid() && tgt != this
      requires forall n :: n in tgt.nodes ==> n !in nodes
      modifies tgt, tgt.nodes
      ensures tgt.Valid() && tgt.contents == old(tgt.contents) + contents
      ensures forall j :: 0 <= j < |tgt.nodes| ==> tgt.nodes[j] in old(tgt.nodes) || fresh(tgt.nodes[j])
    {
      hide Apart;
      var it := begin;
      ghost var k := 0;
      while it != null
        invariant unchanged(this) && forall n :: n in nodes ==> unchanged(n)
        invariant forall n :: n in tgt.nodes ==> n !in nodes
        invariant 0 <= k <= |nodes| && it == (if k == |nodes| then null else nodes[k])
        invariant tgt.Valid() && tgt.contents == old(tgt.contents) + contents[..k]
        invariant forall j :: 0 <= j < |tgt.nodes| ==> tgt.nodes[j] in old(tgt.nodes) || fresh(tgt.nodes[j])
        decreases |nodes| - k
      {
        var n := tgt.PushBack(it.value);
        assert contents[..k + 1] == contents[..k] + [contents[k]];
        it := it.right;
        k := k + 1;
      }
    }

    /** A shallow copy on fresh nodes. Short lists are copied node by node, longer ones through
        an array of new nodes that are then linked up. */
    method Copy() returns (r: List<T>)
      requires Valid()
      ensures fresh(r) && r.Valid() && r.contents == contents
      ensures fresh(r.nodes)
    {
      hide Apart;
      var size := Size();
      r := new List<T>();
      if size == 0 {
        assert contents == [];
        return;
      }
      if size < 5 {
        CopyInto(r);
        return;
      }
      var chunk := MakeNodes(size, begin.value);
      FillNodes(chunk);
      LinkNodes(chunk);
      r.begin := chunk[0];
      r.end := chunk[size - 1];
      r.nodes, r.contents := chunk, contents;
    }

    /** The values of this list, into as many detached nodes. */
    method FillNodes(chunk: seq<ListNode<T>>)
      requires Valid() && Apart(chunk) && |chunk| == |nodes|
      requires forall i, j :: 0 <= i < |nodes| && 0 <= j < |chunk| ==> nodes[i] != chunk[j]
      modifies chunk
      ensures forall m :: m in chunk ==> m.left == old(m.left) && m.right == old(m.right) && m.freed == old(m.freed)
      ensures forall j {:trigger chunk[j].value} :: 0 <= j < |chunk| ==> chunk[j].value == contents[j]
    {
      hide Apart;
      var iter := begin;
      for i := 0 to |chunk|
        invariant forall m :: m in chunk ==> m.left == old(m.left) && m.right == old(m.right) && m.freed == old(m.freed)
        invariant Valid() && iter == (if i == |nodes| then null else nodes[i])
        invariant forall j {:trigger chunk[j].value} :: 0 <= j < i ==> chunk[j].value == contents[j]
      {
        ApartFrom(chunk, i);
        chunk[i].value := iter.value;
        iter := iter.right;
      }
    }

    /** Links detached nodes in order. */
    static method LinkNodes(chunk: seq<ListNode<T>>)
      requires Apart(chunk)
      requires forall j :: 0 <= j < |chunk| ==> chunk[j].left == null && chunk[j].right == null
      modifies chunk
      ensures forall m :: m in chunk ==> m.value == old(m.value) && m.freed == old(m.freed)
      ensures forall j {:trigger chunk[j].left} :: 0 <= j < |chunk| ==>
                                chunk[j].left == (if j == 0 then null else chunk[j - 1])
      ensures forall j {:trigger chunk[j].right} :: 0 <= j < |chunk| ==>
                                chunk[j].right == (if j == |chunk| - 1 then null else chunk[j + 1])
    {
      hide Apart;
      for i := 0 to |chunk|
        invariant forall m :: m in chunk ==> m.value == old(m.value) && m.freed == old(m.freed)
        invariant forall j {:trigger chunk[j].left} :: 0 <= j < |chunk| ==>
                                  chunk[j].left == (if 0 < j < i then chunk[j - 1] else null)
        invariant forall j {:trigger chunk[j].right} :: 0 <= j < |chunk| ==>
                                  chunk[j].right == (if j < i && j != |chunk| - 1 then chunk[j + 1] else null)
      {
        ApartFrom(chunk, i);
        if i != 0 {
          chunk[i].left := chunk[i - 1];
        }
        if i != |chunk| - 1 {
          chunk[i].right := chunk[i + 1];
        }
      }
    }

    /** `n` detached nodes; their value is a placeholder until it is overwritten. */
    static method MakeNodes(n: nat, value: T) returns (chunk: seq<ListNode<T>>)
      ensures |chunk| == n && Apart(chunk)
      ensures fresh(chunk)
      ensures forall i :: 0 <= i < n ==> !chunk[i].freed && chunk[i].left == null && chunk[i].right == null
    {
      chunk := [];
      for i := 0 to n
        invariant |chunk| == i && Apart(chunk)
        invariant fresh(chunk)
        invariant forall j :: 0 <= j < i ==> !chunk[j].freed && chunk[j].left == null && chunk[j].right == null
      {
        var m := new ListNode<T>(null, value, null);
        chunk := chunk + [m];
      }
    }
  }
}
