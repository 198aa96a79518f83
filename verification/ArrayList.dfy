/** The growable array of pointers. A slot holds None for NULL. */
module ArrayLists {
  import opened Prelude

  const FACTOR: nat := 2
  const GET_MARGIN: nat := 17

  function Nulls<T>(n: nat): (s: seq<Option<T>>)
    ensures |s| == n && forall i :: 0 <= i < n ==> s[i] == None
  {
    seq(n, _ => None)
  }

  /** The contents after an access at `position`: an access outside them appends nulls. */
  function Touched<T>(s: seq<Option<T>>, position: int): (r: seq<Option<T>>)
    ensures s <= r && forall i :: |s| <= i < |r| ==> r[i] == None
    ensures 0 <= position ==> position < |r|
  {
    if 0 <= position < |s| || position + GET_MARGIN <= |s| then s
    else s + Nulls(position + GET_MARGIN - |s|)
  }

  function At<T>(s: seq<Option<T>>, position: int): Option<T> {
    if 0 <= position < |s| then s[position] else None
  }

  /** The contents after writing at `position`. */
  function Written<T>(s: seq<Option<T>>, position: int, v: Option<T>): seq<Option<T>> {
    var r := Touched(s, position);
    if 0 <= position < |r| then r[position := v] else r
  }

  class ArrayList<T> {
    var data: array<Option<T>>   // its length is the allocated size
    var size: nat
    ghost var copied: nat        // slots copied by reallocations so far

    ghost predicate Valid()
      reads this
    {
      size <= data.Length
    }

    ghost function Contents(): (s: seq<Option<T>>)
      requires Valid()
      reads this, data
      ensures |s| == size
    {
      data[..size]
    }

    constructor ()
      ensures Valid() && Contents() == [] && fresh(data) && data.Length == 0 && copied == 0
    {
      data := new Option<T>[0];
      size := 0;
      copied := 0;
    }

    /** realloc: the old slots are copied, new ones hold anything. */
    method ResizeCapacity(minSize: int)
      requires Valid()
      modifies this`data, this`copied
      ensures Valid() && Contents() == old(Contents())
      ensures
        if old(data.Length) > minSize || minSize <= 0 then data == old(data) && copied == old(copied)
        else fresh(data) && data.Length == minSize + 1 && copied == old(copied) + old(data.Length)
    {
      if data.Length > minSize { return; }
      if minSize <= 0 { return; }
      var larger := new Option<T>[minSize + 1];
      for i := 0 to data.Length
        modifies larger, this`copied
        invariant forall j :: 0 <= j < i ==> larger[j] == data[j]
        invariant copied == old(copied) + i
      {
        larger[i] := data[i];
        copied := copied + 1;
      }
      data := larger;
      assert data[..size] == old(data[..size]);
    }

    /** Capacity strictly above the requested size, doubling if that is not enough less. */
    method Resize(minSize: int)
      requires Valid()
      modifies this`data, this`copied
      ensures Valid() && Contents() == old(Contents())
      ensures data.Length > minSize && (data == old(data) || fresh(data))
      ensures data == old(data) ==> copied == old(copied)
      ensures old(data.Length) > minSize ==> data == old(data)
      ensures old(data.Length) <= minSize && minSize <= FACTOR * old(data.Length) && minSize > 0 ==>
                data.Length == FACTOR * old(data.Length) + 1 && copied == old(copied) + old(data.Length)
      ensures old(data.Length) == 0 && minSize > 0 ==> data.Length == minSize + 1 && copied == old(copied)
    {
      if data.Length > minSize { return; }
      if minSize <= 0 {
        ResizeCapacity(2);
      } else {
        ResizeCapacity(data.Length * FACTOR);
        ResizeCapacity(minSize);
      }
    }

    /** At least `minSize` elements, the new ones null. */
    method ResizeFill(minSize: int)
      requires Valid()
      modifies this, data
      ensures Valid() && (data == old(data) || fresh(data))
      ensures Contents() == if minSize <= old(size) then old(Contents())
                            else old(Contents()) + Nulls(minSize - old(size))
    {
      if size >= minSize { return; }
      var oldSize := size;
      ghost var before := Contents();
      Resize(minSize + 30);
      for i := oldSize to minSize
        invariant data == old(data) || fresh(data)
        invariant size == oldSize && minSize <= data.Length
        invariant data[..i] == before + Nulls(i - oldSize)
      {
        data[i] := None;
        assert data[..i + 1] == data[..i] + [None];
      }
      size := minSize;
    }

    method GetValueAt(position: int) returns (v: Option<T>)
      requires Valid()
      modifies this, data
      ensures Valid() && (data == old(data) || fresh(data))
      ensures 0 <= position < old(size) ==> data == old(data)
      ensures Contents() == Touched(old(Contents()), position)
      ensures v == At(old(Contents()), position)
    {
      if !(0 <= position < size) {
        ResizeFill(position + GET_MARGIN);
      }
      if 0 <= position < size {
        v := data[position];
      } else {
        v := None;
      }
    }

    method SetValueAt(position: int, value: Option<T>) returns (previous: Option<T>)
      requires Valid()
      modifies this, data
      ensures Valid() && (data == old(data) || fresh(data))
      ensures 0 <= position < old(size) ==> data == old(data)
      ensures Contents() == Written(old(Contents()), position, value)
      ensures previous == At(old(Contents()), position)
    {
      if !(0 <= position < size) {
        ResizeFill(position + GET_MARGIN);
      }
      if 0 <= position < size {
        previous := data[position];
        data[position] := value;
      } else {
        previous := None;
      }
    }

    method PushBack(value: Option<T>)
      requires Valid()
      modifies this, data
      ensures Valid() && (data == old(data) || fresh(data))
      ensures Contents() == old(Contents()) + [value]
      ensures old(PushBudget()) ==> PushBudget()
    {
      Resize(size + 1);
      data[size] := value;
      size := size + 1;
    }

    /** What holds of a list that was only pushed to: growth is geometric, and all copying so
        far is paid for by the present capacity. */
    ghost predicate PushBudget()
      reads this
    {
      if data.Length == 0 then size == 0 && copied == 0
      else data.Length <= 2 * size + 1 && copied + 2 <= data.Length && 1 <= size
    }

    method PopBack() returns (v: Option<T>)
      requires Valid()
      modifies this`size, data
      ensures Valid()
      ensures if old(size) == 0 then v == None && Contents() == []
              else Contents() + [v] == old(Contents())
    {
      if size == 0 { return None; }
      v := data[size - 1];
      data[size - 1] := None;
      size := size - 1;
    }

    method Copy() returns (l: ArrayList<T>)
      requires Valid()
      ensures fresh(l) && fresh(l.data) && l.Valid() && l.Contents() == Contents()
    {
      l := new ArrayList<T>();
      l.Resize(size);
      for i := 0 to size
        modifies l.data
        invariant forall j :: 0 <= j < i ==> l.data[j] == data[j]
      {
        l.data[i] := data[i];
      }
      l.size := size;
    }
  }

  /** Pushing any number of elements onto a new list copies at most two slots each, plus one. */
  method PushAll<T>(values: seq<Option<T>>) returns (l: ArrayList<T>)
    ensures fresh(l) && l.Valid() && l.Contents() == values
    ensures l.copied <= 2 * |values| + 1
  {
    l := new ArrayList<T>();
    for i := 0 to |values|
      invariant fresh(l) && fresh(l.data) && l.Valid()
      invariant l.Contents() == values[..i]
      invariant l.PushBudget()
    {
      l.PushBack(values[i]);
      assert values[..i + 1] == values[..i] + [values[i]];
    }
    assert values[..|values|] == values;
  }
}
