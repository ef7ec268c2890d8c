/** The growing pointer vector. */
module Vectors {
  import opened Sequences

  class Vector<T(0, ==)> {
    var data: array<T>
    var length: nat

    ghost predicate Valid()
      reads this
    {
      length <= data.Length
    }

    ghost function Contents(): (s: seq<T>)
      requires Valid()
      reads this, data
    {
      data[..length]
    }

    constructor (capacity: nat)
      ensures Valid() && Contents() == [] && data.Length == capacity && fresh(data)
    {
      data := new T[capacity];
      length := 0;
    }

    /** Room for one more: the capacity doubles, or becomes 2 when it was 0. */
    method EnlargeIfFull()
      requires Valid()
      modifies this`data
      ensures Valid() && Contents() == old(Contents()) && length < data.Length
      ensures data == old(data) || fresh(data)
      ensures data.Length == if length < old(data.Length) then old(data.Length)
                             else if old(data.Length) == 0 then 2 else 2 * old(data.Length)
    {
      if length >= data.Length {
        var bigger := new T[if data.Length == 0 then 2 else 2 * data.Length];
        forall i | 0 <= i < data.Length {
          bigger[i] := data[i];
        }
        data := bigger;
      }
    }

    method Add(x: T)
      requires Valid()
      modifies this, data
      ensures Valid() && Contents() == old(Contents()) + [x]
      ensures data == old(data) || fresh(data)
    {
      EnlargeIfFull();
      data[length] := x;
      length := length + 1;
    }

    /** The last element, taken off; nothing from an empty vector. */
    method Pop() returns (found: bool, x: T)
      requires Valid()
      modifies this`length
      ensures Valid() && found == (old(Contents()) != [])
      ensures if found then old(Contents()) == Contents() + [x] else Contents() == []
    {
      found := length > 0;
      if found {
        length := length - 1;
        x := data[length];
      } else {
        x := *;
      }
    }

    method FindIndex(x: T) returns (i: int)
      requires Valid()
      ensures i == IndexOf(Contents(), x)
    {
      i := 0;
      while i < length
        invariant 0 <= i <= length && x !in data[..i]
      {
        if data[i] == x {
          FirstIndex(Contents(), x, i);
          return;
        }
        i := i + 1;
      }
      i := -1;
    }

    /** Elements from `index` on move up by one. */
    method InsertElement(x: T, index: nat)
      requires Valid() && index <= length
      modifies this, data
      ensures Valid() && Contents() == InsertAt(old(Contents()), index, x)
      ensures data == old(data) || fresh(data)
    {
      EnlargeIfFull();
      ghost var s := Contents();
      var i := length;
      length := length + 1;
      while i > index
        invariant index <= i < length && length == |s| + 1 && length <= data.Length
        invariant data == old(data) || fresh(data)
        invariant forall j :: 0 <= j < i ==> data[j] == s[j]
        invariant forall j :: i < j < length ==> data[j] == s[j - 1]
      {
        data[i] := data[i - 1];
        i := i - 1;
      }
      data[index] := x;
    }

    /** Elements behind `index` move down by one. */
    method RemoveElementAt(index: nat) returns (x: T)
      requires Valid() && index < length
      modifies this`length, data
      ensures Valid() && data == old(data)
      ensures x == old(Contents())[index] && Contents() == RemoveAt(old(Contents()), index)
    {
      ghost var s := Contents();
      x := data[index];
      var i := index;
      while i + 1 < length
        invariant index <= i < length && length == |s|
        invariant forall j :: 0 <= j < index ==> data[j] == s[j]
        invariant forall j :: index <= j < i ==> data[j] == s[j + 1]
        invariant forall j :: i < j < length ==> data[j] == s[j]
      {
        assert data[i + 1] == s[i + 1];
        data[i] := data[i + 1];
        i := i + 1;
      }
      length := length - 1;
      assert forall j :: 0 <= j < length ==> data[j] == RemoveAt(s, index)[j];
    }

    method RemoveElement(x: T)
      requires Valid()
      modifies this`length, data
      ensures Valid() && data == old(data) && Contents() == RemoveFirst(old(Contents()), x)
    {
      var index := FindIndex(x);
      if index != -1 {
        var _ := RemoveElementAt(index);
      }
    }
  }
}
