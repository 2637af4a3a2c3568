/** `asCArray`: a growable array that keeps small contents in a buffer of its own. */
module DynamicArray {
  /** How far an array that only grew by PushLast has grown, and what that copied. */
  predicate Grown(length: nat, maxLength: nat, copied: nat) {
    (length == 0 && maxLength == 0 && copied == 0) || copied < maxLength < 2 * length
  }

  // The sequence without the element at `index`, whose place the last one takes.
  function WithLastAt<T>(s: seq<T>, index: nat): seq<T>
    requires index < |s|
  {
    if index == |s| - 1 then s[..index] else s[..|s| - 1][index := s[|s| - 1]]
  }

  lemma OneElementLess<T>(s: seq<T>, index: nat)
    requires index < |s|
    ensures multiset(WithLastAt(s, index)) == multiset(s) - multiset{s[index]}
  {
    var rest, last := s[..|s| - 1], s[|s| - 1];
    assert s == rest + [last];
    if index < |rest| {
      assert rest == rest[..index] + [s[index]] + rest[index + 1..];
      assert rest[index := last] == rest[..index] + [last] + rest[index + 1..];
    }
  }

  lemma MovedForward<T>(s: seq<T>, was: seq<T>, index: nat)
    requires index < |was| == |s| + 1
    requires forall k :: 0 <= k < |s| ==> s[k] == was[if index <= k then k + 1 else k]
    ensures s == was[..index] + was[index + 1..]
  {
  }

  lemma Joined<T>(all: seq<T>, was: seq<T>, more: seq<T>)
    requires |was| + |more| <= |all| && forall k :: 0 <= k < |was| ==> all[k] == was[k]
    requires forall k :: 0 <= k < |more| ==> all[|was| + k] == more[k]
    ensures all[..|was| + |more|] == was + more
  {
  }

  class DynArray<T> {
    const zero: T            // what a default constructed element holds
    const buf: array<T>      // room for sizeof(buf) / sizeof(T) elements
    var data: array?<T>
    var length: nat
    var maxLength: nat
    ghost var copied: nat    // elements copied when the storage moved

    /** The storage is the internal buffer exactly while it is large enough. */
    ghost predicate Valid()
      reads this
    {
      && length <= maxLength
      && (data == null <==> maxLength == 0)
      && (data != null ==> maxLength <= data.Length && (data == buf <==> maxLength <= buf.Length))
    }

    ghost function Contents(): seq<T>
      requires Valid()
      reads this, data
    {
      if data == null then [] else data[..length]
    }

    constructor (zero: T, room: nat)
      ensures Valid() && Contents() == [] && maxLength == 0 && Grown(length, maxLength, copied)
      ensures fresh(buf) && buf.Length == room && this.zero == zero
    {
      this.zero := zero;
      buf := new T[room](_ => zero);
      data, length, maxLength, copied := null, 0, 0, 0;
    }

    /** Change the capacity; with `keepData` the contents stay, as far as they fit. */
    method Allocate(numElements: nat, keepData: bool)
      requires Valid()
      modifies this, buf
      ensures Valid() && maxLength == numElements && (data == null || data == buf || fresh(data))
      ensures Contents() ==
        if !keepData then []
        else if old(length) > numElements then old(Contents())[..numElements]
        else old(Contents())
      ensures copied == old(copied) + (if keepData && old(data) != null && data != old(data) then length else 0)
    {
      ghost var was := Contents();
      var tmp: array?<T> := null;
      if numElements > 0 {
        if numElements <= buf.Length {
          // Use the internal buffer
          tmp := buf;
          Construct(tmp, if data == tmp then length else 0, numElements);
        } else {
          tmp := new T[numElements](_ => zero);
        }
      }
      if data != null {
        if keepData {
          if length > numElements {
            length := numElements;
          }
          if data != tmp {
            CopyTo(tmp, numElements);
          }
        } else {
          length := 0;
        }
      }
      data, maxLength := tmp, numElements;
    }

    // Construct the elements from `from` on.
    method Construct(tmp: array<T>, from: nat, n: nat)
      requires n <= tmp.Length
      modifies tmp
      ensures forall k :: 0 <= k < tmp.Length && !(from <= k < n) ==> tmp[k] == old(tmp[k])
    {
      var k := from;
      while k < n
        invariant forall j :: 0 <= j < tmp.Length && !(from <= j < n) ==> tmp[j] == old(tmp[j])
      {
        tmp[k] := zero;
        k := k + 1;
      }
    }

    // Copy the contents to the new storage.
    method CopyTo(tmp: array?<T>, ghost n: nat)
      requires data != null && tmp != data && length <= data.Length
      requires if tmp == null then length == 0 else length <= tmp.Length
      modifies tmp, this`copied
      ensures tmp != null ==> tmp[..length] == data[..length]
      ensures copied == old(copied) + length
    {
      var k := 0;
      while k < length
        invariant k <= length && copied == old(copied) + k
        invariant tmp != null ==> tmp[..k] == data[..k]
      {
        tmp[k] := data[k];
        copied := copied + 1;
        k := k + 1;
      }
    }

    /** Append an element. Pushing n elements onto an empty array copies fewer than 2n. */
    method PushLast(element: T)
      requires Valid()
      modifies this, buf, data
      ensures Valid() && Contents() == old(Contents()) + [element]
      ensures data == old(data) || data == buf || fresh(data)
      ensures old(Grown(length, maxLength, copied)) ==> Grown(length, maxLength, copied) && copied < 2 * length
    {
      if length == maxLength {
        if maxLength == 0 {
          Allocate(1, false);
        } else {
          Allocate(2 * maxLength, true);
        }
      }
      data[length] := element;
      length := length + 1;
    }

    /** Change the number of elements; those that are in both stay. */
    method SetLength(numElements: nat)
      requires Valid()
      modifies this, buf
      ensures Valid() && length == numElements
      ensures if numElements <= old(length) then Contents() == old(Contents())[..numElements]
              else Contents()[..old(length)] == old(Contents())
    {
      if numElements > maxLength {
        Allocate(numElements, true);
      }
      length := numElements;
    }

    method PopLast() returns (element: T)
      requires Valid() && length > 0
      modifies this`length
      ensures Valid() && old(Contents()) == Contents() + [element]
    {
      length := length - 1;
      return data[length];
    }

    /** Append the contents of an array, which may be this one. */
    method Concatenate(other: DynArray<T>)
      requires Valid() && other.Valid()
      requires other != this ==>
        other.buf != buf && other.data != buf && (data == null || (other.data != data && other.buf != data))
      modifies this, buf, data
      ensures Valid() && Contents() == old(Contents()) + old(other.Contents())
      ensures other != this ==> other.Valid() && other.Contents() == old(other.Contents())
    {
      ghost var was, more := Contents(), other.Contents();
      if maxLength < length + other.length {
        Allocate(length + other.length, true);
      }
      assert Contents() == was && other.Contents() == more;
      CopyBehind(other.data, other.length);
      length := length + other.length;
    }

    // Copy elements behind the contents.
    method CopyBehind(from: array?<T>, count: nat)
      requires count > 0 ==> data != null && from != null && length + count <= data.Length && count <= from.Length
      requires from == data ==> count <= length
      modifies data
      ensures data != null ==>
        forall k :: 0 <= k < data.Length && !(length <= k < length + count) ==> data[k] == old(data[k])
      ensures count > 0 ==> data[..length + count] == old(data[..length]) + old(from[..count])
    {
      if count == 0 {
        return;
      }
      ghost var was, more := data[..length], from[..count];
      var n := 0;
      while n < count
        invariant n <= count && (data != null ==>
          forall k :: 0 <= k < data.Length && !(length <= k < length + n) ==> data[k] == old(data[k]))
        invariant n > 0 ==> forall k :: 0 <= k < n ==> data[length + k] == old(from[k])
      {
        data[length + n] := from[n];
        n := n + 1;
      }
      assert data[..][..length + count] == data[..length + count];
      Joined(data[..], was, more);
    }

    /** Remove an element and move those behind it forward. */
    method RemoveIndex(index: nat)
      requires Valid()
      modifies this`length, data
      ensures Valid() && Contents() ==
        if index < old(length) then old(Contents())[..index] + old(Contents())[index + 1..] else old(Contents())
    {
      if index < length {
        ghost var was := Contents();
        var n := index;
        while n < length - 1
          invariant index <= n < length == |was| && data != null && length <= data.Length && Valid()
          invariant forall k :: 0 <= k < length ==> data[k] == was[if index <= k < n then k + 1 else k]
        {
          data[n] := data[n + 1];
          n := n + 1;
        }
        var _ := PopLast();
        MovedForward(Contents(), was, index);
      }
    }

    /** Remove an element; the last one takes its place. */
    method RemoveIndexUnordered(index: nat)
      requires Valid()
      modifies this`length, data
      ensures Valid()
      ensures index < old(length) ==>
        multiset(Contents()) == multiset(old(Contents())) - multiset{old(Contents())[index]}
      ensures index >= old(length) ==> Contents() == old(Contents())
      ensures forall k :: 0 <= k < length && k < old(length) && k != index ==> Contents()[k] == old(Contents())[k]
    {
      ghost var was := Contents();
      if index == length - 1 {
        var _ := PopLast();
        assert Contents() == WithLastAt(was, index);
        OneElementLess(was, index);
      } else if index < length {
        var last := PopLast();
        data[index] := last;
        assert Contents() == WithLastAt(was, index);
        OneElementLess(was, index);
      }
    }

    /** Exchange the contents of two arrays; each keeps its own buffer. */
    method SwapWith(other: DynArray<T>)
      requires Valid() && other.Valid() && buf.Length == other.buf.Length
      requires other != this ==> other.buf != buf && other.data != buf && data != other.buf
      modifies this, other, buf, other.buf
      ensures Valid() && other.Valid()
      ensures Contents() == old(other.Contents()) && other.Contents() == old(Contents())
      ensures maxLength == old(other.maxLength) && other.maxLength == old(maxLength)
    {
      var tmpData, tmpLength, tmpMaxLength, tmpBuf := data, length, maxLength, buf[..];
      data, length, maxLength := other.data, other.length, other.maxLength;
      CopyBuffer(buf, other.buf[..]);
      other.data, other.length, other.maxLength := tmpData, tmpLength, tmpMaxLength;
      CopyBuffer(other.buf, tmpBuf);
      // If the data is in the internal buffer, then the pointer must refer to it
      if data == other.buf {
        data := buf;
      }
      if other.data == buf {
        other.data := other.buf;
      }
    }

    static method CopyBuffer(to: array<T>, from: seq<T>)
      requires to.Length == |from|
      modifies to
      ensures to[..] == from
    {
      var k := 0;
      while k < |from|
        invariant k <= |from| && to[..k] == from[..k]
      {
        to[k] := from[k];
        k := k + 1;
      }
    }
  }
}
