/** The freestanding C++ runtime's fixed-capacity array, atom::Array<T, S>:
    S elements stored contiguously, S fixed and positive, no growth. The
    template size S becomes a constant field set by the constructor, and
    the storage a Dafny array of exactly S elements. */
module Atom {

  /** atom::Array<T, S>. */
  class Array<T> {
    /** The template size S. */
    const S: nat
    /** The storage (data[S]). */
    const data: array<T>

    ghost predicate Valid()
      reads this
    {
      data.Length == S && S > 0
    }

    /** The elements in index order. */
    ghost function Elements(): seq<T>
      reads this, data
    {
      data[..]
    }

    /** The variadic constructor: it takes exactly S arguments and element
        i is the i-th argument. */
    constructor(s: nat, args: seq<T>)
      requires s > 0 && |args| == s
      ensures Valid() && S == s && fresh(data)
      ensures Elements() == args
    {
      S := s;
      data := new T[s](i requires 0 <= i < s => args[i]);
    }

    /** size(): always S, which is positive. */
    function Size(): (n: nat)
      reads this, data
      requires Valid()
      ensures n == |Elements()| && n > 0
    {
      S
    }

    /** operator[] (const): element `index`; unchecked, so the index must
        be below S. */
    method Get(index: nat) returns (x: T)
      requires Valid() && index < S
      ensures x == Elements()[index]
    {
      x := data[index];
    }

    /** Writing through operator[]: element `index` becomes x and no other
        element changes. */
    method Set(index: nat, x: T)
      requires Valid() && index < S
      modifies data
      ensures Elements() == old(Elements())[index := x]
    {
      data[index] := x;
    }

    /** front(): element 0. */
    function Front(): (x: T)
      reads this, data
      requires Valid()
      ensures x == Elements()[0]
    {
      data[0]
    }

    /** back(): element S - 1. */
    function Back(): (x: T)
      reads this, data
      requires Valid()
      ensures x == Elements()[|Elements()| - 1]
    {
      data[S - 1]
    }

    /** begin(): the position of element 0. */
    function Begin(): nat {
      0
    }

    /** end(): the position just past the last element. */
    function End(): nat
      reads this
      requires Valid()
    {
      S
    }

    /** fill(value): every element becomes value. */
    method Fill(value: T)
      requires Valid()
      modifies data
      ensures Elements() == seq(S, _ => value)
    {
      for i := 0 to S
        invariant forall k | 0 <= k < i :: data[k] == value
      {
        data[i] := value;
      }
    }

    /** Walking an iterator from begin() to end() visits exactly S elements,
        in index order: the same sequence as indexing 0..size(). */
    method Iterate() returns (visited: seq<T>)
      requires Valid()
      ensures |visited| == End() - Begin()
      ensures forall i | 0 <= i < |visited| :: visited[i] == Elements()[Begin() + i]
      ensures visited == Elements() && |visited| == Size()
    {
      visited := [];
      var it := Begin();
      while it != End()
        invariant 0 <= it <= S
        invariant visited == data[..it]
      {
        visited := visited + [data[it]];
        it := it + 1;
      }
    }
  }

  /** The array test: an Array<int, 10> built from the arguments 0..9 reads
      back the same ten values through a range-for over begin()..end(), an
      index loop over size(), and an explicit iterator loop. */
  method ArrayTest() returns (byRange: seq<int>, byIndex: seq<int>, byIterator: seq<int>)
    ensures byRange == byIndex == byIterator
    ensures forall i | 0 <= i < |byIndex| :: byIndex[i] == i
    ensures |byIndex| == 10
  {
    // The arguments 0, 1, ..., 9.
    var arr := new Array<int>(10, seq(10, i => i));
    byRange := arr.Iterate();
    byIndex := [];
    for i := 0 to arr.Size()
      invariant byIndex == arr.Elements()[..i]
      invariant byRange == arr.Elements()
    {
      var x := arr.Get(i);
      byIndex := byIndex + [x];
    }
    assert byIndex == arr.Elements();
    byIterator := arr.Iterate();
  }
}
