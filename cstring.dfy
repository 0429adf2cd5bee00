/** The freestanding C runtime's raw byte primitives: memcpy, memmove,
    memset and memcmp, each an index loop over uint8_t.

    Pointers become arrays of bytes. memcpy copies between two arrays from
    their first byte (the two may be the same array); memmove works inside
    one array between two offsets, which is where its overlap handling
    matters, and `dest < src` becomes a comparison of the offsets. Each
    function returns its destination pointer; here that is the destination
    array, or for memmove the destination offset. */
module CString {

  import opened Words

  /** memcpy: bytes 0..size of src are copied to dest, front to back. */
  method Memcpy(dest: array<u8>, src: array<u8>, size: u32) returns (r: array<u8>)
    requires size <= dest.Length && size <= src.Length
    modifies dest
    ensures r == dest
    ensures dest[..size] == old(src[..size])
    ensures dest[size..] == old(dest[size..])
  {
    for i := 0 to size
      invariant forall k | 0 <= k < i :: dest[k] == old(src[k])
      invariant forall k | i <= k < dest.Length :: dest[k] == old(dest[k])
      invariant forall k | i <= k < src.Length :: src[k] == old(src[k])
    {
      dest[i] := src[i];
    }
    return dest;
  }

  /** memmove inside one buffer: the size bytes at offset src end up at
      offset dest, even when the two ranges overlap; every byte outside the
      destination range keeps its value. A destination below the source is
      copied front to back, any other back to front. */
  method Memmove(buf: array<u8>, dest: nat, src: nat, size: u32) returns (r: nat)
    requires dest + size <= buf.Length && src + size <= buf.Length
    modifies buf
    ensures r == dest
    ensures buf[dest..dest + size] == old(buf[src..src + size])
    ensures buf[..dest] == old(buf[..dest])
    ensures buf[dest + size..] == old(buf[dest + size..])
  {
    if dest < src {
      // Copy forward: the source bytes still to be read lie above every
      // byte written so far.
      for i := 0 to size
        invariant forall p | dest <= p < dest + i :: buf[p] == old(buf[p - dest + src])
        invariant forall p | 0 <= p < buf.Length && !(dest <= p < dest + i) :: buf[p] == old(buf[p])
      {
        buf[dest + i] := buf[src + i];
      }
    } else {
      // Copy backward: the source bytes still to be read lie below every
      // byte written so far.
      var i := size;
      while i > 0
        invariant 0 <= i <= size
        invariant forall p | dest + i <= p < dest + size :: buf[p] == old(buf[p - dest + src])
        invariant forall p | 0 <= p < buf.Length && !(dest + i <= p < dest + size) :: buf[p] == old(buf[p])
      {
        buf[dest + i - 1] := buf[src + i - 1];
        i := i - 1;
      }
    }
    return dest;
  }

  /** memset: bytes 0..size of dest become `(uint8_t)value`, that is value
      modulo 256; the rest of dest is unchanged. */
  method Memset(dest: array<u8>, value: i32, size: u32) returns (r: array<u8>)
    requires size <= dest.Length
    modifies dest
    ensures r == dest
    ensures forall k | 0 <= k < size :: dest[k] == value % 0x100
    ensures dest[size..] == old(dest[size..])
  {
    for i := 0 to size
      invariant forall k | 0 <= k < i :: dest[k] == value % 0x100
      invariant forall k | i <= k < dest.Length :: dest[k] == old(dest[k])
    {
      dest[i] := value % 0x100;
    }
    return dest;
  }

  /** The result memcmp is meant to give on two equally long byte strings:
      zero when they are equal, otherwise the difference of the bytes at the
      first position where they differ. */
  function Compare(a: seq<u8>, b: seq<u8>): (r: int)
    requires |a| == |b|
    ensures -255 <= r <= 255
  {
    if |a| == 0 then 0
    else if a[0] != b[0] then a[0] as int - b[0] as int
    else Compare(a[1..], b[1..])
  }

  /** Compare is zero exactly on equal strings. */
  lemma {:induction false} CompareZeroIff(a: seq<u8>, b: seq<u8>)
    requires |a| == |b|
    ensures Compare(a, b) == 0 <==> a == b
  {
    if |a| > 0 && a[0] == b[0] {
      CompareZeroIff(a[1..], b[1..]);
      assert a == [a[0]] + a[1..] && b == [b[0]] + b[1..];
    }
  }

  /** Where the strings first differ at position j, Compare is the
      difference of the two bytes there, so its sign gives their order. */
  lemma {:induction false} CompareFirstDifference(a: seq<u8>, b: seq<u8>, j: int)
    requires |a| == |b| && 0 <= j < |a|
    requires a[..j] == b[..j] && a[j] != b[j]
    ensures Compare(a, b) == a[j] as int - b[j] as int
  {
    if j > 0 {
      assert a[0] == a[..j][0] && b[0] == b[..j][0];
      assert a[1..][..j - 1] == a[1..j] == b[1..j] == b[1..][..j - 1];
      CompareFirstDifference(a[1..], b[1..], j - 1);
    }
  }

  /** Swapping the operands negates the result. */
  lemma {:induction false} CompareAntisymmetric(a: seq<u8>, b: seq<u8>)
    requires |a| == |b|
    ensures Compare(b, a) == -Compare(a, b)
  {
    if |a| > 0 && a[0] == b[0] {
      CompareAntisymmetric(a[1..], b[1..]);
    }
  }

  /** memcmp: scans the first size bytes and returns at the first
      difference `a[i] - b[i]`, or 0 when there is none. */
  method Memcmp(a: array<u8>, b: array<u8>, size: u32) returns (r: int)
    requires size <= a.Length && size <= b.Length
    ensures r == Compare(a[..size], b[..size])
    ensures r == 0 <==> a[..size] == b[..size]
    ensures r != 0 ==> exists j | 0 <= j < size ::
      a[..j] == b[..j] && a[j] != b[j] && r == a[j] as int - b[j] as int
  {
    for i := 0 to size
      invariant a[..i] == b[..i]
    {
      if a[i] != b[i] {
        assert a[..size][..i] == a[..i] && b[..size][..i] == b[..i];
        CompareFirstDifference(a[..size], b[..size], i);
        CompareZeroIff(a[..size], b[..size]);
        return a[i] as int - b[i] as int;
      }
      assert a[..i + 1] == a[..i] + [a[i]] && b[..i + 1] == b[..i] + [b[i]];
    }
    CompareZeroIff(a[..size], b[..size]);
    return 0;
  }
}
