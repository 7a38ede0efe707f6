/**
  The fixed-capacity byte buffer and the read-only view into it.

  A FixedBuffer owns N bytes (N > 0, fixed when it is made) and a used length
  that the socket layer and the codec set. Nothing bounds the used length by
  N: `MarkLength` stores any size_t.
 */
module Buffers {
  import opened Types

  /** size_t arithmetic is modulo 2^64. */
  const SizeModulus: nat := 0x1_0000_0000_0000_0000

  type Size = n: nat | n < SizeModulus

  /** `a - b` on size_t: wraps around below zero. */
  function SizeSub(a: Size, b: Size): (r: Size)
    ensures a >= b ==> r == a - b
    ensures a < b ==> r + b == SizeModulus + a
  {
    if a >= b then a - b else SizeModulus + a - b
  }

  /** The value of a buffer at one moment: all N bytes and the used length. */
  datatype BufferState = BufferState(octets: seq<u8>, length: Size)

  /** N zero bytes. */
  function Zeroes(n: nat): (z: seq<u8>)
    ensures |z| == n
    ensures forall i :: 0 <= i < n ==> z[i] == 0
  {
    seq(n, _ => 0)
  }

  // ------------------------------------------------------------ BufferView

  /**
    A pointer and a length. The only null views the program builds are the
    `{nullptr, 0}` that `MakeView` returns, so a null view has length 0.
   */
  datatype BufferView = NullView | View(octets: seq<u8>) {
    function Length(): nat {
      if NullView? then 0 else |octets|
    }

    /** `explicit operator bool`: non-null and non-empty. */
    predicate Truthy()
      ensures Truthy() ==> Length() > 0
      ensures NullView? ==> !Truthy()
    {
      View? && |octets| > 0
    }
  }

  /**
    `BufferView::operator==`: unequal lengths compare unequal; a null left
    operand compares unequal (the null test checks the left pointer twice and
    never the right one); otherwise the contents are compared.
   */
  function ViewEquals(a: BufferView, b: BufferView): (r: bool)
    ensures r ==> a.Length() == b.Length()
    ensures a.NullView? ==> !r
    ensures a.View? && b.View? ==> (r <==> a.octets == b.octets)
  {
    if a.Length() != b.Length() then false
    else if a.NullView? then false
    else a.octets == (if b.NullView? then [] else b.octets)
  }

  /** Because only the left pointer is tested, equality is not symmetric. */
  lemma ViewEqualsNotSymmetric()
    ensures ViewEquals(View([]), NullView)
    ensures !ViewEquals(NullView, View([]))
  {
  }

  // ------------------------------------------------------------ FixedBuffer

  class FixedBuffer {
    /** The N-byte std::array; the array object never changes, only its bytes. */
    const data: array<u8>
    /** The used length. */
    var length: Size

    ghost predicate Valid()
      reads this
    {
      0 < data.Length < SizeModulus
    }

    /** The whole value of the buffer. */
    function State(): (s: BufferState)
      reads this, data
      ensures |s.octets| == data.Length
    {
      BufferState(data[..], length)
    }

    /** A new buffer: used length 0 and every byte zero. */
    constructor (n: Size)
      requires n > 0
      ensures Valid() && fresh(data) && data.Length == n
      ensures State() == BufferState(Zeroes(n), 0)
    {
      data := new u8[n](_ => 0);
      length := 0;
      new;
      assert data[..] == Zeroes(n);
    }

    function GetLength(): Size
      reads this
    {
      length
    }

    /** The capacity N, which no operation changes. */
    function GetSize(): (n: nat)
      reads this
      ensures n == data.Length
    {
      data.Length
    }

    predicate IsEmpty()
      reads this
    {
      length == 0
    }

    predicate IsFull()
      reads this
    {
      length >= data.Length
    }

    /** Sets the used length to any value, with no bound against N; the bytes are untouched. */
    method MarkLength(n: Size)
      modifies this
      ensures length == n
      ensures State() == BufferState(old(State()).octets, n)
    {
      length := n;
    }

    /**
      `accessOctet`: `std::array::at` returns the byte for an index below N
      and throws `std::out_of_range` for any other index.
     */
    function AccessOctet(index: nat): (r: Lookup)
      reads this, data
      ensures r.Found? <==> index < data.Length
      ensures r.Found? ==> r.octet == data[index]
    {
      if index < data.Length then Found(data[index]) else OutOfRange
    }

    /** On a full buffer it fails and changes nothing; otherwise the byte goes at the old length. */
    method AppendOctet(octet: u8) returns (ok: bool)
      requires Valid()
      modifies this, data
      ensures ok <==> !old(IsFull())
      ensures ok ==> State() == BufferState(old(data[..])[old(length) := octet], old(length) + 1)
      ensures !ok ==> State() == old(State())
    {
      if IsFull() {
        return false;
      }
      data[length] := octet;
      length := length + 1;
      return true;
    }

    /** Zeroes all N bytes and the used length. */
    method Reset()
      modifies this, data
      ensures State() == BufferState(Zeroes(data.Length), 0)
    {
      forall i | 0 <= i < data.Length {
        data[i] := 0;
      }
      length := 0;
    }
  }

  /**
    The observers agree with one another: full means the used length has
    reached the capacity, and since the capacity is positive an empty buffer
    is never full.
   */
  lemma ObserversAgree(b: FixedBuffer)
    requires b.Valid()
    ensures b.IsFull() <==> b.GetLength() >= b.GetSize()
    ensures b.IsEmpty() <==> b.GetLength() == 0
    ensures b.IsEmpty() ==> !b.IsFull()
  {
  }

  /** The outcome of `std::array::at`. */
  datatype Lookup = Found(octet: u8) | OutOfRange

  /**
    `makeView`: the null view when `begin + length` reaches the capacity,
    otherwise a view of exactly `length` bytes from `begin`.
   */
  function MakeView(buffer: FixedBuffer, begin: nat, length: nat): (v: BufferView)
    reads buffer, buffer.data
    ensures v.NullView? <==> begin + length >= buffer.data.Length
    ensures v.View? ==> |v.octets| == length
    ensures v.View? ==> forall k :: 0 <= k < length ==> v.octets[k] == buffer.data[begin + k]
  {
    if begin + length >= buffer.data.Length then NullView
    else View(buffer.data[begin..begin + length])
  }

  /** A view is usable exactly when it lies strictly inside the buffer and is non-empty. */
  lemma MakeViewTruthy(buffer: FixedBuffer, begin: nat, length: nat)
    ensures MakeView(buffer, begin, length).Truthy() <==> 0 < length && begin + length < buffer.data.Length
  {
  }
}
