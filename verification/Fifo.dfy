/**
 The byte FIFO (fifo.c, fifo.h): a buffer whose size is a power of two and two
 free-running 32-bit indices that wrap and are masked on use.
 */
module Fifo {
  import opened Basics
  import opened Bits
  import opened IoQueues

  type Byte = bv8

  // ----- Index arithmetic -----

  lemma Regroup(a: int, q: int, s: int)
    ensures a * (q * s) == a * q * s
  {
  }

  lemma DividesRange(size: nat) returns (q: nat)
    requires IsPow2(size) && size <= U32
    ensures U32 == q * size
  {
    var k: nat :| size == Pow2(k);
    Pow32();
    if k > 32 {
      Pow2Mono(32, k);
      assert false;
    }
    Pow2Add(32 - k, k);
    q := Pow2(32 - k);
  }

  lemma ModShift(r: int, m: int, size: nat)
    requires size > 0
    ensures (r + m * size) % size == r % size
  {
    assert r == r / size * size + r % size;
    assert r + m * size == (r / size + m) * size + r % size;
    ModIs(r + m * size, size, r / size + m, r % size);
  }

  /** A size that is a power of two divides the range of the indices. */
  lemma WrapMod(x: int, size: nat)
    requires IsPow2(size) && size <= U32
    ensures Wrap(x) % size == x % size
  {
    var q := DividesRange(size);
    var a := x / U32;
    assert x == a * U32 + Wrap(x);
    hide *;
    Regroup(a, q, size);
    ModShift(Wrap(x), a * q, size);
  }

  lemma MaskIsMod(x: nat, size: nat)
    requires IsPow2(size)
    ensures And(x, size - 1) == At(x, size)
  {
    var k: nat :| size == Pow2(k);
    AndMask(x, k);
  }

  /** Masking finds the right position for every index exactly when the size is
      a power of two. */
  lemma MaskExact(size: nat)
    requires 0 < size < U32
    ensures IsPow2(size) <==> forall x: nat :: x < U32 ==> And(x, size - 1) == At(x, size)
  {
    if IsPow2(size) {
      forall x: nat | x < U32 ensures And(x, size - 1) == At(x, size) {
        MaskIsMod(x, size);
      }
    } else {
      PowerTest(size);
      ModIs(size, size, 1, 0);
      assert And(size, size - 1) != At(size, size);
    }
  }

  /** One step forward on a ring of the given size. */
  function Slot(size: nat, i: nat): nat {
    if i < size then i else i - size
  }

  /** The position of an index in a buffer. */
  function At(x: nat, size: nat): (p: nat)
    requires size > 0
    ensures p < size
  {
    x % size
  }

  lemma PlusMod(x: nat, n: nat, size: nat)
    requires size > 0 && n <= size
    ensures (x + n) % size == Slot(size, x % size + n)
  {
    var m := x % size;
    assert x + n == m + n + x / size * size;
    ModShift(m + n, x / size, size);
    ModIs(m + n, size, if m + n < size then 0 else 1, Slot(size, m + n));
  }

  lemma WrapBack(x: nat, y: nat, n: nat)
    requires x < U32 && Wrap(x - y) == n
    ensures x == Wrap(y + n)
  {
  }

  lemma Advance(x: nat, k: nat, size: nat)
    requires IsPow2(size) && size <= U32 && k <= size
    ensures At(Wrap(x + k), size) == Slot(size, At(x, size) + k) < size
  {
    WrapMod(x + k, size);
    PlusMod(x, k, size);
  }

  /** Where the next byte goes: the slot after the last stored one. */
  lemma NextSlot(inIdx: nat, outIdx: nat, n: nat, size: nat)
    requires IsPow2(size) && size <= U32 && n <= size && inIdx < U32 && outIdx < U32
    requires Wrap(inIdx - outIdx) == n
    ensures At(inIdx, size) == Slot(size, At(outIdx, size) + n) < size
  {
    WrapBack(inIdx, outIdx, n);
    Advance(outIdx, n, size);
  }

  // ----- Writing into and reading from the ring of bytes -----

  /** a with d copied in from position `at` on, continuing at the start. */
  ghost function Splice(a: seq<Byte>, at: nat, d: seq<Byte>): (r: seq<Byte>)
    requires at < |a| && |d| <= |a|
    ensures |r| == |a|
  {
    if at + |d| <= |a| then a[..at] + d + a[at + |d|..]
    else
      var l := |a| - at;
      d[l..] + a[|d| - l..at] + d[..l]
  }

  /** memcpy of d to position `at`. */
  ghost function Overwrite(a: seq<Byte>, at: nat, d: seq<Byte>): (r: seq<Byte>)
    requires at + |d| <= |a|
    ensures |r| == |a|
  {
    a[..at] + d + a[at + |d|..]
  }

  lemma TwoCopies(a: seq<Byte>, at: nat, d: seq<Byte>)
    requires at < |a| && |d| <= |a|
    ensures var l := Min(|d|, |a| - at);
            Overwrite(Overwrite(a, at, d[..l]), 0, d[l..]) == Splice(a, at, d)
  {
    var l := Min(|d|, |a| - at);
    if l < |d| {
      assert at + l == |a|;
    } else {
      assert d[..l] == d && d[l..] == [];
    }
  }

  lemma CyclicAt(a: seq<Byte>, from: nat, n: nat, i: nat)
    requires from < |a| && i < n <= |a|
    ensures Slot(|a|, from + i) < |a| && Cyclic(a, from, n)[i] == a[Slot(|a|, from + i)]
  {
  }

  lemma SpliceAt(a: seq<Byte>, at: nat, d: seq<Byte>, j: nat)
    requires at < |a| && |d| <= |a| && j < |a|
    ensures Splice(a, at, d)[j] ==
              if at <= j < at + |d| then d[j - at]
              else if j + |a| < at + |d| then d[j + |a| - at]
              else a[j]
  {
  }

  /** Writing at the slot after the last byte appends. */
  lemma SpliceAppends(a: seq<Byte>, from: nat, n: nat, d: seq<Byte>)
    requires from < |a| && n + |d| <= |a| && Slot(|a|, from + n) < |a|
    ensures Cyclic(Splice(a, Slot(|a|, from + n), d), from, n + |d|) == Cyclic(a, from, n) + d
  {
    hide *;
    var b := Splice(a, Slot(|a|, from + n), d);
    forall i | 0 <= i < n + |d| ensures Cyclic(b, from, n + |d|)[i] == (Cyclic(a, from, n) + d)[i] {
      AppendedAt(a, from, n, d, i);
    }
  }

  lemma AppendedAt(a: seq<Byte>, from: nat, n: nat, d: seq<Byte>, i: nat)
    requires from < |a| && n + |d| <= |a| && Slot(|a|, from + n) < |a| && i < n + |d|
    ensures Cyclic(Splice(a, Slot(|a|, from + n), d), from, n + |d|)[i] == (Cyclic(a, from, n) + d)[i]
  {
    hide Cyclic, Splice;
    var at := Slot(|a|, from + n);
    CyclicAt(Splice(a, at, d), from, n + |d|, i);
    SpliceAt(a, at, d, Slot(|a|, from + i));
    if i < n {
      CyclicAt(a, from, n, i);
    }
  }

  /** Starting k later drops k bytes; stopping at k takes them. */
  lemma CyclicDrops(a: seq<Byte>, from: nat, n: nat, k: nat)
    requires from < |a| && k <= n <= |a| && Slot(|a|, from + k) < |a|
    ensures Cyclic(a, Slot(|a|, from + k), n - k) == Cyclic(a, from, n)[k..]
    ensures Cyclic(a, from, k) == Cyclic(a, from, n)[..k]
  {
  }

  class ByteFifo {
    const buffer: array<Byte>
    const size: nat
    var inIdx: nat
    var outIdx: nat

    ghost predicate Valid()
      reads this, buffer
    {
      && IsPow2(size) && size < U32 && buffer.Length == size
      && inIdx < U32 && outIdx < U32 && Wrap(inIdx - outIdx) <= size
    }

    /** The stored bytes, oldest first. */
    ghost function Contents(): seq<Byte>
      reads this, buffer
      requires Valid()
    {
      Cyclic(buffer[..], At(outIdx, size), Wrap(inIdx - outIdx))
    }

    /** fifo_alloc; every caller passes a power of two. */
    constructor (n: nat)
      requires IsPow2(n) && n < U32
      ensures Valid() && fresh(buffer) && size == n && Contents() == []
    {
      size := n;
      buffer := new Byte[n](_ => 0);
      inIdx, outIdx := 0, 0;
    }

    function Len(): (n: nat)
      requires Valid()
      reads this, buffer
      ensures n == |Contents()|
    {
      Wrap(inIdx - outIdx)
    }

    function Room(): (n: nat)
      requires Valid()
      reads this, buffer
      ensures n == size - |Contents()|
    {
      RoomIs(inIdx, outIdx, size);
      Wrap(size - inIdx + outIdx)
    }

    /** memcpy into the buffer. */
    method CopyIn(at: nat, d: seq<Byte>)
      requires at + |d| <= buffer.Length
      modifies buffer
      ensures buffer[..] == Overwrite(old(buffer[..]), at, d)
    {
      for i := 0 to |d|
        invariant buffer[..] == old(buffer[..])[..at] + d[..i] + old(buffer[..])[at + i..]
      {
        buffer[at + i] := d[i];
      }
    }

    /** The two copies of fifo_put. */
    method Store(at: nat, d: seq<Byte>)
      requires at < buffer.Length && |d| <= buffer.Length
      modifies buffer
      ensures buffer[..] == Splice(old(buffer[..]), at, d)
    {
      TwoCopies(buffer[..], at, d);
      hide Splice, Overwrite;
      var l := Min(|d|, buffer.Length - at);
      CopyIn(at, d[..l]);
      CopyIn(0, d[l..]);
    }

    /** The two copies of fifo_get. */
    method Fetch(at: nat, n: nat) returns (d: seq<Byte>)
      requires at < buffer.Length && n <= buffer.Length
      ensures d == Cyclic(buffer[..], at, n)
    {
      var l := Min(n, buffer.Length - at);
      d := buffer[at..at + l];
      d := d + buffer[..n - l];
    }

    /** fifo_put: as much as fits is appended. */
    method Put(data: seq<Byte>) returns (len: nat)
      requires Valid() && |data| < U32
      modifies this`inIdx, buffer
      ensures Valid()
      ensures len == Min(|data|, size - |old(Contents())|)
      ensures Contents() == old(Contents()) + data[..len]
    {
      hide Cyclic, Splice, And, At, Wrap, IsPow2, Slot;
      len := Min(|data|, Room());
      ghost var n := Len();
      PutFacts(inIdx, outIdx, n, len, size);
      SpliceAppends(buffer[..], At(outIdx, size), n, data[..len]);
      Store(And(inIdx, size - 1), data[..len]);
      inIdx := Wrap(inIdx + len);
    }

    /** fifo_get: as much as there is is taken, and thrown away when the caller
        passes no buffer; both indices restart at zero on an empty FIFO. */
    method Get(want: nat, discard: bool) returns (len: nat, data: seq<Byte>)
      requires Valid() && want < U32
      modifies this`inIdx, this`outIdx
      ensures Valid()
      ensures len == Min(want, |old(Contents())|)
      ensures Contents() == old(Contents())[len..]
      ensures data == if discard then [] else old(Contents())[..len]
    {
      hide Cyclic, And, At, Wrap, IsPow2, Slot;
      len := Min(want, Len());
      data := [];
      ghost var n := Len();
      GetFacts(inIdx, outIdx, n, len, size);
      CyclicDrops(buffer[..], At(outIdx, size), n, len);
      if !discard {
        data := Fetch(And(outIdx, size - 1), len);
      }
      outIdx := Wrap(outIdx + len);
      if inIdx == outIdx {
        inIdx, outIdx := 0, 0;
      }
    }
  }

  lemma PutFacts(inIdx: nat, outIdx: nat, n: nat, len: nat, size: nat)
    requires IsPow2(size) && size < U32 && inIdx < U32 && outIdx < U32
    requires Wrap(inIdx - outIdx) == n && n + len <= size
    ensures And(inIdx, size - 1) == At(inIdx, size) == Slot(size, At(outIdx, size) + n) < size
    ensures Wrap(inIdx + len) < U32 && Wrap(Wrap(inIdx + len) - outIdx) == n + len
  {
    NextSlot(inIdx, outIdx, n, size);
    MaskIsMod(inIdx, size);
    GrownLen(inIdx, outIdx, n, len);
  }

  lemma GetFacts(inIdx: nat, outIdx: nat, n: nat, len: nat, size: nat)
    requires IsPow2(size) && size < U32 && inIdx < U32 && outIdx < U32
    requires Wrap(inIdx - outIdx) == n && len <= n <= size
    ensures And(outIdx, size - 1) == At(outIdx, size)
    ensures At(Wrap(outIdx + len), size) == Slot(size, At(outIdx, size) + len) < size
    ensures Wrap(outIdx + len) < U32 && Wrap(inIdx - Wrap(outIdx + len)) == n - len
    ensures inIdx == Wrap(outIdx + len) <==> n == len
    ensures Wrap(0) == 0
  {
    Advance(outIdx, len, size);
    MaskIsMod(outIdx, size);
    ShrunkLen(inIdx, outIdx, n, len);
    EmptyWhen(inIdx, Wrap(outIdx + len), n - len);
  }

  lemma RoomIs(x: nat, y: nat, size: nat)
    requires x < U32 && y < U32 && Wrap(x - y) <= size < U32
    ensures Wrap(size - x + y) == size - Wrap(x - y)
  {
  }

  lemma GrownLen(x: nat, y: nat, n: nat, k: nat)
    requires Wrap(x - y) == n && n + k < U32
    ensures Wrap(x + k) < U32 && Wrap(Wrap(x + k) - y) == n + k
  {
  }

  lemma ShrunkLen(x: nat, y: nat, n: nat, k: nat)
    requires Wrap(x - y) == n && k <= n
    ensures Wrap(y + k) < U32 && Wrap(x - Wrap(y + k)) == n - k
  {
  }

  lemma EmptyWhen(x: nat, y: nat, n: nat)
    requires x < U32 && y < U32 && Wrap(x - y) == n
    ensures x == y <==> n == 0
  {
  }

}
