/**
 The two containers of I/O units (io_u_queue.h, io_u_queue.c): an array-backed
 stack of free units and a ring of requeued ones.  Units are numbers; -1 is the
 null pointer.
 */
module IoQueues {
  import opened Bits

  const NULL: int := -1

  class IoUQueue {
    const ioUs: array<int>
    var nr: nat

    ghost predicate Valid()
      reads this, ioUs
    {
      nr <= ioUs.Length
    }

    ghost function Contents(): seq<int>
      reads this, ioUs
      requires Valid()
    {
      ioUs[..nr]
    }

    /** io_u_qinit */
    constructor (capacity: nat)
      ensures Valid() && fresh(ioUs) && Contents() == [] && ioUs.Length == capacity
    {
      ioUs := new int[capacity](_ => NULL);
      nr := 0;
    }

    method Pop() returns (u: int)
      requires Valid()
      modifies this, ioUs
      ensures Valid()
      ensures var was := old(Contents());
              if was == [] then u == NULL && Contents() == []
              else u == was[|was| - 1] && Contents() == was[..|was| - 1]
    {
      if nr != 0 {
        nr := nr - 1;
        u := ioUs[nr];
        ioUs[nr] := NULL;
        return;
      }
      return NULL;
    }

    /** The source has no bound check: the caller must not exceed the capacity. */
    method Push(u: int)
      requires Valid() && |Contents()| < ioUs.Length
      modifies this, ioUs
      ensures Valid() && Contents() == old(Contents()) + [u]
    {
      ioUs[nr] := u;
      nr := nr + 1;
    }

    method Empty() returns (r: bool)
      requires Valid()
      ensures r <==> Contents() == []
    {
      r := nr == 0;
    }
  }

  // ----- The ring -----

  ghost predicate LeastPow2(r: nat, n: nat) {
    IsPow2(r) && n <= r && forall p: nat :: IsPow2(p) && n <= p ==> r <= p
  }

  /** The size computed by io_u_rinit, for every 32-bit argument: the least
      power of two that is at least nr + 1 when one fits in 32 bits, that is,
      when nr < 2^31; otherwise the size wraps to zero. */
  method RingSize(nr: nat) returns (max: nat)
    requires nr < U32
    ensures nr < U32 / 2 ==> LeastPow2(max, nr + 1) && max <= U32 / 2
    ensures nr >= U32 / 2 ==> max == 0
  {
    hide Wrap, And, Or, Shr, Smeared, IsPow2, LeastPow2;
    WrapEdge(nr + 1);
    max := Wrap(nr + 1);
    WrapEdge(max - 1);
    NothingInZero(Wrap(max - 1));
    if max != 0 {
      PowerTest(max);
    }
    if And(max, Wrap(max - 1)) != 0 {
      NotPow2Above(max);
      WrapEdge(Smeared(max - 1) + 1);
      max := SmearDown(max - 1);
      max := Wrap(max + 1);
    } else if max != 0 {
      Pow2Below(max);
    }
  }

  /** One step out of the range on either side. */
  lemma WrapEdge(x: int)
    requires -1 <= x <= U32
    ensures Wrap(x) == if x == -1 then U32 - 1 else if x == U32 then 0 else x
  {
  }

  lemma NothingInZero(y: nat)
    ensures And(0, y) == 0
  {
  }

  /** The five assignments that copy the highest bit into all lower ones. */
  method SmearDown(x: nat) returns (y: nat)
    ensures y == Smeared(x)
  {
    y := x;
    y := Or(y, Shr(y, 1));
    y := Or(y, Shr(y, 2));
    y := Or(y, Shr(y, 4));
    y := Or(y, Shr(y, 8));
    y := Or(y, Shr(y, 16));
  }

  /** A 32-bit number that is no power of two lies strictly between two, and
      smearing one less than it yields the upper of them. */
  lemma NotPow2Above(n: nat)
    requires 0 < n < U32 && !IsPow2(n)
    ensures var r := Smeared(n - 1) + 1;
            && LeastPow2(r, n) && r <= U32
            && (r == U32 <==> n > U32 / 2)
            && (n <= U32 / 2 ==> r <= U32 / 2)
  {
    assert Pow2(0) == 1;
    var b := TopBit(n - 1);
    Pow32();
    if b >= 32 {
      Pow2Mono(32, b);
    }
    SmearedAllOnes(n - 1, b);
    if b < 31 {
      Pow2Mono(b + 1, 31);
    }
    hide Smeared;
    assert n != Pow2(b + 1);
    NextPow2IsLeast(n, b);
  }

  lemma NextPow2IsLeast(n: nat, b: nat)
    requires Pow2(b) < n <= Pow2(b + 1)
    ensures LeastPow2(Pow2(b + 1), n)
  {
    forall p: nat | IsPow2(p) && n <= p ensures Pow2(b + 1) <= p {
      var k: nat :| p == Pow2(k);
      if k <= b {
        Pow2Mono(k, b);
      } else {
        Pow2Mono(b + 1, k);
      }
    }
  }

  lemma Pow2Below(n: nat)
    requires n < U32 && IsPow2(n)
    ensures n <= U32 / 2 && LeastPow2(n, n)
  {
    var k: nat :| n == Pow2(k);
    Pow32();
    if k >= 32 {
      Pow2Mono(32, k);
    } else {
      Pow2Mono(k, 31);
    }
  }

  /** Advancing an index under the mask max - 1. */
  lemma MaskedNext(i: nat, max: nat)
    requires IsPow2(max) && i < max
    ensures And(i + 1, max - 1) == if i + 1 == max then 0 else i + 1
  {
    var k: nat :| max == Pow2(k);
    AndMask(i + 1, k);
    ModIs(i + 1, max, if i + 1 == max then 1 else 0, if i + 1 == max then 0 else i + 1);
  }

  /** n elements from position `from` on, continuing at the start. */
  ghost function Cyclic<T>(a: seq<T>, from: nat, n: nat): (s: seq<T>)
    requires from < |a| && n <= |a|
    ensures |s| == n
  {
    if from + n <= |a| then a[from..from + n] else a[from..] + a[..from + n - |a|]
  }

  class IoURing {
    var head: nat
    var tail: nat
    const max: nat
    const ring: array<int>

    ghost predicate Valid()
      reads this, ring
    {
      && IsPow2(max) && max <= U32 / 2 && ring.Length == max
      && head < max && tail < max
    }

    ghost function Len(): nat
      reads this, ring
      requires Valid()
    {
      if tail <= head then head - tail else head + max - tail
    }

    /** The queued units, oldest first. */
    ghost function Contents(): (s: seq<int>)
      reads this, ring
      requires Valid()
      ensures |s| == Len()
    {
      Cyclic(ring[..], tail, Len())
    }

    constructor (nr: nat)
      requires nr < U32 / 2
      ensures Valid() && fresh(ring) && Contents() == []
      ensures LeastPow2(max, nr + 1)
    {
      var size := RingSize(nr);
      max := size;
      ring := new int[size](_ => NULL);
      head, tail := 0, 0;
    }

    /** The full test compares the unmasked successor of head.  The push is an
        append exactly while a slot stays free; a push into the last slot trips
        the assertion, or, with tail at zero, makes the full ring look empty. */
    method Push(u: int) returns (asserted: bool)
      requires Valid()
      modifies this, ring
      ensures Valid()
      ensures |old(Contents())| < max - 1 ==> !asserted && Contents() == old(Contents()) + [u]
      ensures |old(Contents())| == max - 1 ==> (asserted <==> old(tail) != 0)
      ensures |old(Contents())| == max - 1 && !asserted ==> Contents() == []
      ensures asserted ==> Contents() == old(Contents())
    {
      hide And, IsPow2;
      if head + 1 != tail {
        MaskedNext(head, max);
        ghost var was := Contents();
        ring[head] := u;
        head := And(head + 1, max - 1);
        assert |was| < max - 1 ==> Contents() == was + [u];
        return false;
      }
      return true;
    }

    method Pop() returns (u: int)
      requires Valid()
      modifies this
      ensures Valid()
      ensures var was := old(Contents());
              if was == [] then u == NULL && Contents() == []
              else u == was[0] && Contents() == was[1..]
    {
      if head != tail {
        MaskedNext(tail, max);
        ghost var was := Contents();
        u := ring[tail];
        tail := And(tail + 1, max - 1);
        assert Contents() == was[1..];
        return;
      }
      return NULL;
    }

    method Empty() returns (r: bool)
      requires Valid()
      ensures r <==> Contents() == []
    {
      r := head == tail;
    }
  }
}
