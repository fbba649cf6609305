/**
 The life of I/O units (io_u.c, init_io_u in backend.c): a unit is on the free
 stack, on the requeue ring, or held.  Pool is the value-level description;
 class ThreadUnits performs the operations on the array-backed containers.
 */
module UnitPool {
  import opened Basics
  import opened Bits
  import opened IoQueues

  /** IO_U_F_FREE, IO_U_F_FLIGHT and IO_U_F_IN_CUR_DEPTH. */
  datatype Flags = Flags(free: bool, flight: bool, inCurDepth: bool)

  datatype Pool = Pool(free: seq<int>, ring: seq<int>, units: seq<Flags>, curDepth: int) {
    predicate Has(u: int) {
      0 <= u < |units|
    }

    predicate Held(u: int) {
      Has(u) && !units[u].free
    }

    predicate InFlight(u: int) {
      Has(u) && units[u].flight
    }
  }

  function InitPool(depth: nat): Pool {
    Pool(seq(depth, i => i), [], seq(depth, _ => Flags(true, false, false)), 0)
  }

  /** queue_full: with a latency target the depth is limited to qd. */
  function QueueFull(p: Pool, target: bool, qd: int): bool {
    p.free == [] || (target && p.curDepth >= qd)
  }

  function Take(p: Pool, u: int): Pool {
    if p.Has(u) then
      p.(units := p.units[u := p.units[u].(free := false, inCurDepth := true)], curDepth := p.curDepth + 1)
    else p
  }

  /** __get_io_u: requeued units first, then the top of the free stack. */
  function Get(p: Pool, target: bool, qd: int): (Pool, int) {
    if p.ring != [] then (Take(p.(ring := p.ring[1..]), p.ring[0]), p.ring[0])
    else if !QueueFull(p, target, qd) then
      var u := p.free[|p.free| - 1];
      (Take(p.(free := p.free[..|p.free| - 1]), u), u)
    else (p, NULL)
  }

  function Leave(p: Pool, u: int, flight: bool): Pool
    requires p.Has(u)
  {
    p.(units := p.units[u := p.units[u].(free := true, flight := flight)],
       curDepth := if p.units[u].inCurDepth then p.curDepth - 1 else p.curDepth)
  }

  /** put_io_u */
  function Put(p: Pool, u: int): Pool
    requires p.Has(u)
  {
    Leave(p, u, p.units[u].flight).(free := p.free + [u])
  }

  /** requeue_io_u */
  function Requeue(p: Pool, u: int): Pool
    requires p.Has(u)
  {
    Leave(p, u, false).(ring := p.ring + [u])
  }

  /** The in-flight flag, set by td_io_queue and cleared on completion. */
  function SetFlight(p: Pool, u: int, b: bool): Pool
    requires p.Has(u)
  {
    p.(units := p.units[u := p.units[u].(flight := b)])
  }

  /** Every unit is in exactly one place, and the flags and the depth agree. */
  ghost predicate Ok(p: Pool) {
    && Distinct(p.free + p.ring)
    && (forall u :: u in p.free || u in p.ring <==> p.Has(u) && p.units[u].free)
    && (forall u :: p.Held(u) ==> p.units[u].inCurDepth)
    && (forall u :: p.Has(u) && p.units[u].free ==> !p.units[u].flight)
    && p.curDepth == |p.units| - |p.free| - |p.ring|
  }

  ghost predicate Partition(p: Pool, u: int) {
    p.Has(u) <==> (
      || (u in p.free && u !in p.ring && !p.Held(u))
      || (u !in p.free && u in p.ring && !p.Held(u))
      || (u !in p.free && u !in p.ring && p.Held(u)))
  }

  lemma OkPartitions(p: Pool, u: int)
    requires Ok(p)
    ensures Partition(p, u)
  {
    assert forall i :: 0 <= i < |p.free| ==> p.free[i] == (p.free + p.ring)[i];
    assert forall j :: 0 <= j < |p.ring| ==> p.ring[j] == (p.free + p.ring)[|p.free| + j];
  }

  // ----- Counting -----

  ghost function Below(n: nat): (s: set<int>)
    ensures forall u :: u in s <==> 0 <= u < n
    ensures |s| == n
  {
    if n == 0 then {} else Below(n - 1) + {n - 1}
  }

  ghost function Elements(s: seq<int>): set<int> {
    set x | x in s
  }

  lemma {:induction false} DistinctSize(s: seq<int>)
    requires Distinct(s)
    ensures |Elements(s)| == |s|
  {
    if s == [] {
      assert Elements(s) == {};
    } else {
      var t := s[..|s| - 1];
      DistinctSize(t);
      assert Elements(s) == Elements(t) + {s[|s| - 1]};
    }
  }

  ghost function HeldSet(p: Pool): set<int> {
    set u | 0 <= u < |p.units| && p.Held(u)
  }

  /** cur_depth is exactly the number of held units. */
  lemma CurDepthCountsHeld(p: Pool)
    requires Ok(p)
    ensures p.curDepth == |HeldSet(p)|
  {
    var q := p.free + p.ring;
    DistinctSize(q);
    assert forall u :: u in q <==> u in p.free || u in p.ring;
    assert Below(|p.units|) == HeldSet(p) + Elements(q);
    assert HeldSet(p) !! Elements(q);
  }

  /** While a unit is held the two containers cannot be full. */
  lemma RoomForHeld(p: Pool, u: int)
    requires Ok(p) && p.Held(u)
    ensures |p.free| + |p.ring| < |p.units|
  {
    CurDepthCountsHeld(p);
    assert u in HeldSet(p);
  }

  // ----- Every operation keeps the partition -----

  lemma InitOk(depth: nat)
    ensures Ok(InitPool(depth))
  {
    var p := InitPool(depth);
    forall u ensures u in p.free || u in p.ring <==> p.Has(u) && p.units[u].free {
      if 0 <= u < depth {
        assert p.free[u] == u;
      }
    }
  }

  lemma DropLast(s: seq<int>, r: seq<int>)
    requires s != [] && Distinct(s + r)
    ensures Distinct(s[..|s| - 1] + r)
    ensures forall x :: x in s[..|s| - 1] || x in r <==> (x in s || x in r) && x != s[|s| - 1]
  {
    var n := |s| - 1;
    assert forall i :: 0 <= i < n ==> s[i] == (s + r)[i];
    assert forall i :: 0 <= i < |r| ==> r[i] == (s + r)[|s| + i];
    assert s[n] == (s + r)[n];
    var t := s[..n] + r;
    forall i, j | 0 <= i < j < |t| ensures t[i] != t[j] {
      assert (s + r)[if i < n then i else i + 1] == t[i];
      assert (s + r)[if j < n then j else j + 1] == t[j];
    }
  }

  lemma DropFirst(s: seq<int>, r: seq<int>)
    requires r != [] && Distinct(s + r)
    ensures Distinct(s + r[1..])
    ensures forall x :: x in s || x in r[1..] <==> (x in s || x in r) && x != r[0]
  {
    var t := s + r[1..];
    assert forall i :: 0 <= i < |s| ==> s[i] == (s + r)[i];
    assert forall i :: 0 <= i < |r| ==> r[i] == (s + r)[|s| + i];
    forall i, j | 0 <= i < j < |t| ensures t[i] != t[j] {
      assert (s + r)[if i < |s| then i else i + 1] == t[i];
      assert (s + r)[if j < |s| then j else j + 1] == t[j];
    }
  }

  lemma GetOk(p: Pool, target: bool, qd: int)
    requires Ok(p)
    ensures var (p', u) := Get(p, target, qd);
            && Ok(p') && |p'.units| == |p.units|
            && (u == NULL <==> p.ring == [] && QueueFull(p, target, qd))
            && (u == NULL ==> p' == p)
            && (u != NULL ==> !p.Held(u) && p'.Held(u) && !p'.InFlight(u) && p'.curDepth == p.curDepth + 1
                              && (forall v :: v != u ==> (p'.Held(v) <==> p.Held(v)))
                              && (forall v :: v != u ==> (p'.InFlight(v) <==> p.InFlight(v))))
  {
    if p.ring != [] {
      DropFirst(p.free, p.ring);
      assert p.ring[0] in p.ring;
    } else if !QueueFull(p, target, qd) {
      DropLast(p.free, p.ring);
      var (p', u) := Get(p, target, qd);
      assert u in p.free;
      forall v ensures v in p'.free || v in p'.ring <==> p'.Has(v) && p'.units[v].free {
        assert v in p'.free || v in p'.ring <==> (v in p.free || v in p.ring) && v != u;
      }
    }
  }

  lemma PutOk(p: Pool, u: int)
    requires Ok(p) && p.Held(u) && !p.InFlight(u)
    ensures Ok(Put(p, u)) && |Put(p, u).units| == |p.units|
    ensures forall v :: Put(p, u).Held(v) <==> p.Held(v) && v != u
    ensures forall v :: Put(p, u).InFlight(v) <==> p.InFlight(v)
  {
    Appended(p.free, p.ring, u);
    RoomForHeld(p, u);
  }

  lemma RequeueOk(p: Pool, u: int)
    requires Ok(p) && p.Held(u)
    ensures Ok(Requeue(p, u)) && |Requeue(p, u).units| == |p.units|
    ensures forall v :: Requeue(p, u).Held(v) <==> p.Held(v) && v != u
    ensures forall v :: Requeue(p, u).InFlight(v) <==> p.InFlight(v) && v != u
  {
    Appended(p.free, p.ring, u);
  }

  lemma Appended(s: seq<int>, r: seq<int>, u: int)
    requires Distinct(s + r) && u !in s && u !in r
    ensures Distinct(s + [u] + r) && Distinct(s + (r + [u]))
  {
    var t := s + [u] + r;
    assert forall i :: 0 <= i < |s| ==> s[i] == (s + r)[i];
    assert forall i :: 0 <= i < |r| ==> r[i] == (s + r)[|s| + i];
    forall i, j | 0 <= i < j < |t| ensures t[i] != t[j] {
      assert t[i] == if i < |s| then s[i] else if i == |s| then u else r[i - |s| - 1];
      assert t[j] == if j < |s| then s[j] else if j == |s| then u else r[j - |s| - 1];
    }
    assert s + (r + [u]) == (s + r) + [u];
  }

  lemma FlightOk(p: Pool, u: int, b: bool)
    requires Ok(p) && p.Held(u)
    ensures Ok(SetFlight(p, u, b)) && |SetFlight(p, u, b).units| == |p.units|
    ensures forall v :: SetFlight(p, u, b).Held(v) <==> p.Held(v)
    ensures forall v :: SetFlight(p, u, b).InFlight(v) <==> if v == u then b else p.InFlight(v)
  {
  }

  // ----- Every run -----

  datatype Op =
    | GetOp(target: bool, qd: int)
    | PutOp(u: int)
    | RequeueOp(u: int)
    | QueueOp(u: int)
    | CompleteOp(u: int)

  /** Operations on units the caller holds; a put only once the in-flight flag
      is clear, as after every completion. */
  ghost predicate OpEnabled(p: Pool, op: Op) {
    match op
    case GetOp(_, _) => true
    case PutOp(u) => p.Held(u) && !p.InFlight(u)
    case RequeueOp(u) => p.Held(u)
    case QueueOp(u) => p.Held(u) && !p.InFlight(u)
    case CompleteOp(u) => p.Held(u) && p.InFlight(u)
  }

  ghost function OpApply(p: Pool, op: Op): Pool
    requires OpEnabled(p, op)
  {
    match op
    case GetOp(target, qd) => Get(p, target, qd).0
    case PutOp(u) => Put(p, u)
    case RequeueOp(u) => Requeue(p, u)
    case QueueOp(u) => SetFlight(p, u, true)
    case CompleteOp(u) => SetFlight(p, u, false)
  }

  ghost predicate OpsLegal(p: Pool, ops: seq<Op>)
    decreases |ops|
  {
    ops == [] || (OpEnabled(p, ops[0]) && OpsLegal(OpApply(p, ops[0]), ops[1..]))
  }

  ghost function OpsRun(p: Pool, ops: seq<Op>): Pool
    requires OpsLegal(p, ops)
    decreases |ops|
  {
    if ops == [] then p else OpsRun(OpApply(p, ops[0]), ops[1..])
  }

  lemma {:induction false} RunOk(p: Pool, ops: seq<Op>)
    requires Ok(p) && OpsLegal(p, ops)
    ensures Ok(OpsRun(p, ops)) && |OpsRun(p, ops).units| == |p.units|
    decreases |ops|
  {
    if ops != [] {
      match ops[0] {
        case GetOp(target, qd) => GetOk(p, target, qd);
        case PutOp(u) => PutOk(p, u);
        case RequeueOp(u) => RequeueOk(p, u);
        case QueueOp(u) => FlightOk(p, u, true);
        case CompleteOp(u) => FlightOk(p, u, false);
      }
      RunOk(OpApply(p, ops[0]), ops[1..]);
    }
  }

  /** After every run each unit is in exactly one place, cur_depth counts the
      held ones, and there is room on both containers for any held unit. */
  lemma EveryRunPartitions(depth: nat, ops: seq<Op>)
    requires OpsLegal(InitPool(depth), ops)
    ensures var p := OpsRun(InitPool(depth), ops);
            && (forall u :: Partition(p, u))
            && |p.units| == depth && p.curDepth == |HeldSet(p)|
            && (forall u :: p.Held(u) ==> |p.free| < depth && |p.ring| < depth)
  {
    InitOk(depth);
    RunOk(InitPool(depth), ops);
    var p := OpsRun(InitPool(depth), ops);
    CurDepthCountsHeld(p);
    forall u ensures Partition(p, u) && (p.Held(u) ==> |p.free| < depth && |p.ring| < depth) {
      OkPartitions(p, u);
      if p.Held(u) {
        RoomForHeld(p, u);
      }
    }
  }

  /** A get fails exactly when nothing is requeued and either every unit is held
      or a latency target is set and as many units are held as it allows. */
  lemma GetFailsExactly(p: Pool, target: bool, qd: int)
    requires Ok(p)
    ensures Get(p, target, qd).1 == NULL <==>
              && p.ring == []
              && ((forall v :: p.Has(v) ==> p.Held(v)) || (target && |HeldSet(p)| >= qd))
  {
    GetOk(p, target, qd);
    CurDepthCountsHeld(p);
    if p.free != [] {
      assert p.free[0] in p.free;
    }
  }

  /** Under a fixed latency target the units held and requeued never exceed the
      depth it allows, on any run. */
  lemma TargetLimitsDepth(depth: nat, ops: seq<Op>, qd: nat)
    requires OpsLegal(InitPool(depth), ops) && forall op <- ops :: op.GetOp? ==> op.target && op.qd == qd
    ensures var p := OpsRun(InitPool(depth), ops); |HeldSet(p)| + |p.ring| <= qd
  {
    InitOk(depth);
    RunOk(InitPool(depth), ops);
    CurDepthCountsHeld(OpsRun(InitPool(depth), ops));
    RunWithinTarget(InitPool(depth), ops, qd);
  }

  lemma {:induction false} RunWithinTarget(p: Pool, ops: seq<Op>, qd: nat)
    requires Ok(p) && p.curDepth + |p.ring| <= qd && OpsLegal(p, ops)
    requires forall op <- ops :: op.GetOp? ==> op.target && op.qd == qd
    ensures var e := OpsRun(p, ops); e.curDepth + |e.ring| <= qd
    decreases |ops|
  {
    if ops != [] {
      assert ops[0] in ops;
      RunOk(p, [ops[0]]);
      assert [ops[0]][1..] == [];
      hide Ok;
      OneWithinTarget(p, ops[0], qd);
      RunWithinTarget(OpApply(p, ops[0]), ops[1..], qd);
    }
  }

  lemma OneWithinTarget(p: Pool, op: Op, qd: nat)
    requires Ok(p) && p.curDepth + |p.ring| <= qd && OpEnabled(p, op)
    requires op.GetOp? ==> op.target && op.qd == qd
    ensures OpApply(p, op).curDepth + |OpApply(p, op).ring| <= qd
  {
  }

  lemma FoundIsFree(p: Pool, target: bool, qd: int)
    requires Ok(p)
    ensures var u := Get(p, target, qd).1; u != NULL ==> p.Has(u) && p.units[u].free
    ensures p.ring != [] || !QueueFull(p, target, qd) ==> Get(p, target, qd).1 != NULL
  {
    if p.ring != [] {
      assert p.ring[0] in p.ring;
    } else if !QueueFull(p, target, qd) {
      assert p.free[|p.free| - 1] in p.free;
    }
  }

  // ----- The same on the array-backed containers -----

  class ThreadUnits {
    const depth: nat
    const freelist: IoUQueue
    const requeues: IoURing
    var units: seq<Flags>
    var curDepth: int
    var latencyTarget: bool
    var latencyQd: int

    ghost predicate Shape()
      reads this, freelist, freelist.ioUs, requeues, requeues.ring
    {
      && freelist.ioUs != requeues.ring
      && freelist.Valid() && requeues.Valid()
      && freelist.ioUs.Length == depth && depth + 1 <= requeues.max
    }

    ghost function State(): Pool
      requires Shape()
      reads this, freelist, freelist.ioUs, requeues, requeues.ring
    {
      Pool(freelist.Contents(), requeues.Contents(), units, curDepth)
    }

    ghost predicate Valid()
      reads this, freelist, freelist.ioUs, requeues, requeues.ring
    {
      Shape() && |units| == depth && Ok(State())
    }

    /** The queues of init_io_u, with every unit pushed on the free stack. */
    constructor (iodepth: nat)
      requires iodepth < U32 / 2
      ensures Valid() && depth == iodepth && State() == InitPool(iodepth)
      ensures fresh(freelist) && fresh(freelist.ioUs) && fresh(requeues) && fresh(requeues.ring)
    {
      depth := iodepth;
      var ring := new IoURing(iodepth);
      var stack := new IoUQueue(iodepth);
      requeues := ring;
      freelist := stack;
      curDepth := 0;
      latencyTarget, latencyQd := false, 0;
      new;
      units := [];
      for i := 0 to iodepth
        invariant Shape() && fresh(freelist) && fresh(freelist.ioUs) && fresh(requeues) && fresh(requeues.ring)
        invariant freelist.Contents() == seq(i, k => k) && requeues.Contents() == []
        invariant units == seq(i, _ => Flags(true, false, false)) && curDepth == 0
      {
        units := units + [Flags(true, false, false)];
        freelist.Push(i);
      }
      InitOk(iodepth);
    }

    method QueueIsFull() returns (full: bool)
      requires Valid()
      ensures full == QueueFull(State(), latencyTarget, latencyQd)
    {
      var empty := freelist.Empty();
      if empty {
        return true;
      }
      if !latencyTarget {
        return false;
      }
      return curDepth >= latencyQd;
    }

    /** The choice made by __get_io_u, before the unit is marked. */
    method NextUnit() returns (u: int)
      requires Valid()
      modifies freelist, freelist.ioUs, requeues
      ensures Shape()
      ensures var p := old(State());
              if p.ring != [] then u == p.ring[0] && State() == p.(ring := p.ring[1..])
              else if QueueFull(p, latencyTarget, latencyQd) then u == NULL && State() == p
              else u == p.free[|p.free| - 1] && State() == p.(free := p.free[..|p.free| - 1])
    {
      u := NULL;
      var none := requeues.Empty();
      if !none {
        u := requeues.Pop();
      } else {
        var full := QueueIsFull();
        if !full {
          u := freelist.Pop();
        }
      }
    }

    /** Returns null only when nothing is requeued and the queue is full; the
        pop of the free stack itself never does, and the unit found is free. */
    method GetIoU() returns (u: int)
      requires Valid()
      modifies this, freelist, freelist.ioUs, requeues
      ensures Valid()
      ensures (State(), u) == Get(old(State()), old(latencyTarget), old(latencyQd))
      ensures latencyTarget == old(latencyTarget) && latencyQd == old(latencyQd)
    {
      hide Distinct, IsPow2, Cyclic, Ok;
      ghost var p := State();
      FoundIsFree(p, latencyTarget, latencyQd);
      GetOk(p, latencyTarget, latencyQd);
      u := NextUnit();
      if u != NULL {
        assert units[u].free;
        units := units[u := units[u].(free := false, inCurDepth := true)];
        curDepth := curDepth + 1;
      }
      assert State() == Get(p, latencyTarget, latencyQd).0;
    }

    method PutIoU(u: int)
      requires Valid() && State().Held(u) && !State().InFlight(u)
      modifies this, freelist, freelist.ioUs
      ensures Valid()
      ensures State() == Put(old(State()), u)
      ensures latencyTarget == old(latencyTarget) && latencyQd == old(latencyQd)
    {
      PutOk(State(), u);
      RoomForHeld(State(), u);
      units := units[u := units[u].(free := true)];
      if units[u].inCurDepth {
        curDepth := curDepth - 1;
      }
      freelist.Push(u);
    }

    /** The ring's assertion never fires. */
    method RequeueIoU(u: int)
      requires Valid() && State().Held(u)
      modifies this, requeues, requeues.ring
      ensures Valid()
      ensures State() == Requeue(old(State()), u)
      ensures latencyTarget == old(latencyTarget) && latencyQd == old(latencyQd)
    {
      RequeueOk(State(), u);
      RoomForHeld(State(), u);
      units := units[u := units[u].(free := true, flight := false)];
      if units[u].inCurDepth {
        curDepth := curDepth - 1;
      }
      var asserted := requeues.Push(u);
      assert !asserted;
    }
  }
}
