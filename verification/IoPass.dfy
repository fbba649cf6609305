/**
 One do_io pass over read, write or trim units (backend.c, io_u.c,
 ioengines.c), without verification: units are taken from the pool, queued to
 an I/O engine that answers as it likes, and completed, requeued or reaped.

 The engine's answers are inputs.  Beside the source's counters the state keeps
 a history: what each unit has transferred so far, a log of what was
 retired, and how many units were committed and how many events reaped, so that
 the counters can be compared with what really happened.
 */
module IoPass {
  import opened Bits
  import opened IoQueues
  import opened UnitPool

  datatype Piece = Piece(offset: nat, len: nat)

  /** A unit's transfer: buflen, xfer_buflen and offset as in struct io_u; the
      rest is history since the unit left the free stack: where it started,
      the pieces moved, and its net share of bytes_issued and io_issues. */
  datatype Xfer = Xfer(buflen: nat, xferBuflen: nat, offset: nat,
                       start: nat, pieces: seq<Piece>, issued: nat, counted: int)

  const NoXfer := Xfer(0, 0, 0, 0, [], 0, 0)

  /** A retired unit; `credited` is what was added to this_io_bytes. */
  datatype Done = Done(x: Xfer, credited: nat, error: bool)

  datatype Pass = Pass(pool: Pool, xfers: seq<Xfer>, queued: nat, inFlight: nat,
                       issues: int, blocks: nat, bytes: nat, bytesIssued: nat, log: seq<Done>,
                       committed: nat, reaped: nat) {
    predicate Has(u: int) {
      pool.Has(u) && u < |xfers|
    }
  }

  /** What the engine's queue hook did with the unit. */
  datatype Answer =
    | Completed(resid: nat)   // FIO_Q_COMPLETED without an error
    | CompletedError          // FIO_Q_COMPLETED with io_u->error set
    | Queued                  // FIO_Q_QUEUED
    | Busy                    // FIO_Q_BUSY

  /** An event reaped from the engine. */
  datatype Event = Event(u: int, resid: nat, error: bool)

  function Start(depth: nat): Pass {
    Pass(InitPool(depth), seq(depth, _ => NoXfer), 0, 0, 0, 0, 0, 0, [], 0, 0)
  }

  /** io_u_queued + io_u_in_flight, an unsigned sum. */
  function Outstanding(st: Pass): nat {
    Wrap(st.queued + st.inFlight)
  }

  /** td_io_commit; the engine's own result does not touch the counters. */
  function Commit(st: Pass): Pass {
    if st.pool.curDepth == 0 || st.queued == 0 then st
    else st.(inFlight := Wrap(st.inFlight + st.queued), queued := 0, committed := st.committed + st.queued)
  }

  /** The unit from the pool; a new one gets an offset and a length. */
  function Prepare(st: Pass, target: bool, qd: int, off: nat, len: nat): (Pass, int) {
    var (p, u) := Get(st.pool, target, qd);
    if st.pool.ring == [] && 0 <= u < |st.xfers|
    then (st.(pool := p, xfers := st.xfers[u := Xfer(len, len, off, off, [], 0, 0)]), u)
    else (st.(pool := p), u)
  }

  /** td_io_queue up to the engine call. */
  function Launch(st: Pass, u: int): Pass
    requires st.Has(u)
  {
    var x := st.xfers[u];
    st.(pool := SetFlight(st.pool, u, true), issues := st.issues + 1,
        xfers := st.xfers[u := x.(counted := x.counted + 1)])
  }

  function AddIssued(st: Pass, u: int, n: nat): Pass
    requires st.Has(u)
  {
    var x := st.xfers[u];
    st.(bytesIssued := st.bytesIssued + n, xfers := st.xfers[u := x.(issued := x.issued + n)])
  }

  /** The part of the current transfer that was done becomes a piece. */
  function Moved(x: Xfer, n: nat): Xfer {
    if n == 0 then x else x.(pieces := x.pieces + [Piece(x.offset, n)])
  }

  /** io_completed and put_io_u: credit buflen - resid unless in error. */
  function Complete(st: Pass, u: int, resid: nat, error: bool): Pass
    requires st.Has(u) && resid <= st.xfers[u].xferBuflen && resid <= st.xfers[u].buflen
  {
    var x := st.xfers[u];
    var credit := if error then 0 else x.buflen - resid;
    st.(pool := Put(SetFlight(st.pool, u, false), u),
        xfers := st.xfers[u := NoXfer],
        blocks := if error then st.blocks else st.blocks + 1,
        bytes := st.bytes + credit,
        log := st.log + [Done(if error then x else Moved(x, x.xferBuflen - resid), credit, error)])
  }

  /** requeue_io_u */
  function Return(st: Pass, u: int): Pass
    requires st.Has(u)
  {
    var x := st.xfers[u];
    if st.pool.units[u].flight then
      st.(pool := Requeue(st.pool, u), issues := st.issues - 1,
          xfers := st.xfers[u := x.(counted := x.counted - 1)])
    else st.(pool := Requeue(st.pool, u))
  }

  /** A short transfer: bytes_issued grows, the unit moves on to the rest. */
  function Shorten(st: Pass, u: int, resid: nat): Pass
    requires st.Has(u) && resid < st.xfers[u].xferBuflen
  {
    var n := st.xfers[u].xferBuflen - resid;
    var s := AddIssued(st, u, n);
    var x := Moved(s.xfers[u], n);
    s.(xfers := s.xfers[u := x.(xferBuflen := resid, offset := x.offset + n)])
  }

  /** The switch on the engine's answer. */
  function Settle(st: Pass, u: int, answer: Answer, fileSize: nat, batch: nat): Pass
    requires st.Has(u) && st.xfers[u].xferBuflen <= st.xfers[u].buflen
    requires answer.Completed? ==> answer.resid < st.xfers[u].xferBuflen
  {
    match answer
    case Completed(resid) =>
      if resid == 0 then
        Complete(AddIssued(st, u, st.xfers[u].xferBuflen), u, 0, false)
      else
        var s := Shorten(st, u, resid);
        if s.xfers[u].offset == fileSize
        then Complete(AddIssued(s, u, resid), u, resid, false)
        else Return(s, u)
    case CompletedError => Complete(st, u, 0, true)
    case Queued =>
      var s := AddIssued(st.(queued := Wrap(st.queued + 1)), u, st.xfers[u].xferBuflen);
      if s.queued >= batch then Commit(s) else s
    case Busy => Commit(Return(st, u))
  }

  /** td_io_getevents and ios_completed. */
  ghost predicate EventsOk(st: Pass, events: seq<Event>)
    decreases |events|
  {
    events == [] ||
    (var e := events[0];
     && st.Has(e.u) && st.pool.InFlight(e.u) && st.pool.Held(e.u)
     && e.resid <= st.xfers[e.u].xferBuflen && e.resid <= st.xfers[e.u].buflen
     && EventsOk(Complete(st, e.u, e.resid, e.error), events[1..]))
  }

  ghost function CompleteAll(st: Pass, events: seq<Event>): Pass
    requires EventsOk(st, events)
    decreases |events|
  {
    if events == [] then st
    else CompleteAll(Complete(st, events[0].u, events[0].resid, events[0].error), events[1..])
  }

  function Reaped(st: Pass, n: nat): Pass {
    st.(inFlight := Wrap(st.inFlight - n), reaped := st.reaped + n)
  }

  // ----- What the history says about one unit -----

  ghost predicate Contiguous(pieces: seq<Piece>, from: nat, to: nat) {
    if pieces == [] then from == to
    else
      var last := pieces[|pieces| - 1];
      && last.len > 0 && last.offset + last.len == to
      && Contiguous(pieces[..|pieces| - 1], from, last.offset)
  }

  ghost function Total(pieces: seq<Piece>): nat {
    if pieces == [] then 0 else Total(pieces[..|pieces| - 1]) + pieces[|pieces| - 1].len
  }

  lemma {:induction false} ContiguousTotal(pieces: seq<Piece>, from: nat, to: nat)
    requires Contiguous(pieces, from, to)
    ensures from + Total(pieces) == to
  {
    if pieces != [] {
      ContiguousTotal(pieces[..|pieces| - 1], from, pieces[|pieces| - 1].offset);
    }
  }

  lemma MovedContiguous(x: Xfer, n: nat)
    requires Contiguous(x.pieces, x.start, x.offset)
    ensures Contiguous(Moved(x, n).pieces, x.start, x.offset + n)
  {
    if n > 0 {
      var ps := x.pieces + [Piece(x.offset, n)];
      assert ps[..|ps| - 1] == x.pieces;
    }
  }

  /** A unit under way: what it moved is contiguous and what is left is the
      rest of the buffer. */
  ghost predicate XferOk(x: Xfer) {
    && Contiguous(x.pieces, x.start, x.offset)
    && x.start <= x.offset && x.offset - x.start + x.xferBuflen == x.buflen && x.xferBuflen > 0
  }

  ghost predicate DoneOk(d: Done) {
    && d.x.counted == 1
    && (!d.error ==>
          && d.x.issued == d.x.buflen
          && d.credited <= d.x.buflen
          && Contiguous(d.x.pieces, d.x.start, d.x.start + d.credited))
    && (d.error ==> d.credited == 0)
  }

  /** Retired transfers in plain words: the pieces cover the credited range
      without gap or overlap, the unit counts once, and all of its buffer was
      added to bytes_issued. */
  lemma DoneMeans(d: Done)
    requires DoneOk(d) && !d.error
    ensures d.credited == Total(d.x.pieces)
    ensures d.x.counted == 1 && d.x.issued == d.x.buflen
    ensures forall i :: 0 <= i < |d.x.pieces| ==>
              d.x.pieces[i].offset == d.x.start + Total(d.x.pieces[..i]) && d.x.pieces[i].len > 0
  {
    ContiguousTotal(d.x.pieces, d.x.start, d.x.start + d.credited);
    forall i | 0 <= i < |d.x.pieces|
      ensures d.x.pieces[i].offset == d.x.start + Total(d.x.pieces[..i]) && d.x.pieces[i].len > 0
    {
      PieceAt(d.x.pieces, d.x.start, d.x.start + d.credited, i);
    }
  }

  lemma {:induction false} PieceAt(pieces: seq<Piece>, from: nat, to: nat, i: nat)
    requires Contiguous(pieces, from, to) && i < |pieces|
    ensures pieces[i].offset == from + Total(pieces[..i]) && pieces[i].len > 0
    decreases |pieces|
  {
    var rest := pieces[..|pieces| - 1];
    if i < |rest| {
      PieceAt(rest, from, pieces[|pieces| - 1].offset, i);
      assert rest[..i] == pieces[..i];
    } else {
      ContiguousTotal(rest, from, pieces[|pieces| - 1].offset);
    }
  }

  // ----- Sums over units and over the log -----

  ghost function Issued(xs: seq<Xfer>): nat {
    if xs == [] then 0 else Issued(xs[..|xs| - 1]) + xs[|xs| - 1].issued
  }

  ghost function Counted(xs: seq<Xfer>): int {
    if xs == [] then 0 else Counted(xs[..|xs| - 1]) + xs[|xs| - 1].counted
  }

  lemma {:induction false} SumsUpdate(xs: seq<Xfer>, u: nat, x: Xfer)
    requires u < |xs|
    ensures Issued(xs[u := x]) == Issued(xs) - xs[u].issued + x.issued
    ensures Counted(xs[u := x]) == Counted(xs) - xs[u].counted + x.counted
    decreases |xs|
  {
    var n := |xs| - 1;
    if u < n {
      SumsUpdate(xs[..n], u, x);
      assert xs[u := x][..n] == xs[..n][u := x];
    } else {
      assert xs[u := x][..n] == xs[..n];
    }
  }

  ghost function LogXfers(log: seq<Done>): seq<Xfer> {
    seq(|log|, i requires 0 <= i < |log| => log[i].x)
  }

  ghost function Successes(log: seq<Done>): nat {
    if log == [] then 0 else Successes(log[..|log| - 1]) + if log[|log| - 1].error then 0 else 1
  }

  ghost function Credited(log: seq<Done>): nat {
    if log == [] then 0 else Credited(log[..|log| - 1]) + log[|log| - 1].credited
  }

  lemma LogAppend(log: seq<Done>, d: Done)
    ensures Successes(log + [d]) == Successes(log) + if d.error then 0 else 1
    ensures Credited(log + [d]) == Credited(log) + d.credited
    ensures Issued(LogXfers(log + [d])) == Issued(LogXfers(log)) + d.x.issued
  {
    assert (log + [d])[..|log|] == log;
    assert LogXfers(log + [d])[..|log|] == LogXfers(log);
  }

  // ----- The invariant -----

  /** The sums, and everything already retired. */
  ghost predicate Base(st: Pass) {
    && Ok(st.pool) && |st.xfers| == |st.pool.units| < U32
    && Sums(st)
  }

  ghost predicate Sums(st: Pass) {
    && st.issues == Counted(st.xfers) + |st.log|
    && st.blocks == Successes(st.log) && st.bytes == Credited(st.log)
    && st.bytesIssued == Issued(st.xfers) + Issued(LogXfers(st.log))
    && forall d <- st.log :: DoneOk(d)
  }

  ghost predicate UnitOk(st: Pass, v: int)
    requires st.Has(v)
  {
    var x := st.xfers[v];
    && (st.pool.Held(v) <==> st.pool.InFlight(v))
    && if st.pool.InFlight(v) then XferOk(x) && x.counted == 1 && x.issued == x.buflen
       else if v in st.pool.ring then XferOk(x) && x.counted == 0 && x.issued == x.offset - x.start
       else x == NoXfer
  }

  /** All units but u are as they are between two iterations. */
  ghost predicate Others(st: Pass, u: int) {
    forall v :: st.Has(v) && v != u ==> UnitOk(st, v)
  }

  /** Between two iterations, with k reaped events still to be completed. */
  ghost predicate PassOk(st: Pass, k: nat) {
    && Base(st) && Others(st, NULL)
    && Wrap(st.queued + st.inFlight + k) == st.pool.curDepth
  }

  /** Unit u is at the engine, which has not answered yet. */
  ghost predicate Asking(st: Pass, u: int) {
    && Base(st) && Others(st, u) && st.Has(u) && st.pool.Held(u) && st.pool.InFlight(u)
    && (var x := st.xfers[u]; XferOk(x) && x.counted == 1 && x.issued == x.offset - x.start)
    && Wrap(st.queued + st.inFlight) == st.pool.curDepth - 1
  }

  lemma StartOk(depth: nat)
    requires depth < U32
    ensures PassOk(Start(depth), 0)
  {
    InitOk(depth);
    NoXferSums(depth);
    assert LogXfers([]) == [];
  }

  lemma {:induction false} NoXferSums(n: nat)
    ensures Issued(seq(n, _ => NoXfer)) == 0 && Counted(seq(n, _ => NoXfer)) == 0
  {
    if n > 0 {
      NoXferSums(n - 1);
      assert seq(n, _ => NoXfer)[..n - 1] == seq(n - 1, _ => NoXfer);
    }
  }

  lemma CommitOk(st: Pass, k: nat)
    ensures Wrap(Commit(st).queued + Commit(st).inFlight + k) == Wrap(st.queued + st.inFlight + k)
    ensures Commit(st) == st.(queued := Commit(st).queued, inFlight := Commit(st).inFlight,
                              committed := Commit(st).committed)
  {
  }

  lemma CommitKeeps(st: Pass, k: nat)
    requires PassOk(st, k)
    ensures PassOk(Commit(st), k)
  {
    CommitOk(st, k);
    var s' := Commit(st);
    forall v | s'.Has(v) ensures UnitOk(s', v) {
      assert UnitOk(st, v);
    }
  }

  lemma TakenWas(p: Pool, target: bool, qd: int)
    requires Ok(p)
    ensures var (p', u) := Get(p, target, qd);
            && (u != NULL ==> (u in p.ring <==> p.ring != []))
            && (forall v :: v != u ==> (v in p'.ring <==> v in p.ring))
  {
    if p.ring != [] {
      DropFirst(p.free, p.ring);
      assert p.ring == [p.ring[0]] + p.ring[1..];
    }
  }

  /** Units whose flags, place and transfer stay the same stay in order. */
  lemma OthersKept(st: Pass, e: Pass, u: int)
    requires Others(st, u) || Others(st, NULL)
    requires |e.xfers| == |st.xfers| && |e.pool.units| == |st.pool.units|
    requires forall v :: v != u ==>
               && (e.pool.Held(v) <==> st.pool.Held(v)) && (e.pool.InFlight(v) <==> st.pool.InFlight(v))
               && (v in e.pool.ring <==> v in st.pool.ring)
    requires forall v :: 0 <= v < |e.xfers| && v != u ==> e.xfers[v] == st.xfers[v]
    ensures Others(e, u)
  {
    forall v | e.Has(v) && v != u ensures UnitOk(e, v) {
      assert UnitOk(st, v);
    }
  }

  lemma LaunchSums(st: Pass, s: Pass, u: int)
    requires Sums(st) && st.Has(u) && s.Has(u) && s.log == st.log
    requires s == st.(pool := s.pool, xfers := st.xfers[u := s.xfers[u]])
    requires s.xfers[u].issued == st.xfers[u].issued && s.xfers[u].counted == st.xfers[u].counted
    ensures Sums(Launch(s, u))
  {
    SumsUpdate(st.xfers, u, s.xfers[u]);
    SumsUpdate(s.xfers, u, Launch(s, u).xfers[u]);
  }

  /** The unit __get_io_u hands out: the longest requeued one with the rest of its
      transfer, or a free one set up for all of the new range. */
  lemma PrepareOk(st: Pass, target: bool, qd: int, off: nat, len: nat)
    requires PassOk(st, 0) && len > 0
    ensures var (s, u) := Prepare(st, target, qd, off, len);
            && (u == NULL ==> s == st)
            && (u != NULL ==>
                  && s.Has(u) && st.Has(u) && s == st.(pool := s.pool, xfers := st.xfers[u := s.xfers[u]])
                  && (var x := s.xfers[u]; XferOk(x) && x.counted == 0 && x.issued == x.offset - x.start)
                  && s.xfers[u].issued == st.xfers[u].issued && s.xfers[u].counted == st.xfers[u].counted
                  && s.xfers[u].pieces == st.xfers[u].pieces
                  && (if st.pool.ring == [] then s.xfers[u] == Xfer(len, len, off, off, [], 0, 0)
                      else u == st.pool.ring[0] && s.xfers[u] == st.xfers[u]))
  {
    GetOk(st.pool, target, qd);
    TakenWas(st.pool, target, qd);
    var (s, u) := Prepare(st, target, qd, off, len);
    if u != NULL {
      assert UnitOk(st, u);
    }
  }

  /** A unit taken from the pool and handed to the engine. */
  lemma LaunchOk(st: Pass, target: bool, qd: int, off: nat, len: nat)
    requires PassOk(st, 0) && len > 0
    ensures var (s, u) := Prepare(st, target, qd, off, len);
            u != NULL ==> s.Has(u) && !s.pool.InFlight(u) && Asking(Launch(s, u), u)
  {
    hide Sums;
    PrepareOk(st, target, qd, off, len);
    var (s, u) := Prepare(st, target, qd, off, len);
    if u != NULL {
      GetOk(st.pool, target, qd);
      FlightOk(s.pool, u, true);
      LaunchSums(st, s, u);
      TakenWas(st.pool, target, qd);
      OthersKept(st, Launch(s, u), u);
    }
  }

  /** A transfer ready to be retired with that residue. */
  ghost predicate Retirable(x: Xfer, resid: nat, error: bool) {
    && resid <= x.xferBuflen <= x.buflen && x.counted == 1
    && (!error ==> x.issued == x.buflen && Contiguous(x.pieces, x.start, x.offset)
                   && x.start <= x.offset && x.offset - x.start + x.xferBuflen == x.buflen)
  }

  lemma RetiredOk(x: Xfer, resid: nat, error: bool)
    requires Retirable(x, resid, error)
    ensures DoneOk(Done(if error then x else Moved(x, x.xferBuflen - resid),
                        if error then 0 else x.buflen - resid, error))
  {
    if !error {
      MovedContiguous(x, x.xferBuflen - resid);
    }
  }

  lemma CompleteSums(st: Pass, u: int, resid: nat, error: bool)
    requires Sums(st) && st.Has(u) && Retirable(st.xfers[u], resid, error)
    ensures Sums(Complete(st, u, resid, error))
  {
    hide Put, SetFlight, DoneOk, Issued, Counted, Successes, Credited, LogXfers, Contiguous;
    var x := st.xfers[u];
    var e := Complete(st, u, resid, error);
    var d := Done(if error then x else Moved(x, x.xferBuflen - resid), if error then 0 else x.buflen - resid, error);
    assert e.log == st.log + [d] && e.xfers == st.xfers[u := NoXfer];
    assert d.x.issued == x.issued;
    assert e.bytes == st.bytes + d.credited && e.blocks == st.blocks + if error then 0 else 1;
    assert e.issues == st.issues && e.bytesIssued == st.bytesIssued;
    RetiredOk(x, resid, error);
    hide Complete, Moved;
    SumsUpdate(st.xfers, u, NoXfer);
    LogAppend(st.log, d);
  }

  /** Retiring a unit, synchronously or from an event. */
  lemma CompleteOk(st: Pass, u: int, resid: nat, error: bool)
    requires Base(st) && Others(st, u) && st.Has(u) && st.pool.Held(u) && Retirable(st.xfers[u], resid, error)
    ensures var e := Complete(st, u, resid, error);
            Base(e) && Others(e, NULL) && e.pool.curDepth == st.pool.curDepth - 1
  {
    var e := Complete(st, u, resid, error);
    CompleteSums(st, u, resid, error);
    FlightOk(st.pool, u, false);
    PutOk(SetFlight(st.pool, u, false), u);
    OthersKept(st, e, u);
    OkPartitions(st.pool, u);
    assert UnitOk(e, u);
  }

  /** Only the transfer of u and its share of bytes_issued change. */
  lemma TouchOk(st: Pass, e: Pass, u: int)
    requires Base(st) && Others(st, u) && st.Has(u) && e.Has(u)
    requires e.pool == st.pool && e.log == st.log && e.xfers == st.xfers[u := e.xfers[u]]
    requires e.issues == st.issues && e.blocks == st.blocks && e.bytes == st.bytes
    requires e.xfers[u].counted == st.xfers[u].counted
    requires e.bytesIssued - st.bytesIssued == e.xfers[u].issued - st.xfers[u].issued
    ensures Base(e) && Others(e, u)
  {
    SumsUpdate(st.xfers, u, e.xfers[u]);
    OthersKept(st, e, u);
  }

  lemma ShortenOk(st: Pass, u: int, resid: nat)
    requires Asking(st, u) && 0 < resid < st.xfers[u].xferBuflen
    ensures Asking(Shorten(st, u, resid), u)
    ensures Shorten(st, u, resid).xfers[u].xferBuflen == resid < st.xfers[u].xferBuflen
    ensures Shorten(st, u, resid).xfers[u].buflen == st.xfers[u].buflen
  {
    var e := Shorten(st, u, resid);
    MovedContiguous(st.xfers[u], st.xfers[u].xferBuflen - resid);
    assert e.xfers == st.xfers[u := e.xfers[u]];
    TouchOk(st, e, u);
  }

  /** Completing the rest of the transfer, or stopping at the end of file: the
      whole remaining length goes to bytes_issued. */
  lemma FinishOk(st: Pass, u: int, resid: nat)
    requires Asking(st, u) && (resid == 0 || resid == st.xfers[u].xferBuflen)
    ensures var x := st.xfers[u];
            PassOk(Complete(AddIssued(st, u, x.xferBuflen), u, resid, false), 0)
  {
    var e := AddIssued(st, u, st.xfers[u].xferBuflen);
    TouchOk(st, e, u);
    CompleteOk(e, u, resid, false);
  }

  lemma ReturnOk(st: Pass, u: int)
    requires Asking(st, u)
    ensures PassOk(Return(st, u), 0)
  {
    var e := Return(st, u);
    RequeueOk(st.pool, u);
    SumsUpdate(st.xfers, u, e.xfers[u]);
    assert forall v :: v != u ==> (v in e.pool.ring <==> v in st.pool.ring);
    OthersKept(st, e, u);
    assert u in e.pool.ring;
    assert UnitOk(e, u);
  }

  lemma QueuedOk(st: Pass, u: int)
    requires Asking(st, u)
    ensures PassOk(AddIssued(st.(queued := Wrap(st.queued + 1)), u, st.xfers[u].xferBuflen), 0)
  {
    var s := st.(queued := Wrap(st.queued + 1));
    var e := AddIssued(s, u, st.xfers[u].xferBuflen);
    WrapShift(st.queued + 1, st.inFlight);
    WrapShift(st.queued + st.inFlight, 1);
    hide Ok, Wrap;
    OthersKept(st, s, u);
    TouchOk(s, e, u);
    assert UnitOk(e, u);
    DepthInRange(e.pool, u);
  }

  /** While a unit is held the depth is positive and fits an unsigned word. */
  lemma DepthInRange(p: Pool, u: int)
    requires Ok(p) && p.Held(u) && |p.units| < U32
    ensures 0 < p.curDepth < U32 && Wrap(p.curDepth) == p.curDepth
  {
    RoomForHeld(p, u);
  }

  lemma SyncOk(st: Pass, u: int, resid: nat, fileSize: nat)
    requires Asking(st, u) && resid < st.xfers[u].xferBuflen
    ensures PassOk(Settle(st, u, Completed(resid), fileSize, 0), 0)
  {
    if resid == 0 {
      FinishOk(st, u, 0);
    } else {
      var s := Shorten(st, u, resid);
      ShortenOk(st, u, resid);
      if s.xfers[u].offset == fileSize {
        FinishOk(s, u, resid);
      } else {
        ReturnOk(s, u);
      }
    }
  }

  lemma AsyncOk(st: Pass, u: int, batch: nat)
    requires Asking(st, u)
    ensures PassOk(Settle(st, u, Queued, 0, batch), 0)
  {
    hide PassOk;
    QueuedOk(st, u);
    CommitKeeps(AddIssued(st.(queued := Wrap(st.queued + 1)), u, st.xfers[u].xferBuflen), 0);
  }

  lemma BusyOk(st: Pass, u: int)
    requires Asking(st, u)
    ensures PassOk(Settle(st, u, Busy, 0, 0), 0)
  {
    hide PassOk;
    ReturnOk(st, u);
    CommitKeeps(Return(st, u), 0);
  }

  lemma SettleOk(st: Pass, u: int, answer: Answer, fileSize: nat, batch: nat)
    requires Asking(st, u) && (answer.Completed? ==> answer.resid < st.xfers[u].xferBuflen)
    ensures PassOk(Settle(st, u, answer, fileSize, batch), 0)
  {
    match answer
    case Completed(resid) => SyncOk(st, u, resid, fileSize);
    case CompletedError => CompleteOk(st, u, 0, true);
    case Queued => AsyncOk(st, u, batch);
    case Busy => BusyOk(st, u);
  }

  lemma OneEventOk(st: Pass, e: Event, k: nat)
    requires PassOk(st, k) && k > 0 && st.Has(e.u) && st.pool.InFlight(e.u) && st.pool.Held(e.u)
    requires e.resid <= st.xfers[e.u].xferBuflen && e.resid <= st.xfers[e.u].buflen
    ensures var s := Complete(st, e.u, e.resid, e.error);
            PassOk(s, k - 1) && s.pool.curDepth == st.pool.curDepth - 1 && s.blocks <= st.blocks + 1
  {
    assert UnitOk(st, e.u);
    CompleteOk(st, e.u, e.resid, e.error);
    DepthInRange(st.pool, e.u);
    hide Base, Others, UnitOk, Ok;
  }

  lemma {:induction false} CompleteAllOk(st: Pass, events: seq<Event>)
    requires PassOk(st, |events|) && EventsOk(st, events)
    ensures PassOk(CompleteAll(st, events), 0)
    ensures CompleteAll(st, events).pool.curDepth == st.pool.curDepth - |events|
    ensures CompleteAll(st, events).blocks + CompleteAll(st, events).pool.curDepth <= st.blocks + st.pool.curDepth
    decreases |events|
  {
    if events != [] {
      var e := events[0];
      OneEventOk(st, e, |events|);
      hide PassOk;
      CompleteAllOk(Complete(st, e.u, e.resid, e.error), events[1..]);
    }
  }

  // ----- Every run of a pass -----

  datatype Action =
    | Issue(target: bool, qd: int, off: nat, len: nat, answer: Answer, fileSize: nat, batch: nat)
    | Reap(events: seq<Event>)
    | Flush

  /** exceeds_number_ios; zero means no limit. */
  function Exceeds(st: Pass, numberIos: nat): bool {
    numberIos != 0 && st.blocks + Outstanding(st) >= numberIos
  }

  /** An iteration starts only below the limit.  The engine reports at least
      one byte of a completed transfer, and reaps units it was given. */
  ghost predicate Enabled(st: Pass, a: Action, numberIos: nat) {
    match a
    case Issue(target, qd, off, len, answer, _, batch) =>
      && !Exceeds(st, numberIos) && len > 0 && batch < U32
      && var (s, u) := Prepare(st, target, qd, off, len);
         u != NULL ==> s.Has(u) && s.xfers[u].xferBuflen <= s.xfers[u].buflen
                       && (answer.Completed? ==> answer.resid < s.xfers[u].xferBuflen)
    case Reap(events) => EventsOk(Reaped(st, |events|), events)
    case Flush => true
  }

  ghost function Apply(st: Pass, a: Action, numberIos: nat): Pass
    requires Enabled(st, a, numberIos)
  {
    match a
    case Issue(target, qd, off, len, answer, fileSize, batch) =>
      var (s, u) := Prepare(st, target, qd, off, len);
      if u == NULL then s else Settle(Launch(s, u), u, answer, fileSize, batch)
    case Reap(events) => CompleteAll(Reaped(st, |events|), events)
    case Flush => Commit(st)
  }

  lemma IssueOk(st: Pass, a: Action, numberIos: nat)
    requires PassOk(st, 0) && a.Issue? && Enabled(st, a, numberIos)
    ensures PassOk(Apply(st, a, numberIos), 0)
  {
    var (s, u) := Prepare(st, a.target, a.qd, a.off, a.len);
    PrepareOk(st, a.target, a.qd, a.off, a.len);
    if u != NULL {
      LaunchOk(st, a.target, a.qd, a.off, a.len);
      SettleOk(Launch(s, u), u, a.answer, a.fileSize, a.batch);
    }
  }

  /** One iteration adds at most one to completed plus outstanding units. */
  lemma IssueGrows(st: Pass, a: Action, numberIos: nat)
    requires PassOk(st, 0) && a.Issue? && Enabled(st, a, numberIos)
    ensures var e := Apply(st, a, numberIos);
            e.blocks + e.pool.curDepth <= st.blocks + st.pool.curDepth + 1
  {
    var (s, u) := Prepare(st, a.target, a.qd, a.off, a.len);
    PrepareOk(st, a.target, a.qd, a.off, a.len);
    if u != NULL {
      assert s.pool.curDepth == st.pool.curDepth + 1 && s.pool.units[u].inCurDepth by {
        GetOk(st.pool, a.target, a.qd);
      }
      SettleGrows(Launch(s, u), u, a.answer, a.fileSize, a.batch);
    }
  }

  lemma SettleGrows(st: Pass, u: int, answer: Answer, fileSize: nat, batch: nat)
    requires st.Has(u) && st.xfers[u].xferBuflen <= st.xfers[u].buflen && st.pool.units[u].inCurDepth
    requires answer.Completed? ==> answer.resid < st.xfers[u].xferBuflen
    ensures var e := Settle(st, u, answer, fileSize, batch);
            e.blocks + e.pool.curDepth <= st.blocks + st.pool.curDepth
  {
  }

  ghost predicate Safe(st: Pass, numberIos: nat) {
    PassOk(st, 0) && (numberIos != 0 ==> st.blocks + st.pool.curDepth <= numberIos)
  }

  lemma ReapedOk(st: Pass, n: nat)
    requires PassOk(st, 0)
    ensures PassOk(Reaped(st, n), n)
  {
    OthersKept(st, Reaped(st, n), NULL);
    hide Others, Ok;
  }

  lemma IssueSafe(st: Pass, a: Action, numberIos: nat)
    requires Safe(st, numberIos) && a.Issue? && Enabled(st, a, numberIos)
    ensures Safe(Apply(st, a, numberIos), numberIos)
  {
    RoomBelowLimit(st, numberIos);
    hide PassOk, Exceeds, Apply;
    IssueOk(st, a, numberIos);
    IssueGrows(st, a, numberIos);
  }

  /** The test reads the real number of outstanding units. */
  lemma RoomBelowLimit(st: Pass, numberIos: nat)
    requires PassOk(st, 0)
    ensures Exceeds(st, numberIos) <==> numberIos != 0 && st.blocks + st.pool.curDepth >= numberIos
  {
    hide Base, Others;
  }

  lemma StepSafe(st: Pass, a: Action, numberIos: nat)
    requires Safe(st, numberIos) && Enabled(st, a, numberIos)
    ensures Safe(Apply(st, a, numberIos), numberIos)
  {
    match a
    case Issue(_, _, _, _, _, _, _) =>
      IssueSafe(st, a, numberIos);
    case Reap(events) =>
      hide PassOk;
      ReapedOk(st, |events|);
      CompleteAllOk(Reaped(st, |events|), events);
    case Flush => CommitKeeps(st, 0);
  }

  ghost predicate Legal(st: Pass, run: seq<Action>, numberIos: nat)
    decreases |run|
  {
    run == [] || (Enabled(st, run[0], numberIos) && Legal(Apply(st, run[0], numberIos), run[1..], numberIos))
  }

  ghost function Run(st: Pass, run: seq<Action>, numberIos: nat): Pass
    requires Legal(st, run, numberIos)
    decreases |run|
  {
    if run == [] then st else Run(Apply(st, run[0], numberIos), run[1..], numberIos)
  }

  lemma {:induction false} RunSafe(st: Pass, run: seq<Action>, numberIos: nat)
    requires Safe(st, numberIos) && Legal(st, run, numberIos)
    ensures Safe(Run(st, run, numberIos), numberIos)
    decreases |run|
  {
    if run != [] {
      StepSafe(st, run[0], numberIos);
      RunSafe(Apply(st, run[0], numberIos), run[1..], numberIos);
    }
  }

  /** After every run: the unsigned sum of the two counters is exactly the
      number of units queued and not reaped, whatever the counters are alone;
      completed plus outstanding units stay within number_ios. */
  lemma OutstandingExact(depth: nat, run: seq<Action>, numberIos: nat)
    requires depth < U32 && Legal(Start(depth), run, numberIos)
    ensures var e := Run(Start(depth), run, numberIos);
            && Outstanding(e) == |HeldSet(e.pool)|
            && (forall u :: e.pool.Held(u) <==> e.pool.InFlight(u))
            && (numberIos != 0 ==> e.blocks + |HeldSet(e.pool)| <= numberIos)
  {
    hide Safe;
    ReachableSafe(depth, run, numberIos);
    SafeCounts(Run(Start(depth), run, numberIos), numberIos);
  }

  lemma ReachableSafe(depth: nat, run: seq<Action>, numberIos: nat)
    requires depth < U32 && Legal(Start(depth), run, numberIos)
    ensures Safe(Run(Start(depth), run, numberIos), numberIos)
  {
    StartOk(depth);
    hide PassOk;
    RunSafe(Start(depth), run, numberIos);
  }

  lemma SafeCounts(e: Pass, numberIos: nat)
    requires Safe(e, numberIos)
    ensures Outstanding(e) == |HeldSet(e.pool)|
    ensures forall u :: e.pool.Held(u) <==> e.pool.InFlight(u)
    ensures numberIos != 0 ==> e.blocks + |HeldSet(e.pool)| <= numberIos
  {
    CurDepthCountsHeld(e.pool);
    forall u ensures e.pool.Held(u) <==> e.pool.InFlight(u) {
      hide Ok, HeldSet;
      if e.Has(u) {
        assert UnitOk(e, u);
      }
    }
  }

  /** Between two iterations the units under way are counted once each. */
  lemma CountedIsHeld(st: Pass)
    requires PassOk(st, 0)
    ensures Counted(st.xfers) == |HeldSet(st.pool)|
  {
    CountedBelow(st, |st.xfers|);
    assert st.xfers[..|st.xfers|] == st.xfers;
    assert HeldBelow(st.pool, |st.xfers|) == HeldSet(st.pool);
  }

  ghost function HeldBelow(p: Pool, n: nat): set<int> {
    set u | 0 <= u < n && p.Held(u)
  }

  lemma {:induction false} CountedBelow(st: Pass, n: nat)
    requires n <= |st.xfers| == |st.pool.units| && Others(st, NULL)
    ensures Counted(st.xfers[..n]) == |HeldBelow(st.pool, n)|
  {
    if n > 0 {
      CountedBelow(st, n - 1);
      assert st.xfers[..n][..n - 1] == st.xfers[..n - 1];
      assert UnitOk(st, n - 1);
      hide Others, UnitOk;
      var rest := HeldBelow(st.pool, n - 1);
      assert n - 1 !in rest;
      assert HeldBelow(st.pool, n) == if st.pool.Held(n - 1) then rest + {n - 1} else rest;
    }
  }

  /** After every run: completions are credited with exactly what they moved,
      io_issues is the units retired plus those outstanding, each counted once
      however often it was requeued, and bytes_issued is the sum of the
      buffers retired or in flight and of what requeued units moved so far. */
  lemma TransfersExact(depth: nat, run: seq<Action>, numberIos: nat)
    requires depth < U32 && Legal(Start(depth), run, numberIos)
    ensures var e := Run(Start(depth), run, numberIos);
            && e.blocks == Successes(e.log) && e.bytes == Credited(e.log)
            && e.issues == |e.log| + |HeldSet(e.pool)|
            && e.bytesIssued == Issued(LogXfers(e.log)) + Issued(e.xfers)
            && (forall d <- e.log :: DoneOk(d))
            && (forall u :: e.Has(u) && e.pool.InFlight(u) ==>
                  e.xfers[u].counted == 1 && e.xfers[u].issued == e.xfers[u].buflen)
            && (forall u :: e.Has(u) && u in e.pool.ring ==>
                  && e.xfers[u].counted == 0 && 0 < e.xfers[u].xferBuflen <= e.xfers[u].buflen
                  && e.xfers[u].issued == Total(e.xfers[u].pieces) == e.xfers[u].buflen - e.xfers[u].xferBuflen)
  {
    ReachableSafe(depth, run, numberIos);
    var e := Run(Start(depth), run, numberIos);
    CountedIsHeld(e);
    forall u | e.Has(u) && e.pool.InFlight(u)
      ensures e.xfers[u].counted == 1 && e.xfers[u].issued == e.xfers[u].buflen
    {
      assert UnitOk(e, u);
    }
    forall u | e.Has(u) && u in e.pool.ring
      ensures && e.xfers[u].counted == 0 && 0 < e.xfers[u].xferBuflen <= e.xfers[u].buflen
              && e.xfers[u].issued == Total(e.xfers[u].pieces) == e.xfers[u].buflen - e.xfers[u].xferBuflen
    {
      assert UnitOk(e, u);
      OkPartitions(e.pool, u);
      ContiguousTotal(e.xfers[u].pieces, e.xfers[u].start, e.xfers[u].offset);
    }
  }

  // ----- What the engine reported -----

  /** Bytes recorded as pieces, over some transfers. */
  ghost function Recorded(xs: seq<Xfer>): nat {
    if xs == [] then 0 else Recorded(xs[..|xs| - 1]) + Total(xs[|xs| - 1].pieces)
  }

  lemma {:induction false} RecordedUpdate(xs: seq<Xfer>, u: nat, x: Xfer)
    requires u < |xs|
    ensures Recorded(xs[u := x]) == Recorded(xs) - Total(xs[u].pieces) + Total(x.pieces)
    decreases |xs|
  {
    hide Total;
    var n := |xs| - 1;
    if u < n {
      RecordedUpdate(xs[..n], u, x);
      assert xs[u := x][..n] == xs[..n][u := x];
    } else {
      assert xs[u := x][..n] == xs[..n];
    }
  }

  lemma RecordedAppend(log: seq<Done>, d: Done)
    ensures Recorded(LogXfers(log + [d])) == Recorded(LogXfers(log)) + Total(d.x.pieces)
  {
    assert LogXfers(log + [d])[..|log|] == LogXfers(log);
  }

  lemma MovedTotal(x: Xfer, n: nat)
    ensures Total(Moved(x, n).pieces) == Total(x.pieces) + n
  {
    if n > 0 {
      var ps := x.pieces + [Piece(x.offset, n)];
      assert ps[..|ps| - 1] == x.pieces;
    }
  }

  /** All bytes recorded so far, of retired units and of those under way. */
  ghost function AllRecorded(st: Pass): nat {
    Recorded(LogXfers(st.log)) + Recorded(st.xfers)
  }

  /** Units retired in error. */
  ghost function Failures(st: Pass): int {
    |st.log| - st.blocks
  }

  /** What an answer says was moved of a transfer. */
  function AnswerMoved(x: Xfer, answer: Answer): int {
    if answer.Completed? then x.xferBuflen - answer.resid else 0
  }

  /** What some events say was moved, and how many report an error. */
  ghost function EventsMoved(xs: seq<Xfer>, events: seq<Event>): int {
    if events == [] then 0
    else
      var e := events[|events| - 1];
      EventsMoved(xs, events[..|events| - 1])
      + if !e.error && 0 <= e.u < |xs| then xs[e.u].xferBuflen - e.resid else 0
  }

  ghost function EventErrors(events: seq<Event>): nat {
    if events == [] then 0 else EventErrors(events[..|events| - 1]) + if events[|events| - 1].error then 1 else 0
  }

  /** What the engine reports moved during an action. */
  ghost function ActionMoved(st: Pass, a: Action): int {
    match a
    case Issue(target, qd, off, len, answer, _, _) =>
      var (s, u) := Prepare(st, target, qd, off, len);
      if 0 <= u < |s.xfers| then AnswerMoved(s.xfers[u], answer) else 0
    case Reap(events) => EventsMoved(st.xfers, events)
    case Flush => 0
  }

  ghost function ActionErrors(st: Pass, a: Action): nat {
    match a
    case Issue(target, qd, off, len, answer, _, _) =>
      if Prepare(st, target, qd, off, len).1 != NULL && answer.CompletedError? then 1 else 0
    case Reap(events) => EventErrors(events)
    case Flush => 0
  }

  ghost function RunMoved(st: Pass, run: seq<Action>, numberIos: nat): int
    requires Legal(st, run, numberIos)
    decreases |run|
  {
    if run == [] then 0 else ActionMoved(st, run[0]) + RunMoved(Apply(st, run[0], numberIos), run[1..], numberIos)
  }

  ghost function RunErrors(st: Pass, run: seq<Action>, numberIos: nat): nat
    requires Legal(st, run, numberIos)
    decreases |run|
  {
    if run == [] then 0 else ActionErrors(st, run[0]) + RunErrors(Apply(st, run[0], numberIos), run[1..], numberIos)
  }

  lemma CompleteRecords(st: Pass, u: int, resid: nat, error: bool)
    requires st.Has(u) && resid <= st.xfers[u].xferBuflen && resid <= st.xfers[u].buflen
    ensures var e := Complete(st, u, resid, error);
            && AllRecorded(e) == AllRecorded(st) + (if error then 0 else st.xfers[u].xferBuflen - resid)
            && Failures(e) == Failures(st) + (if error then 1 else 0)
            && e.xfers == st.xfers[u := NoXfer]
  {
    var x := st.xfers[u];
    var e := Complete(st, u, resid, error);
    var d := e.log[|st.log|];
    assert e.log == st.log + [d];
    MovedTotal(x, x.xferBuflen - resid);
    assert Total(NoXfer.pieces) == 0;
    assert Total(d.x.pieces) == Total(x.pieces) + (if error then 0 else x.xferBuflen - resid);
    hide Complete, Total, Recorded, LogXfers, Moved;
    RecordedUpdate(st.xfers, u, NoXfer);
    RecordedAppend(st.log, d);
  }

  /** Only the transfer of u changes, by some pieces. */
  lemma TouchRecords(st: Pass, e: Pass, u: int)
    requires st.Has(u) && e.Has(u) && e.log == st.log && e.blocks == st.blocks && e.xfers == st.xfers[u := e.xfers[u]]
    ensures AllRecorded(e) == AllRecorded(st) - Total(st.xfers[u].pieces) + Total(e.xfers[u].pieces)
    ensures Failures(e) == Failures(st)
  {
    hide Total, Recorded, LogXfers;
    RecordedUpdate(st.xfers, u, e.xfers[u]);
  }

  lemma SyncRecords(st: Pass, u: int, resid: nat, fileSize: nat)
    requires st.Has(u) && resid < st.xfers[u].xferBuflen <= st.xfers[u].buflen
    ensures var e := Settle(st, u, Completed(resid), fileSize, 0);
            && AllRecorded(e) == AllRecorded(st) + st.xfers[u].xferBuflen - resid && Failures(e) == Failures(st)
  {
    hide AllRecorded, Failures, Total, Put, SetFlight;
    if resid == 0 {
      var s := AddIssued(st, u, st.xfers[u].xferBuflen);
      TouchRecords(st, s, u);
      CompleteRecords(s, u, 0, false);
    } else {
      var s := Shorten(st, u, resid);
      MovedTotal(AddIssued(st, u, st.xfers[u].xferBuflen - resid).xfers[u], st.xfers[u].xferBuflen - resid);
      assert s.xfers == st.xfers[u := s.xfers[u]];
      TouchRecords(st, s, u);
      if s.xfers[u].offset == fileSize {
        var s' := AddIssued(s, u, resid);
        TouchRecords(s, s', u);
        CompleteRecords(s', u, resid, false);
      } else {
        TouchRecords(s, Return(s, u), u);
      }
    }
  }

  lemma SettleRecords(st: Pass, u: int, answer: Answer, fileSize: nat, batch: nat)
    requires st.Has(u) && st.xfers[u].xferBuflen <= st.xfers[u].buflen
    requires answer.Completed? ==> answer.resid < st.xfers[u].xferBuflen
    ensures var e := Settle(st, u, answer, fileSize, batch);
            && AllRecorded(e) == AllRecorded(st) + AnswerMoved(st.xfers[u], answer)
            && Failures(e) == Failures(st) + (if answer.CompletedError? then 1 else 0)
  {
    match answer
    case Completed(resid) => SyncRecords(st, u, resid, fileSize);
    case CompletedError => CompleteRecords(st, u, 0, true);
    case Queued =>
      hide Total, Recorded, LogXfers;
      TouchRecords(st, AddIssued(st.(queued := Wrap(st.queued + 1)), u, st.xfers[u].xferBuflen), u);
    case Busy =>
      hide Total, Recorded, LogXfers, Requeue;
      TouchRecords(st, Return(st, u), u);
  }

  lemma IssueRecords(st: Pass, a: Action, numberIos: nat)
    requires PassOk(st, 0) && a.Issue? && Enabled(st, a, numberIos)
    ensures var e := Apply(st, a, numberIos);
            AllRecorded(e) == AllRecorded(st) + ActionMoved(st, a) && Failures(e) == Failures(st) + ActionErrors(st, a)
  {
    hide PassOk, AllRecorded, Failures, Settle, Total, XferOk, Asking, Prepare, SetFlight, Exceeds;
    var (s, u) := Prepare(st, a.target, a.qd, a.off, a.len);
    PrepareOk(st, a.target, a.qd, a.off, a.len);
    LaunchOk(st, a.target, a.qd, a.off, a.len);
    if u != NULL {
      LaunchRecords(st, s, u);
      SettleRecords(Launch(s, u), u, a.answer, a.fileSize, a.batch);
    }
  }

  lemma LaunchRecords(st: Pass, s: Pass, u: int)
    requires st.Has(u) && s.Has(u) && s == st.(pool := s.pool, xfers := st.xfers[u := s.xfers[u]])
    requires s.xfers[u].pieces == st.xfers[u].pieces
    ensures AllRecorded(Launch(s, u)) == AllRecorded(st) && Failures(Launch(s, u)) == Failures(st)
    ensures Launch(s, u).Has(u) && Launch(s, u).xfers[u].xferBuflen == s.xfers[u].xferBuflen
    ensures Launch(s, u).xfers[u].buflen == s.xfers[u].buflen
  {
    hide AllRecorded, Total;
    TouchRecords(st, s, u);
    TouchRecords(s, Launch(s, u), u);
  }

  lemma {:induction false} ReapRecords(st: Pass, events: seq<Event>)
    requires EventsOk(st, events)
    ensures var e := CompleteAll(st, events);
            && AllRecorded(e) == AllRecorded(st) + EventsMoved(st.xfers, events)
            && Failures(e) == Failures(st) + EventErrors(events)
    decreases |events|
  {
    if events != [] {
      var e := events[0];
      var s := Complete(st, e.u, e.resid, e.error);
      CompleteRecords(st, e.u, e.resid, e.error);
      ReapRecords(s, events[1..]);
      NotAgain(s, events[1..], e.u);
      FirstEvent(st.xfers, events);
      SameMoved(st.xfers, s.xfers, events[1..], e.u);
    }
  }

  /** A completed unit cannot be reaped again. */
  lemma {:induction false} NotAgain(st: Pass, events: seq<Event>, u: int)
    requires EventsOk(st, events) && !st.pool.InFlight(u)
    ensures forall k :: 0 <= k < |events| ==> events[k].u != u
    decreases |events|
  {
    if events != [] {
      var s := Complete(st, events[0].u, events[0].resid, events[0].error);
      NotAgain(s, events[1..], u);
      assert forall k :: 0 < k < |events| ==> events[k] == events[1..][k - 1];
    }
  }

  lemma {:induction false} SameMoved(xs: seq<Xfer>, ys: seq<Xfer>, events: seq<Event>, u: int)
    requires |xs| == |ys| && (forall v :: 0 <= v < |xs| && v != u ==> xs[v] == ys[v])
    requires forall k :: 0 <= k < |events| ==> events[k].u != u
    ensures EventsMoved(xs, events) == EventsMoved(ys, events)
    decreases |events|
  {
    if events != [] {
      SameMoved(xs, ys, events[..|events| - 1], u);
    }
  }

  lemma {:induction false} FirstEvent(xs: seq<Xfer>, events: seq<Event>)
    requires events != []
    ensures EventsMoved(xs, events) == EventsMoved(xs, events[..1]) + EventsMoved(xs, events[1..])
    ensures EventErrors(events) == EventErrors(events[..1]) + EventErrors(events[1..])
    ensures EventsMoved(xs, events[..1]) ==
              var e := events[0]; if !e.error && 0 <= e.u < |xs| then xs[e.u].xferBuflen - e.resid else 0
    ensures EventErrors(events[..1]) == if events[0].error then 1 else 0
    decreases |events|
  {
    assert events[..1][..0] == [];
    if |events| == 1 {
      assert events[1..] == [] && events[..1] == events;
    } else {
      var front := events[..|events| - 1];
      FirstEvent(xs, front);
      assert front[..1] == events[..1] && front[1..] == events[1..][..|events| - 2];
    }
  }

  lemma {:induction false} RunRecords(st: Pass, run: seq<Action>, numberIos: nat)
    requires Safe(st, numberIos) && Legal(st, run, numberIos)
    ensures var e := Run(st, run, numberIos);
            && AllRecorded(e) == AllRecorded(st) + RunMoved(st, run, numberIos)
            && Failures(e) == Failures(st) + RunErrors(st, run, numberIos)
    decreases |run|
  {
    if run != [] {
      StepSafe(st, run[0], numberIos);
      StepRecords(st, run[0], numberIos);
      hide Safe, Enabled, Apply, AllRecorded, Failures, ActionMoved, ActionErrors;
      RunRecords(Apply(st, run[0], numberIos), run[1..], numberIos);
    }
  }

  lemma StepRecords(st: Pass, a: Action, numberIos: nat)
    requires Safe(st, numberIos) && Enabled(st, a, numberIos)
    ensures var e := Apply(st, a, numberIos);
            AllRecorded(e) == AllRecorded(st) + ActionMoved(st, a) && Failures(e) == Failures(st) + ActionErrors(st, a)
  {
    match a
    case Issue(_, _, _, _, _, _, _) =>
      hide PassOk;
      IssueRecords(st, a, numberIos);
    case Reap(events) =>
      hide PassOk;
      ReapRecords(Reaped(st, |events|), events);
    case Flush => hide PassOk;
  }

  /** Bytes recorded in the log for units that ended in error, or for the others. */
  ghost function LogMoved(log: seq<Done>, error: bool): nat {
    if log == [] then 0
    else LogMoved(log[..|log| - 1], error) + if log[|log| - 1].error == error then Total(log[|log| - 1].x.pieces) else 0
  }

  lemma {:induction false} LogSplits(log: seq<Done>)
    requires forall d <- log :: DoneOk(d)
    ensures Recorded(LogXfers(log)) == LogMoved(log, false) + LogMoved(log, true)
    ensures Credited(log) == LogMoved(log, false)
  {
    if log != [] {
      var front, d := log[..|log| - 1], log[|log| - 1];
      assert d in log && forall x <- front :: x in log;
      LogSplits(front);
      assert log == front + [d];
      RecordedAppend(front, d);
      if !d.error {
        ContiguousTotal(d.x.pieces, d.x.start, d.x.start + d.credited);
      }
      hide DoneOk, Recorded, LogXfers, Total, Contiguous;
    } else {
      assert LogXfers(log) == [];
    }
  }

  /** Nothing the engine reports is lost or invented: after every run, the bytes
      credited, those of units that ended in error and those of units still under
      way add up to what its answers and events reported; and the units retired are
      the successes and as many failures as it reported. */
  lemma ReportsAccounted(depth: nat, run: seq<Action>, numberIos: nat)
    requires depth < U32 && Legal(Start(depth), run, numberIos)
    ensures var e := Run(Start(depth), run, numberIos);
            && e.bytes + LogMoved(e.log, true) + Recorded(e.xfers) == RunMoved(Start(depth), run, numberIos)
            && |e.log| == e.blocks + RunErrors(Start(depth), run, numberIos)
  {
    StartOk(depth);
    NothingRecorded(depth);
    ReachableSafe(depth, run, numberIos);
    RunRecords(Start(depth), run, numberIos);
    var e := Run(Start(depth), run, numberIos);
    LogSplits(e.log);
  }

  lemma NothingRecorded(depth: nat)
    ensures AllRecorded(Start(depth)) == 0 && Failures(Start(depth)) == 0
  {
    assert LogXfers([]) == [];
    NoXferRecords(depth);
  }

  lemma {:induction false} NoXferRecords(n: nat)
    ensures Recorded(seq(n, _ => NoXfer)) == 0
  {
    if n > 0 {
      NoXferRecords(n - 1);
      assert seq(n, _ => NoXfer)[..n - 1] == seq(n - 1, _ => NoXfer);
    }
  }

  /** A synchronous answer in plain words.  In full, the whole buffer is credited;
      short at the end of the file, the range up to there; short elsewhere, nothing
      yet, and the unit waits on the ring with exactly the rest still to do. */
  lemma SyncExact(st: Pass, u: int, resid: nat, fileSize: nat, batch: nat)
    requires Asking(st, u) && resid < st.xfers[u].xferBuflen
    ensures var e := Settle(st, u, Completed(resid), fileSize, batch); var x := st.xfers[u];
            var reached := x.offset + x.xferBuflen - resid;
            && (resid == 0 ==> e.bytes == st.bytes + x.buflen && e.blocks == st.blocks + 1)
            && (resid > 0 && reached == fileSize ==>
                  e.bytes == st.bytes + fileSize - x.start && e.blocks == st.blocks + 1)
            && (resid > 0 && reached != fileSize ==>
                  && e.bytes == st.bytes && e.blocks == st.blocks && e.log == st.log
                  && e.pool.ring == st.pool.ring + [u]
                  && e.xfers[u].offset == reached && e.xfers[u].xferBuflen == resid
                  && e.xfers[u].start == x.start && e.xfers[u].buflen == x.buflen)
            && e.queued == st.queued && e.inFlight == st.inFlight
  {
  }

  /** An error answer credits nothing and adds nothing to bytes_issued. */
  lemma ErrorExact(st: Pass, u: int, fileSize: nat, batch: nat)
    requires Asking(st, u)
    ensures var e := Settle(st, u, CompletedError, fileSize, batch);
            && e.bytes == st.bytes && e.blocks == st.blocks && e.bytesIssued == st.bytesIssued
            && |e.log| == |st.log| + 1 && e.issues == st.issues && e.pool.curDepth == st.pool.curDepth - 1
  {
    CompleteOk(st, u, 0, true);
  }

  /** A reaped event is credited with what earlier rounds moved plus what it reports. */
  lemma EventExact(st: Pass, e: Event, k: nat)
    requires PassOk(st, k) && st.Has(e.u) && st.pool.InFlight(e.u) && e.resid <= st.xfers[e.u].xferBuflen
    ensures var x := st.xfers[e.u];
            && e.resid <= x.buflen
            && var s := Complete(st, e.u, e.resid, e.error);
               && s.bytes == st.bytes + (if e.error then 0 else Total(x.pieces) + x.xferBuflen - e.resid)
               && s.blocks == st.blocks + (if e.error then 0 else 1)
  {
    assert UnitOk(st, e.u);
    ContiguousTotal(st.xfers[e.u].pieces, st.xfers[e.u].start, st.xfers[e.u].offset);
  }

  // ----- The counter of units in flight alone -----

  /** Without wrap-around, queued units plus those committed and not yet reaped
      are the outstanding ones; io_u_in_flight is the second part, unsigned. */
  ghost predicate Tallied(st: Pass) {
    && st.queued + 1 < U32
    && st.inFlight == Wrap(st.committed - st.reaped)
    && st.queued + st.committed - st.reaped == st.pool.curDepth
  }

  lemma TallyFrom(st: Pass)
    requires PassOk(st, 0) && st.inFlight == Wrap(st.committed - st.reaped)
    requires 0 <= st.queued + st.committed - st.reaped < U32
    ensures st.queued + st.committed - st.reaped == st.pool.curDepth
  {
    hide Base, Others;
    WrapShift(st.committed - st.reaped, st.queued);
  }

  lemma CommitTally(st: Pass)
    requires st.inFlight == Wrap(st.committed - st.reaped)
    ensures var e := Commit(st);
            && e.inFlight == Wrap(e.committed - e.reaped) && e.reaped == st.reaped
            && e.queued + e.committed == st.queued + st.committed && e.queued <= st.queued
            && (st.pool.curDepth != 0 ==> e.queued == 0)
  {
    WrapShift(st.committed - st.reaped, st.queued);
    hide Wrap;
  }

  lemma SettleTally(st: Pass, u: int, answer: Answer, fileSize: nat, batch: nat)
    requires st.Has(u) && st.xfers[u].xferBuflen <= st.xfers[u].buflen
    requires answer.Completed? ==> answer.resid < st.xfers[u].xferBuflen
    requires st.queued + 1 < U32 && batch < U32 && st.inFlight == Wrap(st.committed - st.reaped)
    requires st.pool.curDepth != 0
    ensures var e := Settle(st, u, answer, fileSize, batch);
            && e.queued + 1 < U32 && e.inFlight == Wrap(e.committed - e.reaped) && e.reaped == st.reaped
            && e.queued + e.committed == st.queued + st.committed + (if answer.Queued? then 1 else 0)
            && (e.queued == (if answer.Queued? then st.queued + 1 else st.queued) || e.queued == 0)
            && (answer.Queued? ==> e.queued < batch || e.queued == 0)
            && (answer.Busy? ==> e.queued == 0 || e.pool.curDepth == 0)
  {
    match answer
    case Queued =>
      hide Put, Requeue, SetFlight;
      CommitTally(AddIssued(st.(queued := Wrap(st.queued + 1)), u, st.xfers[u].xferBuflen));
    case Busy =>
      hide Put, Requeue, SetFlight;
      CommitTally(Return(st, u));
    case Completed(resid) => hide Put, Requeue, SetFlight, Wrap;
    case CompletedError => hide Put, Requeue, SetFlight, Wrap;
  }

  lemma IssueMoves(st: Pass, a: Action, numberIos: nat)
    requires PassOk(st, 0) && Tallied(st) && a.Issue? && Enabled(st, a, numberIos)
    ensures var e := Apply(st, a, numberIos);
            && e.queued + 1 < U32 && e.inFlight == Wrap(e.committed - e.reaped)
            && 0 <= e.queued + e.committed - e.reaped < U32
            && (e.queued <= st.queued || e.queued < a.batch)
  {
    hide PassOk, Settle, Prepare, Wrap, Asking, XferOk, SetFlight, Get, Ok, Exceeds;
    var (s, u) := Prepare(st, a.target, a.qd, a.off, a.len);
    PrepareOk(st, a.target, a.qd, a.off, a.len);
    LaunchOk(st, a.target, a.qd, a.off, a.len);
    PrepareTakes(st, a.target, a.qd, a.off, a.len);
    DepthNow(st);
    if u != NULL {
      LaunchedDepth(st, s, u, a.target, a.qd);
      SettleTally(Launch(s, u), u, a.answer, a.fileSize, a.batch);
    }
  }

  lemma PrepareTakes(st: Pass, target: bool, qd: int, off: nat, len: nat)
    ensures (Prepare(st, target, qd, off, len).0.pool, Prepare(st, target, qd, off, len).1) == Get(st.pool, target, qd)
  {
    hide Get;
  }

  lemma DepthNow(st: Pass)
    requires PassOk(st, 0)
    ensures Ok(st.pool) && 0 <= st.pool.curDepth < U32
  {
  }

  lemma IssueTally(st: Pass, a: Action, numberIos: nat)
    requires PassOk(st, 0) && Tallied(st) && a.Issue? && Enabled(st, a, numberIos)
    ensures Tallied(Apply(st, a, numberIos))
  {
    hide PassOk, Apply, Enabled, Wrap;
    IssueOk(st, a, numberIos);
    IssueMoves(st, a, numberIos);
    TallyFrom(Apply(st, a, numberIos));
  }

  lemma LaunchedDepth(st: Pass, s: Pass, u: int, target: bool, qd: int)
    requires Ok(st.pool) && u != NULL && (s.pool, u) == Get(st.pool, target, qd)
    requires s.Has(u) && Asking(Launch(s, u), u)
    ensures 0 < Launch(s, u).pool.curDepth == st.pool.curDepth + 1 < U32 && Launch(s, u).Has(u)
  {
    GetOk(st.pool, target, qd);
    DepthInRange(Launch(s, u).pool, u);
  }

  lemma ReapTally(st: Pass, events: seq<Event>)
    requires PassOk(st, 0) && Tallied(st) && EventsOk(Reaped(st, |events|), events)
    ensures Tallied(CompleteAll(Reaped(st, |events|), events))
  {
    hide PassOk, Wrap, CompleteAll, EventsOk;
    WrapShift(st.committed - st.reaped, -1 * |events|);
    ReapedOk(st, |events|);
    CompleteAllOk(Reaped(st, |events|), events);
    CompleteAllCounts(Reaped(st, |events|), events);
  }

  lemma StepTally(st: Pass, a: Action, numberIos: nat)
    requires Safe(st, numberIos) && Tallied(st) && Enabled(st, a, numberIos)
    ensures Tallied(Apply(st, a, numberIos))
  {
    match a
    case Issue(_, _, _, _, _, _, _) =>
      hide PassOk, Tallied;
      IssueTally(st, a, numberIos);
    case Reap(events) =>
      hide PassOk, Tallied;
      ReapTally(st, events);
    case Flush =>
      hide PassOk;
      CommitTally(st);
  }

  lemma {:induction false} CompleteAllCounts(st: Pass, events: seq<Event>)
    requires EventsOk(st, events)
    ensures var e := CompleteAll(st, events);
            e.queued == st.queued && e.inFlight == st.inFlight && e.committed == st.committed && e.reaped == st.reaped
    decreases |events|
  {
    if events != [] {
      CompleteAllCounts(Complete(st, events[0].u, events[0].resid, events[0].error), events[1..]);
    }
  }

  lemma {:induction false} RunTally(st: Pass, run: seq<Action>, numberIos: nat)
    requires Safe(st, numberIos) && Tallied(st) && Legal(st, run, numberIos)
    ensures Tallied(Run(st, run, numberIos))
    decreases |run|
  {
    hide Safe, Tallied, Enabled, Apply;
    if run != [] {
      StepSafe(st, run[0], numberIos);
      StepTally(st, run[0], numberIos);
      RunTally(Apply(st, run[0], numberIos), run[1..], numberIos);
    }
  }

  /** Whatever the engine answers, fewer units than a batch stay queued. */
  lemma {:induction false} QueuedBelowBatch(st: Pass, run: seq<Action>, numberIos: nat, batch: nat)
    requires Safe(st, numberIos) && Tallied(st) && Legal(st, run, numberIos) && st.queued < batch
    requires forall k :: 0 <= k < |run| && run[k].Issue? ==> run[k].batch == batch
    ensures Run(st, run, numberIos).queued < batch
    decreases |run|
  {
    if run != [] {
      OneBelowBatch(st, run[0], numberIos, batch);
      StepSafe(st, run[0], numberIos);
      StepTally(st, run[0], numberIos);
      hide Safe, Tallied, Enabled, Apply;
      QueuedBelowBatch(Apply(st, run[0], numberIos), run[1..], numberIos, batch);
    }
  }

  lemma OneBelowBatch(st: Pass, a: Action, numberIos: nat, batch: nat)
    requires Safe(st, numberIos) && Tallied(st) && Enabled(st, a, numberIos) && st.queued < batch
    requires a.Issue? ==> a.batch == batch
    ensures Apply(st, a, numberIos).queued < batch
  {
    match a
    case Issue(_, _, _, _, _, _, _) =>
      hide PassOk, Apply, Enabled, Wrap;
      IssueMoves(st, a, numberIos);
    case Reap(events) =>
      hide PassOk, Wrap;
      CompleteAllCounts(Reaped(st, |events|), events);
    case Flush =>
      hide PassOk;
      CommitTally(st);
  }

  /** From the start, with a batch size of at least one. */
  lemma BatchLimitsQueue(depth: nat, run: seq<Action>, numberIos: nat, batch: nat)
    requires depth < U32 && Legal(Start(depth), run, numberIos) && batch > 0
    requires forall k :: 0 <= k < |run| && run[k].Issue? ==> run[k].batch == batch
    ensures Run(Start(depth), run, numberIos).queued < batch
  {
    StartOk(depth);
    QueuedBelowBatch(Start(depth), run, numberIos, batch);
  }

  /** After every run, io_u_in_flight is the number of units committed less the
      number of events reaped, and it has wrapped exactly when more events were
      reaped than units committed. */
  lemma InFlightExact(depth: nat, run: seq<Action>, numberIos: nat)
    requires depth < U32 && Legal(Start(depth), run, numberIos)
    ensures var e := Run(Start(depth), run, numberIos);
            && e.queued + e.committed - e.reaped == |HeldSet(e.pool)|
            && e.inFlight == (if e.reaped <= e.committed then 0 else U32) + e.committed - e.reaped
            && (e.inFlight == e.committed - e.reaped <==> e.reaped <= e.committed)
  {
    StartOk(depth);
    RunTally(Start(depth), run, numberIos);
    ReachableSafe(depth, run, numberIos);
    var e := Run(Start(depth), run, numberIos);
    TallyRange(e, numberIos);
  }

  lemma TallyRange(e: Pass, numberIos: nat)
    requires Safe(e, numberIos) && Tallied(e)
    ensures e.queued + e.committed - e.reaped == |HeldSet(e.pool)|
    ensures e.inFlight == (if e.reaped <= e.committed then 0 else U32) + e.committed - e.reaped
  {
    CurDepthCountsHeld(e.pool);
    assert e.pool.curDepth < U32;
    if e.reaped > e.committed {
      ModIs(e.committed - e.reaped, U32, -1, U32 + e.committed - e.reaped);
    }
  }

  /** Reaping before a commit takes io_u_in_flight below zero: alone it wraps,
      and only the sum is meaningful. */
  lemma InFlightAloneWraps(off: nat, len: nat)
    requires len > 0
    ensures var run := [Issue(false, 0, off, len, Queued, 0, 2), Reap([Event(0, 0, false)])];
            && Legal(Start(1), run, 0)
            && Run(Start(1), run, 0).inFlight == U32 - 1 && Run(Start(1), run, 0).queued == 1
            && Outstanding(Run(Start(1), run, 0)) == 0
  {
    var issue, reap := Issue(false, 0, off, len, Queued, 0, 2), Reap([Event(0, 0, false)]);
    var s0 := Start(1);
    assert s0.pool.free == [0];
    var s1 := Apply(s0, issue, 0);
    assert s1.pool.InFlight(0) && s1.queued == 1 && s1.inFlight == 0;
    var r := Reaped(s1, 1);
    assert EventsOk(r, [Event(0, 0, false)]) by { assert [Event(0, 0, false)][1..] == []; }
    var s2 := Apply(s1, reap, 0);
    assert s2 == Complete(r, 0, 0, false) by { assert [Event(0, 0, false)][1..] == []; }
    assert [issue, reap][1..] == [reap];
    LastAction(s1, reap, 0);
  }

  lemma LastAction(st: Pass, a: Action, numberIos: nat)
    requires Enabled(st, a, numberIos)
    ensures Legal(st, [a], numberIos) && Run(st, [a], numberIos) == Apply(st, a, numberIos)
  {
    assert [a][1..] == [];
  }

  // ----- The same, performed in place -----

  class ThreadData {
    var pool: Pool
    var xfers: seq<Xfer>
    var ioUQueued: nat
    var ioUInFlight: nat
    var ioIssues: int
    var thisIoBlocks: nat
    var thisIoBytes: nat
    var bytesIssued: nat
    var log: seq<Done>
    var committed: nat
    var reaped: nat

    ghost function State(): Pass
      reads this
    {
      Pass(pool, xfers, ioUQueued, ioUInFlight, ioIssues, thisIoBlocks, thisIoBytes, bytesIssued, log,
           committed, reaped)
    }

    constructor (depth: nat)
      ensures State() == Start(depth)
    {
      pool := InitPool(depth);
      xfers := seq(depth, _ => NoXfer);
      ioUQueued, ioUInFlight, ioIssues := 0, 0, 0;
      thisIoBlocks, thisIoBytes, bytesIssued := 0, 0, 0;
      log, committed, reaped := [], 0, 0;
    }

    method TdIoCommit()
      modifies this
      ensures State() == Commit(old(State()))
    {
      if pool.curDepth == 0 || ioUQueued == 0 {
        return;
      }
      ioUInFlight := Wrap(ioUInFlight + ioUQueued);
      committed := committed + ioUQueued;
      ioUQueued := 0;
    }

    /** td_io_queue: the unit must not be in flight already. */
    method TdIoQueue(u: int, answer: Answer, batch: nat)
      requires State().Has(u) && !pool.InFlight(u)
      modifies this
      ensures State() == var s := Launch(old(State()), u);
                         if !answer.Queued? then s
                         else var q := s.(queued := Wrap(s.queued + 1));
                              if q.queued >= batch then Commit(q) else q
    {
      pool := SetFlight(pool, u, true);
      ioIssues := ioIssues + 1;
      xfers := xfers[u := xfers[u].(counted := xfers[u].counted + 1)];
      if answer.Queued? {
        ioUQueued := Wrap(ioUQueued + 1);
        if ioUQueued >= batch {
          TdIoCommit();
        }
      }
    }

    method IoCompleted(u: int, resid: nat, error: bool)
      requires State().Has(u) && resid <= xfers[u].xferBuflen && resid <= xfers[u].buflen
      modifies this
      ensures State() == Complete(old(State()), u, resid, error)
    {
      var x := xfers[u];
      pool := SetFlight(pool, u, false);
      var credit := 0;
      if !error {
        credit := x.buflen - resid;
        thisIoBlocks := thisIoBlocks + 1;
        thisIoBytes := thisIoBytes + credit;
        x := Moved(x, x.xferBuflen - resid);
      }
      log := log + [Done(x, credit, error)];
      xfers := xfers[u := NoXfer];
      pool := Put(pool, u);
    }

    method RequeueIoU(u: int)
      requires State().Has(u)
      modifies this
      ensures State() == Return(old(State()), u)
    {
      if pool.units[u].flight {
        ioIssues := ioIssues - 1;
        xfers := xfers[u := xfers[u].(counted := xfers[u].counted - 1)];
      }
      pool := Requeue(pool, u);
    }

    method AddBytesIssued(u: int, n: nat)
      requires State().Has(u)
      modifies this
      ensures State() == AddIssued(old(State()), u, n)
    {
      bytesIssued := bytesIssued + n;
      xfers := xfers[u := xfers[u].(issued := xfers[u].issued + n)];
    }

    /** The FIO_Q_COMPLETED case without an error. */
    method SyncDone(u: int, resid: nat, fileSize: nat)
      requires State().Has(u) && resid < xfers[u].xferBuflen <= xfers[u].buflen
      modifies this
      ensures State() == Settle(old(State()), u, Completed(resid), fileSize, 0)
    {
      if resid != 0 {
        var bytes := xfers[u].xferBuflen - resid;
        AddBytesIssued(u, bytes);
        xfers := xfers[u := Moved(xfers[u], bytes)];
        xfers := xfers[u := xfers[u].(xferBuflen := resid, offset := xfers[u].offset + bytes)];
        assert State() == Shorten(old(State()), u, resid);
        if xfers[u].offset != fileSize {
          RequeueIoU(u);
          return;
        }
      }
      AddBytesIssued(u, xfers[u].xferBuflen);
      IoCompleted(u, resid, false);
    }

    /** get_io_u: a requeued unit is ready, a free one is filled. */
    method GetIoU(target: bool, qd: int, off: nat, len: nat) returns (u: int)
      modifies this
      ensures (State(), u) == Prepare(old(State()), target, qd, off, len)
    {
      var requeued := pool.ring != [];
      var (p, unit) := Get(pool, target, qd);
      pool, u := p, unit;
      if !requeued && 0 <= u < |xfers| {
        xfers := xfers[u := Xfer(len, len, off, off, [], 0, 0)];
      }
    }

    /** td_io_queue and the switch on its result. */
    method Dispatch(u: int, answer: Answer, fileSize: nat, batch: nat)
      requires State().Has(u) && !pool.InFlight(u) && xfers[u].xferBuflen <= xfers[u].buflen
      requires answer.Completed? ==> answer.resid < xfers[u].xferBuflen
      modifies this
      ensures State() == Settle(Launch(old(State()), u), u, answer, fileSize, batch)
    {
      TdIoQueue(u, answer, batch);
      match answer
      case Completed(resid) =>
        SyncDone(u, resid, fileSize);
      case CompletedError =>
        IoCompleted(u, 0, true);
      case Queued =>
        AddBytesIssued(u, xfers[u].xferBuflen);
      case Busy =>
        RequeueIoU(u);
        TdIoCommit();
    }

    /** One iteration of the do_io loop up to the reap. */
    method DoIoIteration(a: Action, numberIos: nat)
      requires a.Issue? && Enabled(State(), a, numberIos) && PassOk(State(), 0)
      modifies this
      ensures State() == Apply(old(State()), a, numberIos)
    {
      LaunchOk(State(), a.target, a.qd, a.off, a.len);
      var u := GetIoU(a.target, a.qd, a.off, a.len);
      if u != NULL {
        Dispatch(u, a.answer, a.fileSize, a.batch);
      }
    }

    /** td_io_getevents and ios_completed. */
    method IoUQueuedComplete(events: seq<Event>)
      requires EventsOk(Reaped(State(), |events|), events)
      modifies this
      ensures State() == CompleteAll(Reaped(old(State()), |events|), events)
    {
      ioUInFlight := Wrap(ioUInFlight - |events|);
      reaped := reaped + |events|;
      ghost var target := CompleteAll(State(), events);
      for i := 0 to |events|
        invariant EventsOk(State(), events[i..])
        invariant CompleteAll(State(), events[i..]) == target
      {
        var rest := events[i..];
        assert rest[0] == events[i] && rest[1..] == events[i + 1..];
        IoCompleted(events[i].u, events[i].resid, events[i].error);
      }
    }

    /** The pass as a loop; the script holds the engine's answers. */
    method DoIo(script: seq<Action>, numberIos: nat)
      requires Safe(State(), numberIos) && Legal(State(), script, numberIos)
      modifies this
      ensures State() == Run(old(State()), script, numberIos) && Safe(State(), numberIos)
    {
      ghost var target := Run(State(), script, numberIos);
      for i := 0 to |script|
        invariant Safe(State(), numberIos) && Legal(State(), script[i..], numberIos)
        invariant Run(State(), script[i..], numberIos) == target
      {
        assert script[i..][0] == script[i] && script[i..][1..] == script[i + 1..];
        StepSafe(State(), script[i], numberIos);
        match script[i] {
          case Issue(_, _, _, _, _, _, _) => DoIoIteration(script[i], numberIos);
          case Reap(events) => IoUQueuedComplete(events);
          case Flush => TdIoCommit();
        }
      }
    }
  }
}
