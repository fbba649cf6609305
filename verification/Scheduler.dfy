/**
 Starting and reaping jobs (run_threads and reap_threads in backend.c), with
 start delays and stonewall barriers.  Jobs run concurrently: between any two
 actions of the scheduler a created job may finish initialising and a running
 job may exit.  Those moves, the clock and waitpid are inputs.
 */
module Scheduler {
  import opened Bits

  /** Running stands for every state from TD_RAMP to TD_FINISHING. */
  datatype RunState = NotCreated | Created | Initialized | Running | Exited | Reaped

  /** `rate` and `ratemin` are the sums over the data directions. */
  datatype Job = Job(stonewall: bool, useThread: bool, rate: nat, ratemin: nat)

  /** A job moving on its own. */
  datatype Move = Initializes(i: nat) | Exits(i: nat)

  function MoveOne(st: seq<RunState>, m: Move): seq<RunState> {
    match m
    case Initializes(i) => if i < |st| && st[i] == Created then st[i := Initialized] else st
    case Exits(i) => if i < |st| && st[i] == Running then st[i := Exited] else st
  }

  function MoveAll(st: seq<RunState>, ms: seq<Move>): seq<RunState>
    decreases |ms|
  {
    if ms == [] then st else MoveAll(MoveOne(st, ms[0]), ms[1..])
  }

  lemma OneMove(st: seq<RunState>, m: Move)
    ensures MoveAll(st, [m]) == MoveOne(st, m)
  {
    assert [m][1..] == [];
  }

  /** Where a job gets to on its own during some moves. */
  ghost function MovedTo(s: RunState, i: nat, ms: seq<Move>): RunState {
    match s
    case Created => if Initializes(i) in ms then Initialized else Created
    case Running => if Exits(i) in ms then Exited else Running
    case _ => s
  }

  lemma {:induction false} MoveAllIs(st: seq<RunState>, ms: seq<Move>)
    ensures |MoveAll(st, ms)| == |st|
    ensures forall i :: 0 <= i < |st| ==> MoveAll(st, ms)[i] == MovedTo(st[i], i, ms)
    decreases |ms|
  {
    if ms != [] {
      var st' := MoveOne(st, ms[0]);
      MoveAllIs(st', ms[1..]);
      forall i | 0 <= i < |st| ensures MovedTo(st'[i], i, ms[1..]) == MovedTo(st[i], i, ms) {
        assert ms == [ms[0]] + ms[1..];
      }
    }
  }

  /** The job has exited, or has been reaped. */
  predicate Over(s: RunState) {
    s == Exited || s == Reaped
  }

  // ----- Counting -----

  datatype Phase = Todo | Starting | Active

  predicate InPhase(s: RunState, ph: Phase) {
    match ph
    case Todo => s == NotCreated || s == Created || s == Initialized
    case Starting => s == Created || s == Initialized
    case Active => s == Running || s == Exited
  }

  ghost function Count(st: seq<RunState>, ph: Phase): nat {
    if st == [] then 0
    else Count(st[..|st| - 1], ph) + if InPhase(st[|st| - 1], ph) then 1 else 0
  }

  ghost function Share(job: Job, s: RunState, min: bool): nat {
    if InPhase(s, Active) then (if min then job.ratemin else job.rate) else 0
  }

  /** Sum of the chosen rate over the jobs started and not reaped. */
  ghost function Rates(jobs: seq<Job>, st: seq<RunState>, min: bool): nat
    requires |jobs| == |st|
  {
    if st == [] then 0
    else
      var n := |st| - 1;
      Rates(jobs[..n], st[..n], min) + Share(jobs[n], st[n], min)
  }

  lemma {:induction false} CountUpdate(st: seq<RunState>, i: nat, x: RunState, ph: Phase)
    requires i < |st|
    ensures Count(st[i := x], ph) == Count(st, ph)
              - (if InPhase(st[i], ph) then 1 else 0) + (if InPhase(x, ph) then 1 else 0)
    decreases |st|
  {
    var n := |st| - 1;
    if i < n {
      CountUpdate(st[..n], i, x, ph);
      assert st[i := x][..n] == st[..n][i := x];
    } else {
      assert st[i := x][..n] == st[..n];
    }
  }

  lemma {:induction false} RatesUpdate(jobs: seq<Job>, st: seq<RunState>, i: nat, x: RunState, min: bool)
    requires |jobs| == |st| && i < |st|
    ensures Rates(jobs, st[i := x], min) == Rates(jobs, st, min) - Share(jobs[i], st[i], min) + Share(jobs[i], x, min)
    decreases |st|
  {
    var n := |st| - 1;
    if i < n {
      RatesUpdate(jobs[..n], st[..n], i, x, min);
      assert st[i := x][..n] == st[..n][i := x];
    } else {
      assert st[i := x][..n] == st[..n];
    }
  }

  lemma {:induction false} CountZero(st: seq<RunState>, ph: Phase)
    ensures Count(st, ph) == 0 <==> forall i :: 0 <= i < |st| ==> !InPhase(st[i], ph)
  {
    if st != [] {
      var n := |st| - 1;
      CountZero(st[..n], ph);
      assert forall i :: 0 <= i < n ==> st[..n][i] == st[i];
    }
  }

  // ----- The scheduler's counters -----

  datatype Counters = Counters(todo: int, nrStarted: int, nrRunning: int, mRate: nat, tRate: nat)

  /** The counters say exactly what their names say; the two rates are unsigned
      32-bit sums. */
  ghost predicate Exact(c: Counters, jobs: seq<Job>, st: seq<RunState>) {
    && |jobs| == |st|
    && c.todo == Count(st, Todo) && c.nrStarted == Count(st, Starting) && c.nrRunning == Count(st, Active)
    && c.mRate == Wrap(Rates(jobs, st, true)) && c.tRate == Wrap(Rates(jobs, st, false))
  }

  lemma UpdateAll(jobs: seq<Job>, st: seq<RunState>, i: nat, x: RunState)
    requires |jobs| == |st| && i < |st|
    ensures forall ph :: Count(st[i := x], ph) == Count(st, ph)
              - (if InPhase(st[i], ph) then 1 else 0) + (if InPhase(x, ph) then 1 else 0)
    ensures forall min :: Rates(jobs, st[i := x], min) ==
              Rates(jobs, st, min) - Share(jobs[i], st[i], min) + Share(jobs[i], x, min)
  {
    forall ph
      ensures Count(st[i := x], ph) == Count(st, ph)
                - (if InPhase(st[i], ph) then 1 else 0) + (if InPhase(x, ph) then 1 else 0)
    {
      CountUpdate(st, i, x, ph);
    }
    forall min
      ensures Rates(jobs, st[i := x], min) == Rates(jobs, st, min) - Share(jobs[i], st[i], min) + Share(jobs[i], x, min)
    {
      RatesUpdate(jobs, st, i, x, min);
    }
  }

  /** Jobs that move on their own never disturb the counters, never undo a
      creation and never undo a reap. */
  lemma {:induction false} MovesKeepExact(c: Counters, jobs: seq<Job>, st: seq<RunState>, ms: seq<Move>)
    requires Exact(c, jobs, st)
    ensures Exact(c, jobs, MoveAll(st, ms))
    ensures forall i :: 0 <= i < |st| ==> (MoveAll(st, ms)[i] == NotCreated <==> st[i] == NotCreated)
    ensures forall i :: 0 <= i < |st| ==> (MoveAll(st, ms)[i] == Reaped <==> st[i] == Reaped)
    ensures forall i :: 0 <= i < |st| ==> (InPhase(MoveAll(st, ms)[i], Starting) <==> InPhase(st[i], Starting))
    decreases |ms|
  {
    if ms != [] {
      MoveKeepsExact(c, jobs, st, ms[0]);
      hide Exact, MoveOne;
      MovesKeepExact(c, jobs, MoveOne(st, ms[0]), ms[1..]);
    }
  }

  lemma MoveKeepsExact(c: Counters, jobs: seq<Job>, st: seq<RunState>, m: Move)
    requires Exact(c, jobs, st)
    ensures Exact(c, jobs, MoveOne(st, m)) && |MoveOne(st, m)| == |st|
    ensures forall i :: 0 <= i < |st| ==> (MoveOne(st, m)[i] == NotCreated <==> st[i] == NotCreated)
    ensures forall i :: 0 <= i < |st| ==> (MoveOne(st, m)[i] == Reaped <==> st[i] == Reaped)
    ensures forall i :: 0 <= i < |st| ==> (InPhase(MoveOne(st, m)[i], Starting) <==> InPhase(st[i], Starting))
  {
    if m.i < |st| {
      UpdateAll(jobs, st, m.i, MoveOne(st, m)[m.i]);
    }
    hide Count, Rates, Wrap;
  }

  lemma CreatedExact(c: Counters, jobs: seq<Job>, st: seq<RunState>, i: nat)
    requires Exact(c, jobs, st) && i < |st| && st[i] == NotCreated
    ensures Exact(c.(nrStarted := c.nrStarted + 1), jobs, st[i := Created])
  {
    UpdateAll(jobs, st, i, Created);
    hide Wrap, Count, Rates;
  }

  lemma StartedExact(c: Counters, jobs: seq<Job>, st: seq<RunState>, i: nat)
    requires Exact(c, jobs, st) && i < |st| && st[i] == Initialized
    ensures Exact(Counters(c.todo - 1, c.nrStarted - 1, c.nrRunning + 1,
                           Wrap(c.mRate + jobs[i].ratemin), Wrap(c.tRate + jobs[i].rate)),
                  jobs, st[i := Running])
  {
    UpdateAll(jobs, st, i, Running);
    WrapShift(Rates(jobs, st, true), jobs[i].ratemin);
    WrapShift(Rates(jobs, st, false), jobs[i].rate);
    hide Wrap, Count, Rates;
  }

  lemma ReapedExact(c: Counters, jobs: seq<Job>, st: seq<RunState>, i: nat)
    requires Exact(c, jobs, st) && i < |st| && InPhase(st[i], Active)
    ensures Exact(Counters(c.todo, c.nrStarted, c.nrRunning - 1,
                           Wrap(c.mRate + -1 * jobs[i].ratemin), Wrap(c.tRate + -1 * jobs[i].rate)),
                  jobs, st[i := Reaped])
  {
    UpdateAll(jobs, st, i, Reaped);
    WrapShift(Rates(jobs, st, true), -1 * jobs[i].ratemin);
    WrapShift(Rates(jobs, st, false), -1 * jobs[i].rate);
    hide Wrap, Count, Rates;
  }

  /** What was true when a job was created: its number, the states just before
      and which jobs were still in their start delay in that pass. */
  datatype Creation = Creation(job: nat, before: seq<RunState>, delayed: seq<bool>)

  /** A stonewall job starts only once every job created before it is reaped;
      no job overtakes a lower-numbered one that is not waiting out its delay. */
  ghost predicate BarrierKept(jobs: seq<Job>, c: Creation) {
    && c.job < |jobs| == |c.before| == |c.delayed|
    && c.before[c.job] == NotCreated && !c.delayed[c.job]
    && (jobs[c.job].stonewall ==> forall j :: 0 <= j < |jobs| ==> c.before[j] == NotCreated || c.before[j] == Reaped)
    && (forall j :: 0 <= j < c.job && c.before[j] == NotCreated ==> c.delayed[j])
  }

  /** Created jobs stay created, and each creation saw all earlier ones. */
  ghost predicate InOrder(log: seq<Creation>, st: seq<RunState>) {
    && (forall c <- log :: c.job < |st| && st[c.job] != NotCreated)
    && (forall k, m :: 0 <= k < m < |log| ==>
          log[k].job < |log[m].before| && log[m].before[log[k].job] != NotCreated)
  }

  /** Every job created is in the log. */
  ghost predicate Complete(log: seq<Creation>, st: seq<RunState>) {
    forall i :: 0 <= i < |st| && st[i] != NotCreated ==> Logged(log, i)
  }

  ghost predicate Logged(log: seq<Creation>, i: nat) {
    exists c :: c in log && c.job == i
  }

  /** What the log of creations says at any time. */
  ghost predicate Recorded(jobs: seq<Job>, log: seq<Creation>, st: seq<RunState>) {
    Complete(log, st) && InOrder(log, st) && forall c <- log :: BarrierKept(jobs, c)
  }

  lemma StaysComplete(log: seq<Creation>, st: seq<RunState>, c: Creation)
    requires Complete(log, st) && c.job < |st|
    ensures Complete(log + [c], st[c.job := Created])
  {
    assert c in log + [c];
    forall i | 0 <= i < |st| && i != c.job && st[i] != NotCreated ensures Logged(log + [c], i) {
      var d :| d in log && d.job == i;
      assert d in log + [c];
    }
  }

  lemma LogExtends(jobs: seq<Job>, log: seq<Creation>, st: seq<RunState>, c: Creation)
    requires Recorded(jobs, log, st) && BarrierKept(jobs, c) && c.before == st
    ensures Recorded(jobs, log + [c], st[c.job := Created])
  {
    StaysComplete(log, st, c);
    hide Complete, BarrierKept;
    assert c.job < |st| by {
      assert BarrierKept(jobs, c);
    }
  }

  /** Jobs already created may move on. */
  lemma LogStays(jobs: seq<Job>, log: seq<Creation>, st: seq<RunState>, st': seq<RunState>)
    requires Recorded(jobs, log, st) && |st| == |st'|
    requires forall i :: 0 <= i < |st| ==> (st'[i] == NotCreated <==> st[i] == NotCreated)
    ensures Recorded(jobs, log, st')
  {
    hide BarrierKept;
  }

  /** Two creations, the earlier one first: they are of different jobs, and if
      the later job is a stonewall, the earlier one had been reaped by then. */
  ghost predicate Separated(jobs: seq<Job>, earlier: Creation, later: Creation) {
    && earlier.job != later.job
    && later.job < |jobs| && earlier.job < |later.before|
    && (jobs[later.job].stonewall ==> later.before[earlier.job] == Reaped)
  }

  lemma StonewallSeparates(jobs: seq<Job>, log: seq<Creation>, st: seq<RunState>, k: nat, m: nat)
    requires Recorded(jobs, log, st) && k < m < |log|
    ensures Separated(jobs, log[k], log[m])
  {
    assert BarrierKept(jobs, log[m]) && BarrierKept(jobs, log[k]);
  }

  /** The outside world during one round. */
  datatype Round = Round(delayed: seq<bool>, during: seq<seq<Move>>, reaping: seq<seq<Move>>, dead: seq<bool>)

  ghost predicate Sized(jobs: seq<Job>, r: Round) {
    |r.delayed| == |r.during| == |r.reaping| == |r.dead| == |jobs|
  }

  /** Whatever is running when it is looked at has ended. */
  ghost predicate Ending(jobs: seq<Job>, reaping: seq<seq<Move>>, dead: seq<bool>)
    requires |reaping| == |dead| == |jobs|
  {
    forall i :: 0 <= i < |jobs| ==> Exits(i) in reaping[i] || (!jobs[i].useThread && dead[i])
  }

  ghost predicate ExitsIn(i: nat, mss: seq<seq<Move>>, from: nat, to: nat) {
    exists k :: from <= k < to && k < |mss| && Exits(i) in mss[k]
  }

  /** waitpid reports the job's process dead; a thread has none. */
  ghost predicate FoundDead(jobs: seq<Job>, dead: seq<bool>, i: nat) {
    i < |jobs| && i < |dead| && !jobs[i].useThread && dead[i]
  }

  /** In the course of the round the job exited or was found dead. */
  ghost predicate EndsIn(jobs: seq<Job>, r: Round, i: nat) {
    || ExitsIn(i, r.during, 0, |r.during|)
    || ExitsIn(i, r.reaping, 0, |r.reaping|)
    || FoundDead(jobs, r.dead, i)
  }

  /** What n turns of reap_threads make of a job: at its own turn an active job is
      reaped exactly if it has exited by then or is found dead. */
  ghost function ReapedTo(jobs: seq<Job>, s: RunState, reaping: seq<seq<Move>>, dead: seq<bool>,
                          i: nat, n: nat): RunState
  {
    if !InPhase(s, Active) then s
    else if i < n && (s == Exited || ExitsIn(i, reaping, 0, i + 1) || FoundDead(jobs, dead, i)) then Reaped
    else if s == Exited || ExitsIn(i, reaping, 0, n) then Exited
    else Running
  }

  ghost predicate SameReaped(a: seq<RunState>, b: seq<RunState>) {
    |a| == |b| && forall i :: 0 <= i < |a| ==> (a[i] == Reaped <==> b[i] == Reaped)
  }

  ghost predicate EndsDuring(jobs: seq<Job>, rounds: seq<Round>, i: nat) {
    exists r :: r in rounds && EndsIn(jobs, r, i)
  }

  /** Nobody is reaped who did not end: every job that is over in `now` was over
      at the start or has since exited or been found dead. */
  ghost predicate Justified(jobs: seq<Job>, start: seq<RunState>, rounds: seq<Round>, now: seq<RunState>) {
    |now| == |start| && forall i :: 0 <= i < |now| && Over(now[i]) ==> Over(start[i]) || EndsDuring(jobs, rounds, i)
  }

  /** The same for the states in which a job was created. */
  ghost predicate BarrierReal(jobs: seq<Job>, start: seq<RunState>, rounds: seq<Round>, c: Creation) {
    && |c.before| == |start|
    && forall i :: 0 <= i < |start| && c.before[i] == Reaped ==> Over(start[i]) || EndsDuring(jobs, rounds, i)
  }

  /** One round: whoever is over now was over before it or ends in it. */
  ghost predicate EndsOnly(jobs: seq<Job>, r: Round, was: seq<RunState>, now: seq<RunState>) {
    |now| == |was| && forall i :: 0 <= i < |now| && Over(now[i]) ==> Over(was[i]) || EndsIn(jobs, r, i)
  }

  lemma EndsLonger(jobs: seq<Job>, rounds: seq<Round>, k: nat, i: nat)
    requires k < |rounds|
    ensures EndsDuring(jobs, rounds[..k], i) ==> EndsDuring(jobs, rounds[..k + 1], i)
    ensures EndsIn(jobs, rounds[k], i) ==> EndsDuring(jobs, rounds[..k + 1], i)
  {
    hide EndsIn;
    assert rounds[..k + 1] == rounds[..k] + [rounds[k]];
  }

  lemma RoundJustified(jobs: seq<Job>, start: seq<RunState>, rounds: seq<Round>, k: nat,
                       was: seq<RunState>, now: seq<RunState>)
    requires k < |rounds| && Justified(jobs, start, rounds[..k], was) && EndsOnly(jobs, rounds[k], was, now)
    ensures Justified(jobs, start, rounds[..k + 1], now)
  {
    hide EndsIn, EndsDuring;
    forall i | 0 <= i < |now| && Over(now[i]) ensures Over(start[i]) || EndsDuring(jobs, rounds[..k + 1], i) {
      EndsLonger(jobs, rounds, k, i);
    }
  }

  lemma CreationsReal(jobs: seq<Job>, start: seq<RunState>, rounds: seq<Round>, k: nat,
                      was: seq<RunState>, log: seq<Creation>, from: nat, to: nat)
    requires k < |rounds| && Justified(jobs, start, rounds[..k], was) && from <= to <= |log|
    requires forall m :: from <= m < to ==> BarrierReal(jobs, start, rounds[..k], log[m])
    requires forall m :: to <= m < |log| ==> SameReaped(log[m].before, was)
    ensures forall m :: from <= m < |log| ==> BarrierReal(jobs, start, rounds[..k + 1], log[m])
  {
    hide EndsIn, EndsDuring;
    forall m | from <= m < |log| ensures BarrierReal(jobs, start, rounds[..k + 1], log[m]) {
      forall i | 0 <= i < |start| ensures EndsDuring(jobs, rounds[..k], i) ==> EndsDuring(jobs, rounds[..k + 1], i) {
        EndsLonger(jobs, rounds, k, i);
      }
    }
  }

  lemma {:induction false} Extend(jobs: seq<Job>, start: seq<RunState>, rounds: seq<Round>, k: nat,
                                  now: seq<RunState>, log: seq<Creation>, from: nat)
    requires k <= |rounds| && Justified(jobs, start, rounds[..k], now) && from <= |log|
    requires forall m :: from <= m < |log| ==> BarrierReal(jobs, start, rounds[..k], log[m])
    ensures Justified(jobs, start, rounds, now)
    ensures forall m :: from <= m < |log| ==> BarrierReal(jobs, start, rounds, log[m])
    decreases |rounds| - k
  {
    if k < |rounds| {
      hide EndsIn, EndsDuring;
      assert EndsOnly(jobs, rounds[k], now, now);
      RoundJustified(jobs, start, rounds, k, now, now);
      CreationsReal(jobs, start, rounds, k, now, log, from, |log|);
      Extend(jobs, start, rounds, k + 1, now, log, from);
    } else {
      assert rounds[..k] == rounds;
    }
  }

  lemma ReapEndsOnly(jobs: seq<Job>, r: Round, was: seq<RunState>, now: seq<RunState>)
    requires Sized(jobs, r) && |now| == |was| == |jobs|
    requires forall i :: 0 <= i < |now| ==> now[i] == ReapedTo(jobs, was[i], r.reaping, r.dead, i, |jobs|)
    ensures EndsOnly(jobs, r, was, now)
  {
  }

  /** At or before job i there is a stonewall job that is due but not created. */
  ghost predicate BehindWall(jobs: seq<Job>, st: seq<RunState>, delayed: seq<bool>, i: nat) {
    exists k :: 0 <= k <= i && k < |jobs| && k < |st| && k < |delayed|
                && st[k] == NotCreated && !delayed[k] && jobs[k].stonewall
  }

  ghost predicate NoDelay(delayed: seq<bool>) {
    forall i :: 0 <= i < |delayed| ==> !delayed[i]
  }

  /** A round in which no job is in its start delay and running jobs end. */
  ghost predicate Kind(jobs: seq<Job>, r: Round)
    requires Sized(jobs, r)
  {
    NoDelay(r.delayed) && Ending(jobs, r.reaping, r.dead)
  }

  ghost function KindRounds(jobs: seq<Job>, rounds: seq<Round>): nat
    requires forall r <- rounds :: Sized(jobs, r)
  {
    if rounds == [] then 0 else KindRounds(jobs, rounds[1..]) + if Kind(jobs, rounds[0]) then 1 else 0
  }

  /** Two rounds at most for a job not yet running, one for those that run. */
  ghost function Left(c: Counters): int {
    2 * c.todo + if c.nrRunning > 0 then 1 else 0
  }

  class RunThreads {
    const jobs: seq<Job>
    var st: seq<RunState>
    var todo: int
    var nrStarted: int
    var nrRunning: int
    var mRate: nat
    var tRate: nat
    var log: seq<Creation>

    ghost function Now(): Counters
      reads this
    {
      Counters(todo, nrStarted, nrRunning, mRate, tRate)
    }

    ghost predicate Valid()
      reads this
    {
      Exact(Now(), jobs, st) && Recorded(jobs, log, st)
    }

    constructor (js: seq<Job>)
      ensures Valid() && jobs == js && log == []
      ensures forall i :: 0 <= i < |st| ==> st[i] == NotCreated
    {
      jobs := js;
      st := seq(|js|, _ => NotCreated);
      todo, nrStarted, nrRunning, mRate, tRate := |js|, 0, 0, 0, 0;
      log := [];
      new;
      InitialCounts(jobs, st);
    }

    /** Other jobs run for a while. */
    method Interfere(ms: seq<Move>)
      requires Valid()
      modifies this`st
      ensures Valid() && st == MoveAll(old(st), ms) && |st| == |old(st)|
      ensures forall i :: 0 <= i < |st| ==> (st[i] == NotCreated <==> old(st)[i] == NotCreated)
      ensures forall i :: 0 <= i < |st| ==> (st[i] == Reaped <==> old(st)[i] == Reaped)
      ensures forall i :: 0 <= i < |st| ==> (InPhase(st[i], Starting) <==> InPhase(old(st)[i], Starting))
    {
      MovesKeepExact(Now(), jobs, st, ms);
      LogStays(jobs, log, st, MoveAll(st, ms));
      hide Recorded, Count, Rates, Wrap;
      st := MoveAll(st, ms);
    }

    /** TD_NOT_CREATED -> TD_CREATED, one job. */
    method CreateJob(i: nat, delayed: seq<bool>)
      requires Valid() && |delayed| == |jobs| && i < |jobs| && st[i] == NotCreated && !delayed[i]
      requires jobs[i].stonewall ==> nrStarted == 0 && nrRunning == 0
      requires forall j :: 0 <= j < i && st[j] == NotCreated ==> delayed[j]
      modifies this
      ensures Valid() && log == old(log) + [Creation(i, old(st), delayed)]
      ensures st == old(st)[i := Created] && todo == old(todo) && nrRunning == old(nrRunning)
      ensures nrStarted == old(nrStarted) + 1
    {
      NothingAround(Now(), jobs, st);
      var c := Creation(i, st, delayed);
      LogExtends(jobs, log, st, c);
      CreatedExact(Now(), jobs, st, i);
      hide Recorded, BarrierKept, Count, Rates, Wrap;
      log := log + [c];
      st := st[i := Created];
      nrStarted := nrStarted + 1;
    }

    /** The creation pass.  A job in its delay is passed over; a
        stonewall job ends the pass while anything is started or running, and
        nothing else keeps a job from being created. */
    method CreateJobs(delayed: seq<bool>, during: seq<seq<Move>>)
      requires Valid() && |delayed| == |during| == |jobs|
      modifies this
      ensures Valid() && old(log) <= log
      ensures todo == old(todo) && nrRunning == old(nrRunning)
      ensures NoDelay(delayed) && old(nrStarted) == 0 && nrRunning == 0 && todo > 0 ==> nrStarted > 0
      ensures forall i :: 0 <= i < |st| && st[i] == NotCreated && !delayed[i] ==>
                BehindWall(jobs, st, delayed, i) && (nrStarted != 0 || nrRunning != 0)
      ensures forall i :: 0 <= i < |st| ==> (st[i] == Reaped <==> old(st)[i] == Reaped)
      ensures forall i :: 0 <= i < |st| && Over(st[i]) ==> Over(old(st)[i]) || ExitsIn(i, during, 0, |during|)
      ensures forall m :: |old(log)| <= m < |log| ==> SameReaped(log[m].before, old(st))
    {
      hide Recorded, Exact, MoveAll;
      NeverNegative(Now(), jobs, st);
      for i := 0 to |jobs|
        invariant Valid() && old(log) <= log && |st| == |old(st)| == |jobs|
        invariant todo == old(todo) && nrRunning == old(nrRunning) && nrStarted >= old(nrStarted)
        invariant forall j :: 0 <= j < i && st[j] == NotCreated ==> delayed[j]
        invariant forall j :: 0 <= j < |st| ==> (st[j] == Reaped <==> old(st)[j] == Reaped)
        invariant forall j :: 0 <= j < |st| && Over(st[j]) ==> Over(old(st)[j]) || ExitsIn(j, during, 0, i)
        invariant forall m :: |old(log)| <= m < |log| ==> SameReaped(log[m].before, old(st))
      {
        MoveAllIs(st, during[i]);
        Interfere(during[i]);
        if st[i] != NotCreated || delayed[i] {
          continue;
        }
        if jobs[i].stonewall && (nrStarted != 0 || nrRunning != 0) {
          assert forall j: nat :: i <= j < |st| ==> BehindWall(jobs, st, delayed, j);
          break;
        }
        CreateJob(i, delayed);
      }
      AllCreated(Now(), jobs, st);
    }

    /** The wait for TD_INITIALIZED: every created job gets there. */
    method AwaitInitialized()
      requires Valid()
      modifies this`st
      ensures Valid()
      ensures forall i :: 0 <= i < |st| ==> st[i] == if old(st)[i] == Created then Initialized else old(st)[i]
    {
      hide Count, Rates, Wrap, Recorded;
      for i := 0 to |jobs|
        invariant Valid()
        invariant forall j :: 0 <= j < |st| ==>
                    st[j] == if j < i && old(st)[j] == Created then Initialized else old(st)[j]
      {
        if st[i] == Created {
          OneMove(st, Initializes(i));
          Interfere([Initializes(i)]);
        }
      }
    }

    /** TD_INITIALIZED -> TD_RUNNING, one job. */
    method StartJob(i: nat)
      requires Valid() && i < |st| && st[i] == Initialized
      modifies this
      ensures Valid() && log == old(log) && st == old(st)[i := Running]
      ensures todo == old(todo) - 1 && nrStarted == old(nrStarted) - 1 && nrRunning == old(nrRunning) + 1
    {
      hide Recorded, Count, Rates, Wrap;
      StartedExact(Now(), jobs, st, i);
      LogStays(jobs, log, st, st[i := Running]);
      hide Exact;
      st := st[i := Running];
      nrRunning := nrRunning + 1;
      nrStarted := nrStarted - 1;
      mRate := Wrap(mRate + jobs[i].ratemin);
      tRate := Wrap(tRate + jobs[i].rate);
      todo := todo - 1;
    }

    method StartJobs()
      requires Valid() && forall i :: 0 <= i < |st| ==> st[i] != Created
      modifies this
      ensures Valid() && log == old(log) && nrStarted == 0
      ensures todo == old(todo) - old(nrStarted) && nrRunning == old(nrRunning) + old(nrStarted)
      ensures forall i :: 0 <= i < |st| ==> st[i] == if old(st)[i] == Initialized then Running else old(st)[i]
    {
      hide Recorded, Count, Rates, Wrap;
      for i := 0 to |jobs|
        invariant Valid() && log == old(log)
        invariant todo - nrStarted == old(todo - nrStarted) && nrRunning + nrStarted == old(nrRunning + nrStarted)
        invariant forall j :: 0 <= j < |st| ==>
                    st[j] == if j < i && old(st)[j] == Initialized then Running else old(st)[j]
      {
        if st[i] == Initialized {
          StartJob(i);
        }
      }
      CountZero(st, Starting);
    }

    method ReapJob(i: nat)
      requires Valid() && i < |st| && InPhase(st[i], Active)
      modifies this
      ensures Valid() && log == old(log) && todo == old(todo) && nrStarted == old(nrStarted)
      ensures st == old(st)[i := Reaped] && nrRunning == old(nrRunning) - 1
    {
      hide Recorded, Count, Rates, Wrap;
      ReapedExact(Now(), jobs, st, i);
      LogStays(jobs, log, st, st[i := Reaped]);
      hide Exact;
      st := st[i := Reaped];
      nrRunning := nrRunning - 1;
      mRate := Wrap(mRate + -1 * jobs[i].ratemin);
      tRate := Wrap(tRate + -1 * jobs[i].rate);
    }

    /** One job's turn in reap_threads.  A thread is reaped once it exited; a
        process once it exited or waitpid reports it dead. */
    method ReapTurn(i: nat, ms: seq<Move>, dead: bool)
      requires Valid() && i < |jobs| && nrStarted == 0
      requires forall j :: 0 <= j < |st| ==> !InPhase(st[j], Starting)
      modifies this
      ensures Valid() && log == old(log) && todo == old(todo) && nrStarted == 0 && nrRunning <= old(nrRunning)
      ensures forall j :: 0 <= j < |st| ==> !InPhase(st[j], Starting)
      ensures forall j :: 0 <= j < |st| ==> (st[j] == NotCreated <==> old(st)[j] == NotCreated)
      ensures forall j :: 0 <= j < |st| && !InPhase(old(st)[j], Active) ==> !InPhase(st[j], Active)
      ensures forall j :: 0 <= j < |st| && old(st)[j] == Exited ==> st[j] == if j == i then Reaped else Exited
      ensures Exits(i) in ms || (!jobs[i].useThread && dead) ==> !InPhase(st[i], Active)
      ensures forall j :: 0 <= j < |st| && j != i ==> st[j] == MovedTo(old(st)[j], j, ms)
      ensures st[i] == if !InPhase(old(st)[i], Active) then old(st)[i]
                       else if old(st)[i] == Exited || Exits(i) in ms || (!jobs[i].useThread && dead) then Reaped
                       else Running
    {
      hide Count, Rates, Wrap, Recorded;
      MoveAllIs(st, ms);
      Interfere(ms);
      hide MoveAll;
      if st[i] == NotCreated || st[i] == Reaped {
        return;
      }
      if st[i] == Exited || (!jobs[i].useThread && dead) {
        ReapJob(i);
      }
    }

    /** reap_threads: what had exited is reaped. */
    method ReapThreads(reaping: seq<seq<Move>>, dead: seq<bool>)
      requires Valid() && |reaping| == |dead| == |jobs| && nrStarted == 0
      modifies this
      ensures Valid() && log == old(log) && todo == old(todo) && nrStarted == 0
      ensures forall i :: 0 <= i < |st| ==> (st[i] == NotCreated <==> old(st)[i] == NotCreated)
      ensures forall i :: 0 <= i < |st| && old(st)[i] == Exited ==> st[i] == Reaped
      ensures nrRunning <= old(nrRunning) && (Ending(jobs, reaping, dead) ==> nrRunning == 0)
      ensures forall i :: 0 <= i < |st| ==> st[i] == ReapedTo(jobs, old(st)[i], reaping, dead, i, |jobs|)
    {
      CountZero(st, Starting);
      hide Count, Rates, Wrap, Recorded;
      for i := 0 to |jobs|
        invariant Valid() && log == old(log) && todo == old(todo) && nrStarted == 0
        invariant forall j :: 0 <= j < |st| ==> (st[j] == NotCreated <==> old(st)[j] == NotCreated)
        invariant forall j :: 0 <= j < i && old(st)[j] == Exited ==> st[j] == Reaped
        invariant forall j :: i <= j < |st| && old(st)[j] == Exited ==> st[j] == Exited
        invariant forall j :: 0 <= j < |st| ==> !InPhase(st[j], Starting)
        invariant nrRunning <= old(nrRunning)
        invariant Ending(jobs, reaping, dead) ==> forall j :: 0 <= j < i ==> !InPhase(st[j], Active)
        invariant forall j :: 0 <= j < |st| ==> st[j] == ReapedTo(jobs, old(st)[j], reaping, dead, j, i)
      {
        ghost var was := st;
        ReapTurn(i, reaping[i], dead[i]);
        forall j | 0 <= j < |st| ensures st[j] == ReapedTo(jobs, old(st)[j], reaping, dead, j, i + 1) {
          NextTurn(jobs, old(st)[j], reaping, dead, j, i);
          assert was[j] == ReapedTo(jobs, old(st)[j], reaping, dead, j, i);
        }
      }
      CountZero(st, Active);
    }

    /** One turn of the main loop. */
    method OneRound(r: Round)
      requires Valid() && nrStarted == 0 && Sized(jobs, r) && todo > 0
      modifies this
      ensures Valid() && old(log) <= log && nrStarted == 0
      ensures Left(Now()) <= old(Left(Now())) && (Kind(jobs, r) ==> Left(Now()) < old(Left(Now())))
      ensures EndsOnly(jobs, r, old(st), st)
      ensures forall m :: |old(log)| <= m < |log| ==> SameReaped(log[m].before, old(st))
    {
      hide Recorded, MoveAll, Count, Rates, Wrap;
      NeverNegative(Now(), jobs, st);
      CreateJobs(r.delayed, r.during);
      AwaitInitialized();
      NeverNegative(Now(), jobs, st);
      StartJobs();
      ReapThreads(r.reaping, r.dead);
      NeverNegative(Now(), jobs, st);
    }

    /** The main loop for as many rounds as given, then the final reaping.  A
        stonewall job is never created before all earlier ones are reaped; every
        job is created at most once; and once enough rounds let jobs start and
        end, every job has been created, run and reaped. */
    method Run(rounds: seq<Round>)
      requires Valid() && nrStarted == 0
      requires forall r <- rounds :: Sized(jobs, r)
      modifies this
      ensures Valid() && old(log) <= log && nrStarted == 0
      ensures forall k, m :: 0 <= k < m < |log| ==> Separated(jobs, log[k], log[m])
      ensures todo == 0 && nrRunning == 0 <==> forall i :: 0 <= i < |st| ==> st[i] == Reaped
      ensures KindRounds(jobs, rounds) >= old(Left(Now())) ==>
                forall i :: 0 <= i < |st| ==> st[i] == Reaped && Logged(log, i)
      ensures Justified(jobs, old(st), rounds, st)
      ensures forall m :: |old(log)| <= m < |log| ==> BarrierReal(jobs, old(st), rounds, log[m])
    {
      hide Recorded, Exact, KindRounds, Ending, NoDelay, Separated, EndsIn, ReapedTo, EndsOnly, BarrierReal, SameReaped;
      var k := 0;
      assert rounds[0..] == rounds;
      assert Justified(jobs, st, rounds[..0], st);
      hide Justified;
      while todo != 0 && k < |rounds|
        invariant 0 <= k <= |rounds| && Valid() && old(log) <= log && nrStarted == 0
        invariant KindRounds(jobs, rounds) - KindRounds(jobs, rounds[k..]) <= old(Left(Now())) - Left(Now())
        invariant Justified(jobs, old(st), rounds[..k], st)
        invariant forall m :: |old(log)| <= m < |log| ==> BarrierReal(jobs, old(st), rounds[..k], log[m])
        decreases |rounds| - k
      {
        NeverNegative(Now(), jobs, st);
        NextKind(jobs, rounds, k);
        ghost var was, logged := st, log;
        OneRound(rounds[k]);
        RoundJustified(jobs, old(st), rounds, k, was, st);
        CreationsReal(jobs, old(st), rounds, k, was, log, |old(log)|, |logged|);
        k := k + 1;
      }
      while nrRunning != 0 && k < |rounds|
        invariant 0 <= k <= |rounds| && Valid() && old(log) <= log && nrStarted == 0
        invariant KindRounds(jobs, rounds) - KindRounds(jobs, rounds[k..]) <= old(Left(Now())) - Left(Now())
        invariant Justified(jobs, old(st), rounds[..k], st)
        invariant forall m :: |old(log)| <= m < |log| ==> BarrierReal(jobs, old(st), rounds[..k], log[m])
        invariant k < |rounds| ==> todo == 0
        decreases |rounds| - k
      {
        NeverNegative(Now(), jobs, st);
        NextKind(jobs, rounds, k);
        ghost var was := st;
        ReapThreads(rounds[k].reaping, rounds[k].dead);
        NeverNegative(Now(), jobs, st);
        ReapEndsOnly(jobs, rounds[k], was, st);
        RoundJustified(jobs, old(st), rounds, k, was, st);
        CreationsReal(jobs, old(st), rounds, k, was, log, |old(log)|, |log|);
        k := k + 1;
      }
      Extend(jobs, old(st), rounds, k, st, log, |old(log)|);
      NeverNegative(Now(), jobs, st);
      AllReaped(Now(), jobs, st);
      LogSays(jobs, log, st);
      NoneKind(jobs, rounds);
    }
  }

  lemma {:induction false} InitialCounts(jobs: seq<Job>, st: seq<RunState>)
    requires |jobs| == |st| && forall i :: 0 <= i < |st| ==> st[i] == NotCreated
    ensures Count(st, Todo) == |st| && Count(st, Starting) == 0 && Count(st, Active) == 0
    ensures Rates(jobs, st, true) == 0 && Rates(jobs, st, false) == 0
    decreases |st|
  {
    if st != [] {
      InitialCounts(jobs[..|st| - 1], st[..|st| - 1]);
    }
  }

  lemma NothingAround(c: Counters, jobs: seq<Job>, st: seq<RunState>)
    requires Exact(c, jobs, st)
    ensures c.nrStarted == 0 && c.nrRunning == 0 ==>
              forall j :: 0 <= j < |st| ==> st[j] == NotCreated || st[j] == Reaped
  {
    CountZero(st, Starting);
    CountZero(st, Active);
  }

  lemma AllReaped(c: Counters, jobs: seq<Job>, st: seq<RunState>)
    requires Exact(c, jobs, st)
    ensures c.todo == 0 && c.nrRunning == 0 <==> forall i :: 0 <= i < |st| ==> st[i] == Reaped
  {
    CountZero(st, Todo);
    CountZero(st, Active);
  }

  /** A pass that leaves nothing uncreated and nothing to start has no work. */
  lemma AllCreated(c: Counters, jobs: seq<Job>, st: seq<RunState>)
    requires Exact(c, jobs, st)
    ensures c.nrStarted >= 0
    ensures c.nrStarted == 0 && (forall i :: 0 <= i < |st| ==> st[i] != NotCreated) ==> c.todo == 0
  {
    CountZero(st, Starting);
    CountZero(st, Todo);
  }

  lemma NeverNegative(c: Counters, jobs: seq<Job>, st: seq<RunState>)
    requires Exact(c, jobs, st)
    ensures c.todo >= 0 && c.nrStarted >= 0 && c.nrRunning >= 0 && |st| == |jobs|
  {
  }

  lemma LogSays(jobs: seq<Job>, log: seq<Creation>, st: seq<RunState>)
    requires Recorded(jobs, log, st)
    ensures forall k, m :: 0 <= k < m < |log| ==> Separated(jobs, log[k], log[m])
    ensures forall i :: 0 <= i < |st| && st[i] == Reaped ==> Logged(log, i)
  {
    forall k, m | 0 <= k < m < |log| ensures Separated(jobs, log[k], log[m]) {
      StonewallSeparates(jobs, log, st, k, m);
    }
  }

  lemma NoneKind(jobs: seq<Job>, rounds: seq<Round>)
    requires forall r <- rounds :: Sized(jobs, r)
    ensures KindRounds(jobs, rounds[|rounds|..]) == 0
  {
  }

  lemma NextKind(jobs: seq<Job>, rounds: seq<Round>, k: nat)
    requires (forall r <- rounds :: Sized(jobs, r)) && k < |rounds|
    ensures Sized(jobs, rounds[k])
    ensures KindRounds(jobs, rounds[k..]) == KindRounds(jobs, rounds[k + 1..]) + if Kind(jobs, rounds[k]) then 1 else 0
  {
    assert rounds[k] in rounds;
    assert rounds[k..][0] == rounds[k] && rounds[k..][1..] == rounds[k + 1..];
  }

  lemma NextTurn(jobs: seq<Job>, s: RunState, reaping: seq<seq<Move>>, dead: seq<bool>, j: nat, i: nat)
    requires !InPhase(s, Starting) && j < |jobs| == |reaping| == |dead| && i < |jobs|
    ensures var was := ReapedTo(jobs, s, reaping, dead, j, i);
            var now := ReapedTo(jobs, s, reaping, dead, j, i + 1);
            && (was == Reaped ==> now == Reaped)
            && (j != i ==> now == MovedTo(was, j, reaping[i]))
            && (j == i ==>
                  now == if !InPhase(was, Active) then was
                         else if was == Exited || Exits(i) in reaping[i] || FoundDead(jobs, dead, i) then Reaped
                         else Running)
  {
    assert ExitsIn(j, reaping, 0, i + 1) <==> ExitsIn(j, reaping, 0, i) || Exits(j) in reaping[i] by {
      if k :| 0 <= k < i + 1 && k < |reaping| && Exits(j) in reaping[k] {
        assert k < i || k == i;
      }
      if Exits(j) in reaping[i] {
        assert 0 <= i < i + 1 && i < |reaping|;
      }
    }
  }
}
