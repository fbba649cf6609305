/**
 The counting semaphore of mutex.c: an integer value and a waiter count, both
 guarded by a pthread mutex, plus a condition variable.

 A critical section of the pthread mutex is one atomic step.  The functions
 Enter, TryDown and Up are the three kinds of critical section; class FioMutex
 performs them in place; the step relation of SemaphoreRuns lets any number of
 threads interleave them, with barging and spurious wake-ups.
 */
module Semaphore {

  type Tid = nat

  ghost function One(b: bool): nat {
    if b then 1 else 0
  }

  datatype Sem = Sem(value: int, waiters: int)

  /** One evaluation of the loop test in fio_mutex_down: `woken` is true when
      the thread comes back from pthread_cond_wait.  The flag says whether the
      semaphore was taken; if not, the thread goes to sleep. */
  function Enter(s: Sem, woken: bool): (Sem, bool) {
    var w := if woken then s.waiters - 1 else s.waiters;
    if s.value != 0 then (Sem(s.value - 1, w), true) else (Sem(s.value, w + 1), false)
  }

  function TryDown(s: Sem): (Sem, bool) {
    if s.value != 0 then (s.(value := s.value - 1), true) else (s, false)
  }

  /** The flag is do_wake: a signal is still to be sent after the section. */
  function Up(s: Sem): (Sem, bool) {
    (s.(value := s.value + 1), s.value == 0 && s.waiters != 0)
  }

  class FioMutex {
    var value: int
    var waiters: int

    ghost function State(): Sem
      reads this
    {
      Sem(value, waiters)
    }

    constructor (initial: int)
      ensures State() == Sem(initial, 0)
    {
      value := initial;
      waiters := 0;
    }

    method DownSection(woken: bool) returns (taken: bool)
      modifies this
      ensures (State(), taken) == Enter(old(State()), woken)
    {
      if woken {
        waiters := waiters - 1;
      }
      if value == 0 {
        waiters := waiters + 1;
        return false;
      }
      value := value - 1;
      return true;
    }

    method DownTrylock() returns (ret: int)
      modifies this
      ensures (State(), ret == 0) == TryDown(old(State()))
      ensures ret == 0 || ret == 1
    {
      ret := 1;
      if value != 0 {
        value := value - 1;
        ret := 0;
      }
    }

    method UpSection() returns (doWake: bool)
      modifies this
      ensures (State(), doWake) == Up(old(State()))
    {
      doWake := false;
      if value == 0 && waiters != 0 {
        doWake := true;
      }
      value := value + 1;
    }
  }

}

/** Any number of threads on one semaphore. */
module SemaphoreRuns {
  import opened Semaphore

  datatype Pc =
    | Outside
    | Entering(woken: bool)
    | Asleep
    | Inside
    | Signalling

  datatype State = State(sem: Sem, pcs: map<Tid, Pc>)

  datatype Label =
    | Down(t: Tid)
    | Check(t: Tid)
    | Spurious(t: Tid)
    | Trylock(t: Tid)
    | Release(t: Tid)                 // up by the thread that holds the lock
    | Post(t: Tid)                    // up by a thread that holds nothing
    | Signal(t: Tid, target: Tid)     // pthread_cond_signal, waking target
    | SignalNobody(t: Tid)
    | Leave(t: Tid)                   // goes on without an up: the unit taken is consumed

  ghost predicate Enabled(s: State, l: Label) {
    l.t in s.pcs &&
    match l
    case Down(t) => s.pcs[t] == Outside
    case Check(t) => s.pcs[t].Entering?
    case Spurious(t) => s.pcs[t] == Asleep
    case Trylock(t) => s.pcs[t] == Outside
    case Release(t) => s.pcs[t] == Inside
    case Post(t) => s.pcs[t] == Outside
    case Signal(t, u) => s.pcs[t] == Signalling && u in s.pcs && s.pcs[u] == Asleep
    case SignalNobody(t) => s.pcs[t] == Signalling && forall u <- s.pcs :: s.pcs[u] != Asleep
    case Leave(t) => s.pcs[t] == Inside
  }

  ghost function Next(s: State, l: Label): State
    requires Enabled(s, l)
  {
    match l
    case Down(t) => s.(pcs := s.pcs[t := Entering(false)])
    case Check(t) =>
      var (m, taken) := Enter(s.sem, s.pcs[t].woken);
      State(m, s.pcs[t := if taken then Inside else Asleep])
    case Spurious(t) => s.(pcs := s.pcs[t := Entering(true)])
    case Trylock(t) =>
      var (m, taken) := TryDown(s.sem);
      State(m, s.pcs[t := if taken then Inside else Outside])
    case Release(t) =>
      var (m, wake) := Up(s.sem);
      State(m, s.pcs[t := if wake then Signalling else Outside])
    case Post(t) =>
      var (m, wake) := Up(s.sem);
      State(m, s.pcs[t := if wake then Signalling else Outside])
    case Signal(t, u) => s.(pcs := s.pcs[t := Outside][u := Entering(true)])
    case SignalNobody(t) => s.(pcs := s.pcs[t := Outside])
    case Leave(t) => s.(pcs := s.pcs[t := Outside])
  }

  ghost predicate Legal(s: State, run: seq<Label>)
    decreases |run|
  {
    run == [] || (Enabled(s, run[0]) && Legal(Next(s, run[0]), run[1..]))
  }

  ghost function Run(s: State, run: seq<Label>): State
    requires Legal(s, run)
    decreases |run|
  {
    if run == [] then s else Run(Next(s, run[0]), run[1..])
  }

  ghost predicate Fresh(s: State, value: int) {
    s.sem == Sem(value, 0) && forall t <- s.pcs :: s.pcs[t] == Outside
  }

  /** The semaphore is used as a lock: only a thread that took it ups it, and
      no thread goes on without. */
  ghost predicate LockUse(run: seq<Label>) {
    forall l <- run :: !l.Post? && !l.Leave?
  }

  ghost function At(pcs: map<Tid, Pc>, pc: Pc): set<Tid> {
    set t | t in pcs && pcs[t] == pc
  }

  ghost function With(pcs: map<Tid, Pc>, pc: Pc): nat {
    |At(pcs, pc)|
  }

  lemma WithUpdate(pcs: map<Tid, Pc>, t: Tid, x: Pc)
    requires t in pcs
    ensures forall pc {:trigger With(pcs[t := x], pc)} ::
              With(pcs[t := x], pc) == With(pcs, pc) - One(pcs[t] == pc) + One(x == pc)
  {
    forall pc
      ensures With(pcs[t := x], pc) == With(pcs, pc) - One(pcs[t] == pc) + One(x == pc)
    {
      var a, b := At(pcs, pc), At(pcs[t := x], pc);
      assert a - {t} == b - {t};
      assert |a| == |a - {t}| + One(pcs[t] == pc);
      assert |b| == |b - {t}| + One(x == pc);
    }
  }

  lemma WithMember(pcs: map<Tid, Pc>, pc: Pc)
    ensures With(pcs, pc) > 0 <==> exists t :: t in pcs && pcs[t] == pc
  {
    if At(pcs, pc) != {} {
      var t :| t in At(pcs, pc);
      assert t in pcs && pcs[t] == pc;
    }
    if t :| t in pcs && pcs[t] == pc {
      assert t in At(pcs, pc);
    }
  }

  lemma WithPair(pcs: map<Tid, Pc>, pc: Pc, t: Tid, u: Tid)
    requires t in pcs && u in pcs && t != u && pcs[t] == pcs[u] == pc
    ensures With(pcs, pc) >= 2
  {
    assert {t, u} <= At(pcs, pc);
    assert |At(pcs, pc)| == |At(pcs, pc) - {t, u}| + |{t, u}|;
  }

  ghost predicate Inv(s: State) {
    && 0 <= s.sem.value
    && s.sem.value + With(s.pcs, Inside) == 1
    && s.sem.waiters == With(s.pcs, Asleep) + With(s.pcs, Entering(true))
    && (s.sem.value == 1 && With(s.pcs, Asleep) > 0 ==>
          With(s.pcs, Signalling) + With(s.pcs, Entering(true)) > 0)
  }

  lemma StepKeepsInv(s: State, l: Label)
    requires Inv(s) && Enabled(s, l) && !l.Post? && !l.Leave?
    ensures Inv(Next(s, l))
  {
    var s' := Next(s, l);
    match l
    case Signal(t, u) =>
      WithUpdate(s.pcs, t, Outside);
      WithUpdate(s.pcs[t := Outside], u, Entering(true));
    case SignalNobody(t) =>
      WithUpdate(s.pcs, t, Outside);
      WithMember(s.pcs, Asleep);
    case Down(t) => WithUpdate(s.pcs, t, s'.pcs[t]);
    case Check(t) => WithUpdate(s.pcs, t, s'.pcs[t]);
    case Spurious(t) => WithUpdate(s.pcs, t, s'.pcs[t]);
    case Trylock(t) => WithUpdate(s.pcs, t, s'.pcs[t]);
    case Release(t) => WithUpdate(s.pcs, t, s'.pcs[t]);
  }

  lemma FreshIsInv(s: State)
    requires Fresh(s, 1)
    ensures Inv(s)
  {
    WithMember(s.pcs, Inside);
    WithMember(s.pcs, Asleep);
    WithMember(s.pcs, Entering(true));
  }

  lemma {:induction false} RunKeepsInv(s: State, run: seq<Label>)
    requires Inv(s) && Legal(s, run) && LockUse(run)
    ensures Inv(Run(s, run))
    decreases |run|
  {
    if run != [] {
      StepKeepsInv(s, run[0]);
      RunKeepsInv(Next(s, run[0]), run[1..]);
    }
  }

  /** Mutual exclusion, and the exact meaning of the two counters, after every
      interleaving of lock use. */
  lemma LockRunsExclude(s: State, run: seq<Label>, t: Tid, u: Tid)
    requires Fresh(s, 1) && Legal(s, run) && LockUse(run)
    ensures var e := Run(s, run);
            && (t in e.pcs && u in e.pcs && e.pcs[t] == Inside && e.pcs[u] == Inside ==> t == u)
            && (e.sem.value == 1 <==> forall v <- e.pcs :: e.pcs[v] != Inside)
            && e.sem.waiters == With(e.pcs, Asleep) + With(e.pcs, Entering(true))
  {
    FreshIsInv(s);
    RunKeepsInv(s, run);
    var e := Run(s, run);
    WithMember(e.pcs, Inside);
    if t in e.pcs && u in e.pcs && e.pcs[t] == Inside && e.pcs[u] == Inside && t != u {
      WithPair(e.pcs, Inside, t, u);
    }
  }

  /** `finish` is legal and ends with the waiter `w` inside. */
  ghost predicate HandsOver(e: State, finish: seq<Label>, w: Tid) {
    && Legal(e, finish)
    && (forall l <- finish :: l.Signal? || l.Check?)
    && w in e.pcs && (e.pcs[w] == Asleep || e.pcs[w] == Entering(true))
    && w in Run(e, finish).pcs && Run(e, finish).pcs[w] == Inside
  }

  lemma HandOver(e: State) returns (finish: seq<Label>, w: Tid)
    requires e.sem.value > 0 && With(e.pcs, Asleep) > 0
    requires With(e.pcs, Signalling) + With(e.pcs, Entering(true)) > 0
    ensures HandsOver(e, finish, w) && Finishes(e, finish)
  {
    WithMember(e.pcs, Asleep);
    WithMember(e.pcs, Signalling);
    WithMember(e.pcs, Entering(true));
    if v :| v in e.pcs && e.pcs[v] == Entering(true) {
      w := v;
      finish := [Check(w)];
      assert finish[1..] == [];
    } else {
      var g :| g in e.pcs && e.pcs[g] == Signalling;
      w :| w in e.pcs && e.pcs[w] == Asleep;
      finish := [Signal(g, w), Check(w)];
      var mid := Next(e, finish[0]);
      assert finish[1..] == [Check(w)];
      assert [Check(w)][1..] == [];
      assert Enabled(mid, Check(w));
      assert Legal(mid, finish[1..]);
      assert Run(mid, finish[1..]) == Next(mid, Check(w));
    }
  }

  /** No lost wake-up: whenever the lock is free and a thread sleeps, the
      threads that already are on their way (one signaller, one woken thread)
      suffice to hand the lock to a waiter, with nobody new arriving. */
  lemma NoLostWakeup(s: State, run: seq<Label>) returns (finish: seq<Label>, w: Tid)
    requires Fresh(s, 1) && Legal(s, run) && LockUse(run)
    requires Run(s, run).sem.value == 1
    requires exists t :: t in Run(s, run).pcs && Run(s, run).pcs[t] == Asleep
    ensures HandsOver(Run(s, run), finish, w)
  {
    FreshIsInv(s);
    RunKeepsInv(s, run);
    var e := Run(s, run);
    WithMember(e.pcs, Asleep);
    finish, w := HandOver(e);
  }

  // ---- Any use, any starting value ----

  /** What every run keeps, whoever ups: the value never goes negative, and
      `waiters` counts the sleepers and the threads already woken. */
  ghost predicate Counted(s: State) {
    && 0 <= s.sem.value
    && s.sem.waiters == With(s.pcs, Asleep) + With(s.pcs, Entering(true))
  }

  lemma StepKeepsCounted(s: State, l: Label)
    requires Counted(s) && Enabled(s, l)
    ensures Counted(Next(s, l))
  {
    StepCounts(s, l);
  }

  /** How one step moves the three counts that decide a wake-up. */
  lemma StepCounts(s: State, l: Label)
    requires Enabled(s, l)
    ensures var n := Next(s, l);
            var asleep := With(n.pcs, Asleep) - With(s.pcs, Asleep);
            var woken := With(n.pcs, Entering(true)) - With(s.pcs, Entering(true));
            var signalling := With(n.pcs, Signalling) - With(s.pcs, Signalling);
            match l
            case Check(t) =>
              && signalling == 0
              && asleep == One(s.sem.value == 0)
              && woken + One(s.pcs[t].woken) == 0
            case Spurious(_) => signalling == 0 && asleep == -1 && woken == 1
            case Signal(_, _) => signalling == -1 && asleep == -1 && woken == 1
            case SignalNobody(_) => signalling == -1 && asleep == 0 && woken == 0 && With(s.pcs, Asleep) == 0
            case Release(_) => signalling == One(n.pcs[l.t] == Signalling) && asleep == 0 && woken == 0
            case Post(_) => signalling == One(n.pcs[l.t] == Signalling) && asleep == 0 && woken == 0
            case _ => signalling == 0 && asleep == 0 && woken == 0
  {
    var n := Next(s, l);
    match l
    case Signal(t, u) =>
      WithUpdate(s.pcs, t, Outside);
      WithUpdate(s.pcs[t := Outside], u, Entering(true));
    case SignalNobody(t) =>
      WithUpdate(s.pcs, t, Outside);
      WithMember(s.pcs, Asleep);
    case _ => WithUpdate(s.pcs, l.t, n.pcs[l.t]);
  }

  lemma {:induction false} RunKeepsCounted(s: State, run: seq<Label>)
    requires Counted(s) && Legal(s, run)
    ensures Counted(Run(s, run))
    decreases |run|
  {
    if run != [] {
      StepKeepsCounted(s, run[0]);
      RunKeepsCounted(Next(s, run[0]), run[1..]);
    }
  }

  lemma FreshIsCounted(s: State, value: nat)
    requires Fresh(s, value)
    ensures Counted(s)
  {
    WithMember(s.pcs, Asleep);
    WithMember(s.pcs, Entering(true));
  }

  /** A lost wake-up: something to take, a thread asleep, and nobody on the way. */
  ghost predicate Lost(s: State) {
    && s.sem.value > 0
    && With(s.pcs, Asleep) > 0
    && With(s.pcs, Signalling) == 0
    && With(s.pcs, Entering(true)) == 0
  }

  ghost predicate Owed(s: State, l: Label)
    requires Enabled(s, l)
  {
    l.Signal? || l.SignalNobody? || (l.Check? && s.pcs[l.t].woken)
  }

  /** The steps still owed by the threads already under way: the signals to be
      sent and the checks of the threads that were woken. */
  ghost predicate Finishes(s: State, finish: seq<Label>)
    requires Legal(s, finish)
    decreases |finish|
  {
    finish == [] || (Owed(s, finish[0]) && Finishes(Next(s, finish[0]), finish[1..]))
  }

  ghost predicate EndsLost(s: State, finish: seq<Label>) {
    Legal(s, finish) && Finishes(s, finish) && Lost(Run(s, finish))
  }

  /** More sleepers than signals to come, and more to take than the threads
      under way will take. */
  ghost predicate Losing(s: State) {
    && With(s.pcs, Asleep) > With(s.pcs, Signalling)
    && s.sem.value > With(s.pcs, Signalling) + With(s.pcs, Entering(true))
  }

  lemma {:induction false} LossWasDue(s: State, finish: seq<Label>)
    requires Counted(s) && EndsLost(s, finish)
    ensures Losing(s)
    decreases |finish|
  {
    if finish != [] {
      StepKeepsCounted(s, finish[0]);
      LossWasDue(Next(s, finish[0]), finish[1..]);
      StepCounts(s, finish[0]);
    }
  }

  lemma {:induction false} LossCanCome(s: State) returns (finish: seq<Label>)
    requires Counted(s) && Losing(s)
    ensures EndsLost(s, finish)
    decreases 2 * With(s.pcs, Signalling) + With(s.pcs, Entering(true))
  {
    WithMember(s.pcs, Entering(true));
    WithMember(s.pcs, Signalling);
    WithMember(s.pcs, Asleep);
    if t :| t in s.pcs && s.pcs[t] == Entering(true) {
      finish := LossAfter(s, Check(t));
    } else if g :| g in s.pcs && s.pcs[g] == Signalling {
      var u :| u in s.pcs && s.pcs[u] == Asleep;
      finish := LossAfter(s, Signal(g, u));
    } else {
      finish := [];
    }
  }

  lemma LossAfter(s: State, l: Label) returns (finish: seq<Label>)
    requires Counted(s) && Losing(s) && Enabled(s, l)
    requires Owed(s, l) && !l.SignalNobody?
    ensures EndsLost(s, finish)
    decreases 2 * With(s.pcs, Signalling) + With(s.pcs, Entering(true)), 0
  {
    StepCounts(s, l);
    var n := Next(s, l);
    var rest := LossCanCome(n);
    finish := [l] + rest;
    assert finish[1..] == rest;
  }

  /** Exactly when a wake-up can be lost, for every starting value, every mix of
      downs, trylocks and ups, and every reached state. */
  lemma LosesWakeupExactly(s: State, value: nat, run: seq<Label>)
    requires Fresh(s, value) && Legal(s, run)
    ensures (exists finish :: EndsLost(Run(s, run), finish)) <==> Losing(Run(s, run))
  {
    FreshIsCounted(s, value);
    RunKeepsCounted(s, run);
    var e := Run(s, run);
    if Losing(e) {
      var finish := LossCanCome(e);
    } else if finish :| EndsLost(e, finish) {
      LossWasDue(e, finish);
    }
  }

  // ---- Who gets the semaphore ----

  ghost predicate IsUp(l: Label) {
    l.Release? || l.Post?
  }

  ghost function Ups(run: seq<Label>): nat {
    if run == [] then 0 else One(IsUp(run[0])) + Ups(run[1..])
  }

  /** The step gets the thread into the semaphore. */
  ghost predicate Gets(s: State, l: Label)
    requires Enabled(s, l)
  {
    (l.Check? || l.Trylock?) && l.t in Next(s, l).pcs && Next(s, l).pcs[l.t] == Inside
  }

  ghost function Takes(s: State, run: seq<Label>): nat
    requires Legal(s, run)
    decreases |run|
  {
    if run == [] then 0 else One(Gets(s, run[0])) + Takes(Next(s, run[0]), run[1..])
  }

  lemma {:induction false} ValueIsBalance(s: State, run: seq<Label>)
    requires Legal(s, run)
    ensures Run(s, run).sem.value == s.sem.value + Ups(run) - Takes(s, run)
    decreases |run|
  {
    if run != [] {
      ValueIsBalance(Next(s, run[0]), run[1..]);
    }
  }

  /** After every run from every starting value, a down or trylock that tests the
      semaphore gets it exactly when fewer were taken so far than put in. */
  lemma GetsExactly(s: State, value: nat, run: seq<Label>, l: Label)
    requires Fresh(s, value) && Legal(s, run)
    requires Enabled(Run(s, run), l) && (l.Check? || l.Trylock?)
    ensures Takes(s, run) <= value + Ups(run)
    ensures Gets(Run(s, run), l) <==> Takes(s, run) < value + Ups(run)
  {
    ValueIsBalance(s, run);
    FreshIsCounted(s, value);
    RunKeepsCounted(s, run);
  }

  /** So a free lock is taken at the first try, and a held one never is. */
  lemma FreeLockIsTaken(s: State, run: seq<Label>, l: Label)
    requires Fresh(s, 1) && Legal(s, run) && LockUse(run)
    requires Enabled(Run(s, run), l) && (l.Check? || l.Trylock?)
    ensures Gets(Run(s, run), l) <==> forall u <- Run(s, run).pcs :: Run(s, run).pcs[u] != Inside
  {
    FreshIsInv(s);
    RunKeepsInv(s, run);
    WithMember(Run(s, run).pcs, Inside);
  }

  // ---- The ups that are safe ----

  /** No up of the run finds a value left over while two threads wait. */
  ghost predicate CarefulUps(s: State, run: seq<Label>)
    requires Legal(s, run)
    decreases |run|
  {
    run == [] ||
    ((run[0].Release? || run[0].Post? ==> s.sem.value == 0 || s.sem.waiters <= 1)
     && CarefulUps(Next(s, run[0]), run[1..]))
  }

  ghost predicate Waking(s: State) {
    && Counted(s)
    && (s.sem.value >= 2 ==> s.sem.waiters <= 1)
    && (s.sem.value > 0 && With(s.pcs, Asleep) > 0 ==>
          With(s.pcs, Signalling) + With(s.pcs, Entering(true)) > 0)
  }

  lemma {:induction false} RunKeepsWaking(s: State, run: seq<Label>)
    requires Waking(s) && Legal(s, run) && CarefulUps(s, run)
    ensures Waking(Run(s, run))
    decreases |run|
  {
    if run != [] {
      StepCounts(s, run[0]);
      StepKeepsCounted(s, run[0]);
      RunKeepsWaking(Next(s, run[0]), run[1..]);
    }
  }

  /** From every starting value: while no up finds a value left over with two
      threads waiting, no wake-up is lost, and whenever there is something to
      take and a thread asleep, the threads under way suffice to hand it to a
      waiter. */
  lemma CarefulUpsLoseNothing(s: State, value: nat, run: seq<Label>)
    requires Fresh(s, value) && Legal(s, run) && CarefulUps(s, run)
    ensures var e := Run(s, run);
            && !Losing(e)
            && (e.sem.value > 0 && With(e.pcs, Asleep) > 0 ==>
                  exists finish, w ::
                    && HandsOver(e, finish, w)
                    && Finishes(e, finish))
  {
    FreshIsCounted(s, value);
    WithMember(s.pcs, Asleep);
    WithMember(s.pcs, Entering(true));
    RunKeepsWaking(s, run);
    var e := Run(s, run);
    if e.sem.value > 0 && With(e.pcs, Asleep) > 0 {
      var finish, w := HandOver(e);
    }
  }

  /** Lock use is careful: whoever ups holds the lock, so the value is zero. */
  lemma {:induction false} LockUseIsCareful(s: State, run: seq<Label>)
    requires Inv(s) && Legal(s, run) && LockUse(run)
    ensures CarefulUps(s, run)
    decreases |run|
  {
    if run != [] {
      WithMember(s.pcs, Inside);
      StepKeepsInv(s, run[0]);
      LockUseIsCareful(Next(s, run[0]), run[1..]);
    }
  }

  /** fio's counting uses have one waiter each: the job's own mutex, upped by the
      parent and waited on by the job, and the startup mutex, upped by the jobs
      and waited on by the parent once per job, without ever upping it (and with a
      time limit, which is not modelled).  Such a run never loses a wake-up. */
  lemma SoleWaiterLosesNothing(s: State, value: nat, run: seq<Label>, w: Tid)
    requires Fresh(s, value) && Legal(s, run)
    requires forall l <- run :: l.Down? ==> l.t == w
    ensures !Losing(Run(s, run))
  {
    FreshIsCounted(s, value);
    SoleWaiterIsCareful(s, run, w);
    CarefulUpsLoseNothing(s, value, run);
  }

  ghost predicate OnlyWaits(s: State, w: Tid) {
    forall t <- s.pcs :: t != w ==> s.pcs[t] != Asleep && !s.pcs[t].Entering?
  }

  lemma AtMostOneWaits(s: State, w: Tid)
    requires Counted(s) && OnlyWaits(s, w)
    ensures s.sem.waiters <= 1
  {
    assert At(s.pcs, Asleep) + At(s.pcs, Entering(true)) <= {w};
    assert |At(s.pcs, Asleep) + At(s.pcs, Entering(true))| <= |{w}| by {
      Subset(At(s.pcs, Asleep) + At(s.pcs, Entering(true)), {w});
    }
    assert At(s.pcs, Asleep) !! At(s.pcs, Entering(true));
  }

  lemma Subset(a: set<Tid>, b: set<Tid>)
    requires a <= b
    ensures |a| <= |b|
  {
    assert b == a + (b - a);
  }

  lemma {:induction false} SoleWaiterIsCareful(s: State, run: seq<Label>, w: Tid)
    requires Counted(s) && OnlyWaits(s, w) && Legal(s, run)
    requires forall l <- run :: l.Down? ==> l.t == w
    ensures CarefulUps(s, run)
    decreases |run|
  {
    if run != [] {
      AtMostOneWaits(s, w);
      assert run[0] in run;
      StepKeepsCounted(s, run[0]);
      SoleWaiterIsCareful(Next(s, run[0]), run[1..], w);
    }
  }

  /** Used as a counter instead, the same code can lose a wake-up: a second up
      finds the value non-zero and sends no signal. */
  lemma CountingUseLosesWakeup() returns (s: State, run: seq<Label>)
    ensures Fresh(s, 0) && Legal(s, run)
    ensures var e := Run(s, run);
            && Lost(e)
            && e.sem.value == 1
            && (exists t :: t in e.pcs && e.pcs[t] == Asleep)
            && (forall t <- e.pcs :: !e.pcs[t].Entering? && e.pcs[t] != Signalling)
  {
    var p := map[0 := Outside, 1 := Outside, 2 := Outside, 3 := Outside];
    s := State(Sem(0, 0), p);
    var s2 := State(Sem(0, 1), p[0 := Asleep]);
    var s4 := State(Sem(0, 2), s2.pcs[1 := Asleep]);
    var s6 := State(Sem(2, 2), s4.pcs[2 := Signalling][3 := Outside]);
    var s8 := State(Sem(1, 1), s6.pcs[2 := Outside][0 := Entering(true)][0 := Inside]);
    SecondHalf(s4, s6, s8);
    LeftBehind(s8, 1);
    hide Legal, Run, Lost;
    var rest := [Post(2), Post(3)] + [Signal(2, 0), Check(0)];
    FallsAsleep(s2, 1, rest, s8);
    FallsAsleep(s, 0, [Down(1), Check(1)] + rest, s8);
    run := [Down(0), Check(0)] + ([Down(1), Check(1)] + rest);
  }

  /** A thread that finds the value at zero sleeps. */
  lemma FallsAsleep(s: State, t: Tid, rest: seq<Label>, e: State)
    requires t in s.pcs && s.pcs[t] == Outside && s.sem.value == 0
    requires var n := State(Sem(0, s.sem.waiters + 1), s.pcs[t := Asleep]); Legal(n, rest) && Run(n, rest) == e
    ensures Legal(s, [Down(t), Check(t)] + rest) && Run(s, [Down(t), Check(t)] + rest) == e
  {
    assert s.pcs[t := Entering(false)][t := Asleep] == s.pcs[t := Asleep];
    hide Legal, Run;
    LegalPair(s, Down(t), Check(t), rest, e);
  }

  lemma LeftBehind(e: State, w: Tid)
    requires e.sem.value > 0 && w in e.pcs && e.pcs[w] == Asleep
    requires forall t <- e.pcs :: !e.pcs[t].Entering? && e.pcs[t] != Signalling
    ensures Lost(e)
  {
    WithMember(e.pcs, Asleep);
    WithMember(e.pcs, Signalling);
    WithMember(e.pcs, Entering(true));
  }

  lemma SecondHalf(s4: State, s6: State, s8: State)
    requires s4.sem == Sem(0, 2) && s4.pcs == map[0 := Asleep, 1 := Asleep, 2 := Outside, 3 := Outside]
    requires s6 == State(Sem(2, 2), s4.pcs[2 := Signalling][3 := Outside])
    requires s8 == State(Sem(1, 1), s6.pcs[2 := Outside][0 := Entering(true)][0 := Inside])
    ensures var rest := [Post(2), Post(3)] + [Signal(2, 0), Check(0)];
            Legal(s4, rest) && Run(s4, rest) == s8
  {
    LegalPair(s6, Signal(2, 0), Check(0), [], s8);
    assert [Signal(2, 0), Check(0)] + [] == [Signal(2, 0), Check(0)];
    LegalPair(s4, Post(2), Post(3), [Signal(2, 0), Check(0)], s8);
  }

  lemma LegalPair(s: State, l: Label, m: Label, rest: seq<Label>, e: State)
    requires Enabled(s, l) && Enabled(Next(s, l), m)
    requires Legal(Next(Next(s, l), m), rest) && Run(Next(Next(s, l), m), rest) == e
    ensures Legal(s, [l, m] + rest) && Run(s, [l, m] + rest) == e
  {
    var run := [l, m] + rest;
    assert run[1..] == [m] + rest;
    assert run[1..][1..] == rest;
  }
}
