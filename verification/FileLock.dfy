/**
 Named exclusive file locks (filelock.c): reference-counted lock records, made
 on demand, kept on one list under filelock_lock, freed at zero references.
 Each record carries the semaphore of mutex.c.

 A name enters only through its hash, so two names with the same hash share a
 record.  Records live at addresses; a freed address may be handed out again.
 */
module FileLock {
  import opened Basics
  import opened Semaphore

  type Addr = nat
  type Hash = nat

  datatype Record = Record(hash: Hash, references: int, sem: Sem)

  datatype Table = Table(heap: map<Addr, Record>, list: seq<Addr>)

  // ----- The record list, changed in place under filelock_lock -----

  /** The first record on the list with the hash. */
  ghost function Find(tb: Table, list: seq<Addr>, h: Hash): Option<Addr> {
    if list == [] then None
    else if list[0] in tb.heap && tb.heap[list[0]].hash == h then Some(list[0])
    else Find(tb, list[1..], h)
  }

  /** fio_hash_get followed by the reference increment; `cell` is what the
      allocator would return. */
  ghost function Acquire(tb: Table, h: Hash, cell: Addr): (Table, Addr) {
    match Find(tb, tb.list, h)
    case Some(a) =>
      if a in tb.heap then
        var r := tb.heap[a];
        (tb.(heap := tb.heap[a := r.(references := r.references + 1)]), a)
      else (tb, a)
    case None =>
      (Table(tb.heap[cell := Record(h, 1, Sem(1, 0))], [cell] + tb.list), cell)
  }

  ghost function Without(list: seq<Addr>, a: Addr): seq<Addr> {
    if list == [] then [] else if list[0] == a then list[1..] else [list[0]] + Without(list[1..], a)
  }

  ghost function Retire(tb: Table, a: Addr): Table {
    Table(tb.heap - {a}, Without(tb.list, a))
  }

  ghost predicate TableOk(tb: Table) {
    && (forall a :: a in tb.list <==> a in tb.heap)
    && Distinct(tb.list)
    && (forall a <- tb.heap, b <- tb.heap :: tb.heap[a].hash == tb.heap[b].hash ==> a == b)
  }

  lemma {:induction false} FindSound(tb: Table, list: seq<Addr>, h: Hash)
    ensures match Find(tb, list, h)
            case Some(a) => a in list && a in tb.heap && tb.heap[a].hash == h
            case None => forall a <- list :: a in tb.heap ==> tb.heap[a].hash != h
  {
    if list != [] {
      FindSound(tb, list[1..], h);
      assert list == [list[0]] + list[1..];
    }
  }

  /** With distinct hashes, looking a hash up is exactly naming its record. */
  lemma FindExact(tb: Table, h: Hash, a: Addr)
    requires TableOk(tb) && a in tb.heap && tb.heap[a].hash == h
    ensures Find(tb, tb.list, h) == Some(a)
  {
    FindSound(tb, tb.list, h);
  }

  lemma {:induction false} WithoutMembers(list: seq<Addr>, a: Addr)
    requires Distinct(list)
    ensures forall x :: x in Without(list, a) <==> x in list && x != a
    ensures Distinct(Without(list, a))
  {
    if list != [] {
      assert list == [list[0]] + list[1..];
      WithoutMembers(list[1..], a);
      if list[0] != a {
        assert list[0] !in Without(list[1..], a);
      }
    }
  }

  /** Cutting the list at a position is what removing by address does. */
  lemma {:induction false} WithoutAt(list: seq<Addr>, i: nat)
    requires Distinct(list) && i < |list|
    ensures Without(list, list[i]) == list[..i] + list[i + 1..]
  {
    if i > 0 {
      WithoutAt(list[1..], i - 1);
      assert list[1..][..i - 1] == list[1..i];
      assert list[1..][i..] == list[i + 1..];
    }
  }

  lemma RetireKeepsTable(tb: Table, a: Addr)
    requires TableOk(tb)
    ensures TableOk(Retire(tb, a))
  {
    WithoutMembers(tb.list, a);
    hide Without;
  }

  class LockList {
    var heap: map<Addr, Record>
    var list: seq<Addr>

    ghost function State(): Table
      reads this
    {
      Table(heap, list)
    }

    constructor ()
      ensures State() == Table(map[], [])
    {
      heap, list := map[], [];
    }

    method HashFind(h: Hash) returns (r: Option<Addr>)
      requires TableOk(State())
      ensures r == Find(State(), list, h)
    {
      var i := 0;
      while i < |list|
        invariant 0 <= i <= |list|
        invariant Find(State(), list, h) == Find(State(), list[i..], h)
      {
        if heap[list[i]].hash == h {
          return Some(list[i]);
        }
        i := i + 1;
      }
      return None;
    }

    method HashGet(h: Hash, cell: Addr) returns (a: Addr)
      requires TableOk(State()) && cell !in heap
      modifies this
      ensures (State(), a) == Acquire(old(State()), h, cell)
      ensures TableOk(State())
    {
      var r := HashFind(h);
      FindSound(State(), list, h);
      if r.Some? {
        a := r.value;
      } else {
        a := cell;
        heap := heap[a := Record(h, 0, Sem(1, 0))];
        list := [a] + list;
      }
      heap := heap[a := heap[a].(references := heap[a].references + 1)];
      assert r.None? ==> heap == old(heap)[a := Record(h, 1, Sem(1, 0))];
    }

    /** The tail of fio_unlock_file, after the semaphore was upped. */
    method ReleaseIfUnused(a: Addr)
      requires TableOk(State()) && a in heap
      modifies this
      ensures State() == if old(heap)[a].references == 0 then Retire(old(State()), a) else old(State())
      ensures TableOk(State())
    {
      hide Distinct, Without;
      if heap[a].references == 0 {
        RetireKeepsTable(State(), a);
        var i := 0;
        while list[i] != a
          invariant 0 <= i < |list|
          invariant a in list[i..]
          decreases |list| - i
        {
          i := i + 1;
        }
        WithoutAt(list, i);
        hide TableOk;
        list := list[..i] + list[i + 1..];
        heap := heap - {a};
      }
    }
  }

  // ----- Threads that lock, try and unlock -----

  datatype Pc =
    | Idle
    | Down(a: Addr, h: Hash, woken: bool)    // about to test the semaphore in fio_mutex_down
    | Asleep(a: Addr, h: Hash)
    | Trying(a: Addr, h: Hash)               // about to run fio_mutex_down_trylock
    | Raced(a: Addr, h: Hash)                // trylock failed, about to look at the references again
    | Upping(a: Addr, h: Hash)               // unlocking: reference dropped, semaphore not yet upped
    | Waking(a: Addr, h: Hash)               // unlocking: upped, signal still to be sent
    | Leaving(a: Addr, h: Hash)              // unlocking: about to free the record if unused

  datatype Thread = Thread(pc: Pc, held: set<Hash>)

  /** `owner` is the thread inside a filelock_lock section that spans several
      semaphore sections, that is, an unlock under way. */
  datatype State = State(table: Table, owner: Option<Tid>, threads: map<Tid, Thread>)

  datatype Label =
    | LockGet(t: Tid, h: Hash, cell: Addr)
    | TryGet(t: Tid, h: Hash, cell: Addr)
    | DownTest(t: Tid)
    | Spurious(t: Tid)
    | TryTest(t: Tid)
    | SecondChance(t: Tid)
    | UnlockGet(t: Tid, h: Hash)
    | UnlockUp(t: Tid)
    | UnlockWake(t: Tid, target: Tid)
    | UnlockWakeNobody(t: Tid)
    | UnlockEnd(t: Tid)

  ghost function PcOf(s: State, t: Tid): Pc
    requires t in s.threads
  {
    s.threads[t].pc
  }

  /** A call may start when the thread is idle; an unlock only of a held name;
      filelock_lock sections only while nobody else is in one. */
  ghost predicate Enabled(s: State, l: Label) {
    l.t in s.threads &&
    var pc := PcOf(s, l.t);
    match l
    case LockGet(t, h, cell) => pc == Idle && s.owner == None && cell !in s.table.heap
    case TryGet(t, h, cell) => pc == Idle && s.owner == None && cell !in s.table.heap
    case DownTest(t) => pc.Down? && pc.a in s.table.heap
    case Spurious(t) => pc.Asleep?
    case TryTest(t) => pc.Trying? && pc.a in s.table.heap
    case SecondChance(t) => pc.Raced? && s.owner == None && pc.a in s.table.heap
    case UnlockGet(t, h) => pc == Idle && h in s.threads[t].held && s.owner == None
    case UnlockUp(t) => pc.Upping? && pc.a in s.table.heap
    case UnlockWake(t, u) => pc.Waking? && u in s.threads && PcOf(s, u) == Asleep(pc.a, pc.h)
    case UnlockWakeNobody(t) => pc.Waking? && forall u <- s.threads :: PcOf(s, u) != Asleep(pc.a, pc.h)
    case UnlockEnd(t) => pc.Leaving? && pc.a in s.table.heap
  }

  ghost function SetPc(s: State, t: Tid, pc: Pc): State
    requires t in s.threads
  {
    s.(threads := s.threads[t := s.threads[t].(pc := pc)])
  }

  ghost function SetRecord(s: State, a: Addr, r: Record): State {
    s.(table := s.table.(heap := s.table.heap[a := r]))
  }

  /** The thread returns from lock or trylock with the lock. */
  ghost function Granted(s: State, t: Tid, h: Hash): State
    requires t in s.threads
  {
    s.(threads := s.threads[t := Thread(Idle, s.threads[t].held + {h})])
  }

  ghost function Next(s: State, l: Label): State
    requires Enabled(s, l)
  {
    var t := l.t;
    var pc := PcOf(s, t);
    match l
    case LockGet(_, h, cell) =>
      var (tb, a) := Acquire(s.table, h, cell);
      SetPc(s.(table := tb), t, Down(a, h, false))
    case TryGet(_, h, cell) =>
      var (tb, a) := Acquire(s.table, h, cell);
      SetPc(s.(table := tb), t, Trying(a, h))
    case DownTest(_) =>
      var r := s.table.heap[pc.a];
      var (m, taken) := Enter(r.sem, pc.woken);
      var s' := SetRecord(s, pc.a, r.(sem := m));
      if taken then Granted(s', t, pc.h) else SetPc(s', t, Asleep(pc.a, pc.h))
    case Spurious(_) => SetPc(s, t, Down(pc.a, pc.h, true))
    case TryTest(_) =>
      var r := s.table.heap[pc.a];
      var (m, taken) := TryDown(r.sem);
      var s' := SetRecord(s, pc.a, r.(sem := m));
      if taken then Granted(s', t, pc.h) else SetPc(s', t, Raced(pc.a, pc.h))
    case SecondChance(_) =>
      var r := s.table.heap[pc.a];
      if r.references != 1 then
        SetPc(SetRecord(s, pc.a, r.(references := r.references - 1)), t, Idle)
      else
        SetPc(s, t, Down(pc.a, pc.h, false))
    case UnlockGet(_, h) =>
      (match Find(s.table, s.table.list, h)
       case Some(a) =>
         if a in s.table.heap then
           var r := s.table.heap[a];
           State(s.table.(heap := s.table.heap[a := r.(references := r.references - 1)]), Some(t),
                 s.threads[t := Thread(Upping(a, h), s.threads[t].held - {h})])
         else s
       case None => s)
    case UnlockUp(_) =>
      var r := s.table.heap[pc.a];
      var (m, wake) := Up(r.sem);
      SetPc(SetRecord(s, pc.a, r.(sem := m)), t,
            if wake then Waking(pc.a, pc.h) else Leaving(pc.a, pc.h))
    case UnlockWake(_, u) =>
      SetPc(SetPc(s, t, Leaving(pc.a, pc.h)), u, Down(pc.a, pc.h, true))
    case UnlockWakeNobody(_) => SetPc(s, t, Leaving(pc.a, pc.h))
    case UnlockEnd(_) =>
      var r := s.table.heap[pc.a];
      var s' := SetPc(s.(owner := None), t, Idle);
      if r.references == 0 then s'.(table := Retire(s.table, pc.a)) else s'
  }

  ghost predicate Legal(s: State, run: seq<Label>)
    decreases |run|
  {
    run == [] || (Enabled(s, run[0]) && Legal(Next(s, run[0]), run[1..]))
  }

  ghost function Run(s: State, run: seq<Label>): State
    requires Legal(s, run)
    decreases |run|
  {
    if run == [] then s else Run(Next(s, run[0]), run[1..])
  }

  ghost predicate Initial(s: State) {
    s.table == Table(map[], []) && s.owner == None &&
    forall t <- s.threads :: s.threads[t] == Thread(Idle, {})
  }

  // ----- Counting threads by what they do -----

  datatype Role =
    | Holding(h: Hash)
    | Calling(a: Addr)       // inside lock or trylock, reference taken
    | Releasing(a: Addr)
    | Sleeping(a: Addr)
    | Woken(a: Addr)
    | Signalling(a: Addr)
    | Unlocking(a: Addr)

  ghost predicate Plays(th: Thread, k: Role) {
    match k
    case Holding(h) => h in th.held
    case Calling(a) => (th.pc.Down? || th.pc.Asleep? || th.pc.Trying? || th.pc.Raced?) && th.pc.a == a
    case Releasing(a) => th.pc.Upping? && th.pc.a == a
    case Sleeping(a) => th.pc.Asleep? && th.pc.a == a
    case Woken(a) => th.pc.Down? && th.pc.woken && th.pc.a == a
    case Signalling(a) => th.pc.Waking? && th.pc.a == a
    case Unlocking(a) => InUnlock(th.pc) && th.pc.a == a
  }

  ghost predicate InUnlock(pc: Pc) {
    pc.Upping? || pc.Waking? || pc.Leaving?
  }

  ghost function Players(ts: map<Tid, Thread>, k: Role): set<Tid> {
    set t | t in ts && Plays(ts[t], k)
  }

  ghost function Count(ts: map<Tid, Thread>, k: Role): nat {
    |Players(ts, k)|
  }

  lemma CountUpdate(ts: map<Tid, Thread>, t: Tid, x: Thread)
    requires t in ts
    ensures forall k {:trigger Count(ts[t := x], k)} ::
              Count(ts[t := x], k) == Count(ts, k) - One(Plays(ts[t], k)) + One(Plays(x, k))
  {
    forall k
      ensures Count(ts[t := x], k) == Count(ts, k) - One(Plays(ts[t], k)) + One(Plays(x, k))
    {
      var a, b := Players(ts, k), Players(ts[t := x], k);
      assert a - {t} == b - {t};
      assert |a| == |a - {t}| + One(Plays(ts[t], k));
      assert |b| == |b - {t}| + One(Plays(x, k));
    }
  }

  lemma CountMember(ts: map<Tid, Thread>, k: Role)
    ensures Count(ts, k) > 0 <==> exists t :: t in ts && Plays(ts[t], k)
  {
    if Players(ts, k) != {} {
      var t :| t in Players(ts, k);
      assert t in ts && Plays(ts[t], k);
    }
    if t :| t in ts && Plays(ts[t], k) {
      assert t in Players(ts, k);
    }
  }

  lemma CountPair(ts: map<Tid, Thread>, k: Role, t: Tid, u: Tid)
    requires t in ts && u in ts && t != u && Plays(ts[t], k) && Plays(ts[u], k)
    ensures Count(ts, k) >= 2
  {
    assert {t, u} <= Players(ts, k);
    assert |Players(ts, k)| == |Players(ts, k) - {t, u}| + |{t, u}|;
  }

  // ----- The invariant -----

  ghost predicate PointerOk(s: State, t: Tid)
    requires t in s.threads
  {
    var th := s.threads[t];
    && (th.pc != Idle ==> th.pc.a in s.table.heap && s.table.heap[th.pc.a].hash == th.pc.h)
    && (InUnlock(th.pc) <==> s.owner == Some(t))
    && (forall h <- th.held :: HasRecord(s.table, h))
  }

  ghost predicate HasRecord(tb: Table, h: Hash) {
    exists a :: a in tb.heap && tb.heap[a].hash == h
  }

  ghost predicate RecordOk(s: State, a: Addr)
    requires a in s.table.heap
  {
    var r := s.table.heap[a];
    var ts := s.threads;
    && r.references == Count(ts, Holding(r.hash)) + Count(ts, Calling(a))
    && 0 <= r.sem.value
    && r.sem.value + Count(ts, Holding(r.hash)) + Count(ts, Releasing(a)) == 1
    && r.sem.waiters == Count(ts, Sleeping(a)) + Count(ts, Woken(a))
    && (r.references == 0 ==> Count(ts, Unlocking(a)) > 0)
    && (r.sem.value == 1 && Count(ts, Sleeping(a)) > 0 ==>
          Count(ts, Signalling(a)) + Count(ts, Woken(a)) > 0)
  }

  ghost predicate Inv(s: State) {
    && TableOk(s.table)
    && (forall t <- s.threads :: PointerOk(s, t))
    && (forall a <- s.table.heap :: RecordOk(s, a))
    && (s.owner.Some? ==> s.owner.value in s.threads)
  }

  lemma InitialIsInv(s: State)
    requires Initial(s)
    ensures Inv(s)
  {
  }

  // ----- Every step keeps the invariant -----

  lemma AcquireKeepsTable(tb: Table, h: Hash, cell: Addr)
    requires TableOk(tb) && cell !in tb.heap
    ensures var (tb', a) := Acquire(tb, h, cell);
            && TableOk(tb')
            && a in tb'.heap && tb'.heap[a].hash == h
            && (if a in tb.heap
                then tb'.heap == tb.heap[a := tb.heap[a].(references := tb.heap[a].references + 1)]
                else tb'.heap == tb.heap[a := Record(h, 1, Sem(1, 0))] && forall b <- tb.heap :: tb.heap[b].hash != h)
  {
    FindSound(tb, tb.list, h);
  }

  /** One thread moves, touching at most the record at a, which may be new. */
  ghost predicate Local(s: State, s': State, t: Tid, a: Addr) {
    && t in s.threads && t in s'.threads
    && s'.threads == s.threads[t := s'.threads[t]]
    && a in s'.table.heap
    && s'.table.heap.Keys == s.table.heap.Keys + {a}
    && (forall b <- s.table.heap :: s'.table.heap[b].hash == s.table.heap[b].hash)
    && (forall b <- s.table.heap :: b != a ==> s'.table.heap[b] == s.table.heap[b])
    && (forall u <- s.threads :: u != t ==> (s.owner == Some(u) <==> s'.owner == Some(u)))
    && (s'.owner.Some? ==> s'.owner.value in s.threads)
    && About(s.threads[t], s'.threads[t], a, s'.table.heap[a].hash)
    && (s'.threads[t].pc.Idle? || s'.threads[t].pc.h == s'.table.heap[a].hash)
    && (InUnlock(s'.threads[t].pc) <==> s'.owner == Some(t))
  }

  ghost predicate About(th: Thread, th': Thread, a: Addr, h: Hash) {
    && (th.pc.Idle? || th.pc.a == a)
    && (th'.pc.Idle? || th'.pc.a == a)
    && (forall x :: x != h ==> (x in th'.held <==> x in th.held))
  }

  lemma RecordKept(tb: Table, tb': Table, h: Hash)
    requires HasRecord(tb, h)
    requires forall a <- tb.heap :: a in tb'.heap && tb'.heap[a].hash == tb.heap[a].hash
    ensures HasRecord(tb', h)
  {
    var a :| a in tb.heap && tb.heap[a].hash == h;
    assert a in tb'.heap && tb'.heap[a].hash == h;
  }

  lemma PointersKept(s: State, s': State, t: Tid, a: Addr)
    requires forall u <- s.threads :: PointerOk(s, u)
    requires Local(s, s', t, a)
    ensures forall u <- s'.threads :: PointerOk(s', u)
  {
    forall u <- s'.threads ensures PointerOk(s', u) {
      assert PointerOk(s, u);
      forall h <- s'.threads[u].held ensures HasRecord(s'.table, h) {
        if h in s.threads[u].held {
          RecordKept(s.table, s'.table, h);
        }
      }
    }
  }

  lemma OthersKept(s: State, s': State, t: Tid, a: Addr, b: Addr)
    requires Local(s, s', t, a)
    requires b in s.table.heap && b != a && RecordOk(s, b)
    requires s'.table.heap[b].hash != s'.table.heap[a].hash
    ensures RecordOk(s', b)
  {
    CountUpdate(s.threads, t, s'.threads[t]);
  }

  lemma LocalKeepsInv(s: State, s': State, t: Tid, a: Addr)
    requires Inv(s) && Local(s, s', t, a)
    requires TableOk(s'.table) && RecordOk(s', a)
    ensures Inv(s')
  {
    PointersKept(s, s', t, a);
    forall b <- s'.table.heap ensures RecordOk(s', b) {
      if b != a {
        OthersKept(s, s', t, a, b);
      }
    }
  }

  lemma NobodyAt(s: State, h: Hash, a: Addr)
    requires forall t <- s.threads :: PointerOk(s, t)
    requires a !in s.table.heap && !HasRecord(s.table, h)
    ensures forall k {:trigger Count(s.threads, k)} ::
              k in {Holding(h), Calling(a), Releasing(a), Sleeping(a), Woken(a)} ==> Count(s.threads, k) == 0
  {
    forall k | k in {Holding(h), Calling(a), Releasing(a), Sleeping(a), Woken(a)}
      ensures Count(s.threads, k) == 0
    {
      CountMember(s.threads, k);
      forall t <- s.threads ensures !Plays(s.threads[t], k) {
        assert PointerOk(s, t);
      }
    }
  }

  lemma GetRecordOk(s: State, l: Label)
    requires Inv(s) && Enabled(s, l) && (l.LockGet? || l.TryGet?)
    ensures var (tb, a) := Acquire(s.table, l.h, l.cell);
            a in tb.heap && RecordOk(Next(s, l), a)
  {
    AcquireKeepsTable(s.table, l.h, l.cell);
    var (tb, a) := Acquire(s.table, l.h, l.cell);
    if a in s.table.heap {
      KnownRecordOk(s, l, a);
    } else {
      NobodyAt(s, l.h, a);
      NewRecordOk(s, l);
    }
  }

  lemma NewRecordOk(s: State, l: Label)
    requires Enabled(s, l) && (l.LockGet? || l.TryGet?)
    requires Find(s.table, s.table.list, l.h) == None
    requires Count(s.threads, Holding(l.h)) == Count(s.threads, Calling(l.cell)) == 0
    requires Count(s.threads, Releasing(l.cell)) == Count(s.threads, Sleeping(l.cell)) == 0
    requires Count(s.threads, Woken(l.cell)) == 0
    ensures l.cell in Next(s, l).table.heap && RecordOk(Next(s, l), l.cell)
  {
    CountUpdate(s.threads, l.t, Next(s, l).threads[l.t]);
  }

  lemma KnownRecordOk(s: State, l: Label, a: Addr)
    requires Enabled(s, l) && (l.LockGet? || l.TryGet?)
    requires a in s.table.heap && RecordOk(s, a) && Find(s.table, s.table.list, l.h) == Some(a)
    requires s.table.heap[a].hash == l.h
    ensures RecordOk(Next(s, l), a)
  {
    CountUpdate(s.threads, l.t, Next(s, l).threads[l.t]);
  }

  lemma GetIsLocal(s: State, l: Label)
    requires Enabled(s, l) && (l.LockGet? || l.TryGet?)
    requires TableOk(s.table) && PointerOk(s, l.t)
    ensures Local(s, Next(s, l), l.t, Next(s, l).threads[l.t].pc.a)
  {
    hide Acquire, Find, TableOk;
    AcquireKeepsTable(s.table, l.h, l.cell);
  }

  lemma GetKeepsInv(s: State, l: Label)
    requires Inv(s) && Enabled(s, l) && (l.LockGet? || l.TryGet?)
    ensures Inv(Next(s, l))
  {
    var s' := Next(s, l);
    AcquireKeepsTable(s.table, l.h, l.cell);
    GetRecordOk(s, l);
    GetIsLocal(s, l);
    LocalKeepsInv(s, s', l.t, s'.threads[l.t].pc.a);
  }

  lemma DownTestRecordOk(s: State, l: Label)
    requires Enabled(s, l) && l.DownTest?
    requires PointerOk(s, l.t) && RecordOk(s, PcOf(s, l.t).a)
    ensures RecordOk(Next(s, l), PcOf(s, l.t).a)
  {
    CountMember(s.threads, Holding(PcOf(s, l.t).h));
    CountUpdate(s.threads, l.t, Next(s, l).threads[l.t]);
    hide Count;
  }

  lemma TestRecordOk(s: State, l: Label)
    requires Enabled(s, l) && (l.DownTest? || l.TryTest? || l.Spurious? || l.SecondChance?)
    requires PointerOk(s, l.t) && RecordOk(s, PcOf(s, l.t).a)
    ensures RecordOk(Next(s, l), PcOf(s, l.t).a)
  {
    if l.DownTest? {
      DownTestRecordOk(s, l);
    } else if l.TryTest? {
      TryTestRecordOk(s, l);
    } else {
      CountUpdate(s.threads, l.t, Next(s, l).threads[l.t]);
      hide Count;
    }
  }

  lemma TryTestRecordOk(s: State, l: Label)
    requires Enabled(s, l) && l.TryTest?
    requires PointerOk(s, l.t) && RecordOk(s, PcOf(s, l.t).a)
    ensures RecordOk(Next(s, l), PcOf(s, l.t).a)
  {
    CountMember(s.threads, Holding(PcOf(s, l.t).h));
    CountUpdate(s.threads, l.t, Next(s, l).threads[l.t]);
    hide Count;
  }

  lemma TestKeepsTable(s: State, l: Label)
    requires Enabled(s, l) && (l.DownTest? || l.TryTest? || l.Spurious? || l.SecondChance?)
    requires TableOk(s.table)
    ensures TableOk(Next(s, l).table)
  {
  }

  lemma TestIsLocal(s: State, l: Label)
    requires Enabled(s, l) && (l.DownTest? || l.TryTest? || l.Spurious? || l.SecondChance?)
    requires PointerOk(s, l.t) && (s.owner.Some? ==> s.owner.value in s.threads)
    ensures Local(s, Next(s, l), l.t, PcOf(s, l.t).a)
  {
    hide Enter, TryDown, HasRecord;
  }

  lemma TestKeepsInv(s: State, l: Label)
    requires Inv(s) && Enabled(s, l) && (l.DownTest? || l.TryTest? || l.Spurious? || l.SecondChance?)
    ensures Inv(Next(s, l))
  {
    var s' := Next(s, l);
    var a := PcOf(s, l.t).a;
    assert PointerOk(s, l.t) && a in s.table.heap && RecordOk(s, a);
    hide RecordOk, TableOk, Local;
    TestRecordOk(s, l);
    TestIsLocal(s, l);
    TestKeepsTable(s, l);
    assert a in s'.table.heap;
    LocalKeepsInv(s, s', l.t, a);
  }

  lemma UnlockGetRecordOk(s: State, l: Label, a: Addr)
    requires Enabled(s, l) && l.UnlockGet?
    requires a in s.table.heap && RecordOk(s, a) && s.table.heap[a].hash == l.h
    requires Find(s.table, s.table.list, l.h) == Some(a)
    ensures RecordOk(Next(s, l), a)
  {
    CountUpdate(s.threads, l.t, Next(s, l).threads[l.t]);
    hide Count;
  }

  lemma UnlockGetIsLocal(s: State, l: Label, a: Addr)
    requires Enabled(s, l) && l.UnlockGet?
    requires a in s.table.heap && s.table.heap[a].hash == l.h
    requires Find(s.table, s.table.list, l.h) == Some(a)
    ensures Local(s, Next(s, l), l.t, a)
  {
  }

  /** An unlock by a holder always finds the record. */
  lemma UnlockFinds(s: State, t: Tid, h: Hash) returns (a: Addr)
    requires Inv(s) && t in s.threads && h in s.threads[t].held
    ensures a in s.table.heap && s.table.heap[a].hash == h
    ensures Find(s.table, s.table.list, h) == Some(a)
  {
    assert PointerOk(s, t);
    a :| a in s.table.heap && s.table.heap[a].hash == h;
    FindExact(s.table, h, a);
  }

  lemma UnlockGetKeepsInv(s: State, l: Label)
    requires Inv(s) && Enabled(s, l) && l.UnlockGet?
    ensures Inv(Next(s, l))
  {
    var a := UnlockFinds(s, l.t, l.h);
    UnlockGetRecordOk(s, l, a);
    UnlockGetIsLocal(s, l, a);
    LocalKeepsInv(s, Next(s, l), l.t, a);
  }

  lemma UnlockUpRecordOk(s: State, l: Label)
    requires Enabled(s, l) && l.UnlockUp?
    requires PointerOk(s, l.t) && RecordOk(s, PcOf(s, l.t).a)
    ensures RecordOk(Next(s, l), PcOf(s, l.t).a)
  {
    CountMember(s.threads, Releasing(PcOf(s, l.t).a));
    CountUpdate(s.threads, l.t, Next(s, l).threads[l.t]);
    hide Count;
  }

  lemma UnlockUpIsLocal(s: State, l: Label)
    requires Enabled(s, l) && l.UnlockUp? && PointerOk(s, l.t)
    requires s.owner.Some? ==> s.owner.value in s.threads
    ensures Local(s, Next(s, l), l.t, PcOf(s, l.t).a)
  {
    hide Up, HasRecord;
  }

  lemma UnlockUpKeepsInv(s: State, l: Label)
    requires Inv(s) && Enabled(s, l) && l.UnlockUp?
    ensures Inv(Next(s, l))
  {
    assert PointerOk(s, l.t);
    UnlockUpRecordOk(s, l);
    UnlockUpIsLocal(s, l);
    LocalKeepsInv(s, Next(s, l), l.t, PcOf(s, l.t).a);
  }

  /** A signaller may go once nobody sleeps or somebody is awake. */
  lemma SignalledRecordOk(s: State, t: Tid)
    requires t in s.threads && PcOf(s, t).Waking?
    requires PointerOk(s, t) && RecordOk(s, PcOf(s, t).a)
    requires s.owner.Some? ==> s.owner.value in s.threads
    requires Count(s.threads, Sleeping(PcOf(s, t).a)) == 0 || Count(s.threads, Woken(PcOf(s, t).a)) > 0
    ensures var s' := SetPc(s, t, Leaving(PcOf(s, t).a, PcOf(s, t).h));
            RecordOk(s', PcOf(s, t).a) && Local(s, s', t, PcOf(s, t).a)
  {
    CountUpdate(s.threads, t, s.threads[t].(pc := Leaving(PcOf(s, t).a, PcOf(s, t).h)));
  }

  lemma SignalledKeepsInv(s: State, t: Tid)
    requires Inv(s) && t in s.threads && PcOf(s, t).Waking?
    requires Count(s.threads, Sleeping(PcOf(s, t).a)) == 0 || Count(s.threads, Woken(PcOf(s, t).a)) > 0
    ensures Inv(SetPc(s, t, Leaving(PcOf(s, t).a, PcOf(s, t).h)))
  {
    assert PointerOk(s, t);
    SignalledRecordOk(s, t);
    LocalKeepsInv(s, SetPc(s, t, Leaving(PcOf(s, t).a, PcOf(s, t).h)), t, PcOf(s, t).a);
  }

  /** A signal is the target waking up, then the signaller moving on. */
  lemma WakeSplits(s: State, l: Label)
    requires Enabled(s, l) && l.UnlockWake?
    ensures var pc := PcOf(s, l.t); var mid := Next(s, Spurious(l.target));
            && Enabled(s, Spurious(l.target))
            && l.t in mid.threads && PcOf(mid, l.t) == pc
            && Count(mid.threads, Woken(pc.a)) > 0
            && Next(s, l) == SetPc(mid, l.t, Leaving(pc.a, pc.h))
  {
    var pc := PcOf(s, l.t);
    var mid := Next(s, Spurious(l.target));
    assert l.target in mid.threads && Plays(mid.threads[l.target], Woken(pc.a));
    CountMember(mid.threads, Woken(pc.a));
    assert Next(s, l).threads == SetPc(mid, l.t, Leaving(pc.a, pc.h)).threads;
  }

  lemma UnlockWakeKeepsInv(s: State, l: Label)
    requires Inv(s) && Enabled(s, l) && l.UnlockWake?
    ensures Inv(Next(s, l))
  {
    WakeSplits(s, l);
    TestKeepsInv(s, Spurious(l.target));
    SignalledKeepsInv(Next(s, Spurious(l.target)), l.t);
  }

  lemma UnlockWakeNobodyKeepsInv(s: State, l: Label)
    requires Inv(s) && Enabled(s, l) && l.UnlockWakeNobody?
    ensures Inv(Next(s, l))
  {
    NobodySleeps(s, l);
    hide RecordOk, TableOk, Count, PointerOk;
    SignalledKeepsInv(s, l.t);
  }

  lemma NobodySleeps(s: State, l: Label)
    requires Inv(s) && Enabled(s, l) && l.UnlockWakeNobody?
    ensures Count(s.threads, Sleeping(PcOf(s, l.t).a)) == 0
  {
    hide RecordOk, Count;
    var pc := PcOf(s, l.t);
    assert PointerOk(s, l.t);
    CountMember(s.threads, Sleeping(pc.a));
    forall u <- s.threads ensures !Plays(s.threads[u], Sleeping(pc.a)) {
      assert PointerOk(s, u);
    }
  }

  lemma UnlockEndUsedRecordOk(s: State, l: Label)
    requires Enabled(s, l) && l.UnlockEnd?
    requires PointerOk(s, l.t) && RecordOk(s, PcOf(s, l.t).a)
    requires s.table.heap[PcOf(s, l.t).a].references != 0
    ensures RecordOk(Next(s, l), PcOf(s, l.t).a)
    ensures Local(s, Next(s, l), l.t, PcOf(s, l.t).a)
  {
    CountUpdate(s.threads, l.t, Next(s, l).threads[l.t]);
  }

  /** When the references are gone nobody but the unlocker knows the record. */
  lemma Unreferenced(s: State, t: Tid, u: Tid)
    requires Inv(s) && t in s.threads && u in s.threads && t != u
    requires PcOf(s, t).Leaving? && s.table.heap[PcOf(s, t).a].references == 0
    ensures PcOf(s, u).Idle? || PcOf(s, u).a != PcOf(s, t).a
    ensures PcOf(s, t).h !in s.threads[u].held && PcOf(s, t).h !in s.threads[t].held
  {
    assert PointerOk(s, t) && PointerOk(s, u);
    var a := PcOf(s, t).a;
    assert RecordOk(s, a);
    CountMember(s.threads, Holding(PcOf(s, t).h));
    CountMember(s.threads, Calling(a));
    assert !Plays(s.threads[u], Calling(a)) && !Plays(s.threads[u], Holding(PcOf(s, t).h));
    assert !Plays(s.threads[t], Holding(PcOf(s, t).h));
  }

  lemma OtherRecordOk(s: State, l: Label, b: Addr)
    requires Enabled(s, l) && l.UnlockEnd?
    requires b in s.table.heap && b != PcOf(s, l.t).a && RecordOk(s, b)
    requires s.table.heap[PcOf(s, l.t).a].references == 0
    ensures RecordOk(Next(s, l), b)
  {
    CountUpdate(s.threads, l.t, Next(s, l).threads[l.t]);
  }

  lemma OtherPointerOk(s: State, l: Label, u: Tid)
    requires Enabled(s, l) && l.UnlockEnd? && u in s.threads
    requires PointerOk(s, u) && PointerOk(s, l.t)
    requires u != l.t ==> PcOf(s, u).Idle? || PcOf(s, u).a != PcOf(s, l.t).a
    requires PcOf(s, l.t).h !in s.threads[u].held
    requires s.table.heap[PcOf(s, l.t).a].references == 0
    ensures PointerOk(Next(s, l), u)
  {
    var s' := Next(s, l);
    forall h <- s.threads[u].held ensures HasRecord(s'.table, h) {
      var b :| b in s.table.heap && s.table.heap[b].hash == h;
      assert b in s'.table.heap && s'.table.heap[b].hash == h;
    }
  }

  lemma UnlockEndKeepsInv(s: State, l: Label)
    requires Inv(s) && Enabled(s, l) && l.UnlockEnd?
    ensures Inv(Next(s, l))
  {
    var s' := Next(s, l);
    var a := PcOf(s, l.t).a;
    assert PointerOk(s, l.t);
    if s.table.heap[a].references != 0 {
      UnlockEndUsedRecordOk(s, l);
      LocalKeepsInv(s, s', l.t, a);
    } else {
      RetireKeepsTable(s.table, a);
      forall b <- s'.table.heap ensures RecordOk(s', b) {
        OtherRecordOk(s, l, b);
      }
      forall u <- s'.threads ensures PointerOk(s', u) {
        if u != l.t {
          Unreferenced(s, l.t, u);
        } else {
          assert RecordOk(s, a);
          CountMember(s.threads, Holding(PcOf(s, l.t).h));
          assert !Plays(s.threads[u], Holding(PcOf(s, l.t).h));
        }
        OtherPointerOk(s, l, u);
      }
    }
  }

  lemma StepKeepsInv(s: State, l: Label)
    requires Inv(s) && Enabled(s, l)
    ensures Inv(Next(s, l))
  {
    match l
    case LockGet(_, _, _) => GetKeepsInv(s, l);
    case TryGet(_, _, _) => GetKeepsInv(s, l);
    case DownTest(_) => TestKeepsInv(s, l);
    case Spurious(_) => TestKeepsInv(s, l);
    case TryTest(_) => TestKeepsInv(s, l);
    case SecondChance(_) => TestKeepsInv(s, l);
    case UnlockGet(_, _) => UnlockGetKeepsInv(s, l);
    case UnlockUp(_) => UnlockUpKeepsInv(s, l);
    case UnlockWake(_, _) => UnlockWakeKeepsInv(s, l);
    case UnlockWakeNobody(_) => UnlockWakeNobodyKeepsInv(s, l);
    case UnlockEnd(_) => UnlockEndKeepsInv(s, l);
  }

  lemma {:induction false} RunKeepsInv(s: State, run: seq<Label>)
    requires Inv(s) && Legal(s, run)
    ensures Inv(Run(s, run))
    decreases |run|
  {
    if run != [] {
      StepKeepsInv(s, run[0]);
      RunKeepsInv(Next(s, run[0]), run[1..]);
    }
  }

  // ----- What holds after every run -----

  lemma ReachableInv(s: State, run: seq<Label>)
    requires Initial(s) && Legal(s, run)
    ensures Inv(Run(s, run))
  {
    InitialIsInv(s);
    RunKeepsInv(s, run);
  }

  /** At most one holder per hash, and a holder excludes a free semaphore. */
  lemma AtMostOneHolder(s: State, run: seq<Label>, t: Tid, u: Tid, h: Hash)
    requires Initial(s) && Legal(s, run)
    ensures var e := Run(s, run);
            t in e.threads && u in e.threads && h in e.threads[t].held && h in e.threads[u].held ==> t == u
  {
    ReachableInv(s, run);
    var e := Run(s, run);
    if t in e.threads && u in e.threads && h in e.threads[t].held && h in e.threads[u].held && t != u {
      var a := UnlockFinds(e, t, h);
      assert RecordOk(e, a);
      assert Plays(e.threads[t], Holding(h)) && Plays(e.threads[u], Holding(h));
      CountPair(e.threads, Holding(h), t, u);
      assert false;
    }
  }

  /** Records are distinct by hash, and their reference count is the number of
      holders plus the number of threads inside lock or trylock. */
  lemma ReferencesExact(s: State, run: seq<Label>)
    requires Initial(s) && Legal(s, run)
    ensures var e := Run(s, run);
            && (forall a <- e.table.heap, b <- e.table.heap :: e.table.heap[a].hash == e.table.heap[b].hash ==> a == b)
            && (forall a <- e.table.heap :: var r := e.table.heap[a];
                  && r.references == Count(e.threads, Holding(r.hash)) + Count(e.threads, Calling(a))
                  && r.sem.waiters == Count(e.threads, Sleeping(a)) + Count(e.threads, Woken(a)))
  {
    ReachableInv(s, run);
    var e := Run(s, run);
    forall a <- e.table.heap
      ensures var r := e.table.heap[a];
              && r.references == Count(e.threads, Holding(r.hash)) + Count(e.threads, Calling(a))
              && r.sem.waiters == Count(e.threads, Sleeping(a)) + Count(e.threads, Woken(a))
    {
      assert RecordOk(e, a);
    }
  }

  /** No record is freed while a thread refers to it: the pointer of every call
      under way leads to a live, listed record, and so does every held name. */
  lemma NoUseAfterFree(s: State, run: seq<Label>, t: Tid)
    requires Initial(s) && Legal(s, run)
    requires t in Run(s, run).threads
    ensures var e := Run(s, run); var th := e.threads[t];
            && (th.pc != Idle ==>
                  th.pc.a in e.table.heap && th.pc.a in e.table.list && e.table.heap[th.pc.a].hash == th.pc.h)
            && (forall h <- th.held :: Find(e.table, e.table.list, h).Some?)
  {
    ReachableInv(s, run);
    var e := Run(s, run);
    assert PointerOk(e, t);
    forall h <- e.threads[t].held ensures Find(e.table, e.table.list, h).Some? {
      var a := UnlockFinds(e, t, h);
    }
  }

  /** Outside an unlock, the list is empty exactly when nobody refers to a lock;
      so the assertion in fio_filelock_exit holds once all locks are returned. */
  lemma EmptyIffUnreferenced(s: State, run: seq<Label>)
    requires Initial(s) && Legal(s, run) && Run(s, run).owner == None
    ensures var e := Run(s, run);
            e.table.list == [] <==> forall t <- e.threads :: e.threads[t] == Thread(Idle, {})
  {
    ReachableInv(s, run);
    var e := Run(s, run);
    if e.table.list == [] {
      forall t <- e.threads ensures e.threads[t] == Thread(Idle, {}) {
        assert PointerOk(e, t);
        assert e.threads[t].held == {};
      }
    } else {
      Referenced(e, e.table.list[0]);
    }
  }

  lemma Referenced(e: State, a: Addr)
    requires Inv(e) && a in e.table.heap && e.owner == None
    ensures exists t :: t in e.threads && e.threads[t] != Thread(Idle, {})
  {
    var h := e.table.heap[a].hash;
    assert RecordOk(e, a);
    hide PointerOk, TableOk, Count;
    var k := if Count(e.threads, Holding(h)) > 0 then Holding(h)
             else if Count(e.threads, Calling(a)) > 0 then Calling(a)
             else Unlocking(a);
    assert Count(e.threads, k) > 0;
    hide RecordOk;
    CountMember(e.threads, k);
    var t :| t in e.threads && Plays(e.threads[t], k);
    assert e.threads[t] != Thread(Idle, {});
  }

  /** The thread sleeps on a lock that nobody holds or is letting go of. */
  ghost predicate SleepsOnFree(e: State, t: Tid) {
    && t in e.threads && e.threads[t].pc.Asleep?
    && forall u <- e.threads ::
         && !Plays(e.threads[u], Holding(e.threads[t].pc.h))
         && !Plays(e.threads[u], Releasing(e.threads[t].pc.a))
  }

  lemma SomeoneComes(e: State, t: Tid)
    requires Inv(e) && SleepsOnFree(e, t)
    ensures var pc := e.threads[t].pc;
            && pc.a in e.table.heap && e.table.heap[pc.a].sem.value == 1 && e.table.heap[pc.a].hash == pc.h
            && exists u :: u in e.threads && (Plays(e.threads[u], Signalling(pc.a)) || Plays(e.threads[u], Woken(pc.a)))
  {
    var a := e.threads[t].pc.a;
    assert PointerOk(e, t);
    assert RecordOk(e, a);
    CountMember(e.threads, Holding(e.threads[t].pc.h));
    CountMember(e.threads, Releasing(a));
    assert Plays(e.threads[t], Sleeping(a));
    CountMember(e.threads, Sleeping(a));
    CountMember(e.threads, Signalling(a));
    CountMember(e.threads, Woken(a));
  }

  /** `finish` consists of steps already due and ends with the waiter w holding h. */
  ghost predicate HandsOver(e: State, finish: seq<Label>, w: Tid, a: Addr, h: Hash) {
    && (forall l <- finish :: l.UnlockWake? || l.DownTest?)
    && w in e.threads && (Plays(e.threads[w], Sleeping(a)) || Plays(e.threads[w], Woken(a)))
    && Legal(e, finish) && w in Run(e, finish).threads && h in Run(e, finish).threads[w].held
  }

  lemma HandOver(e: State, t: Tid, u: Tid) returns (finish: seq<Label>, w: Tid)
    requires t in e.threads && e.threads[t].pc.Asleep? && u in e.threads && PointerOk(e, u)
    requires var pc := e.threads[t].pc;
             && pc.a in e.table.heap && e.table.heap[pc.a].sem.value == 1 && e.table.heap[pc.a].hash == pc.h
             && (Plays(e.threads[u], Signalling(pc.a)) || Plays(e.threads[u], Woken(pc.a)))
    ensures HandsOver(e, finish, w, e.threads[t].pc.a, e.threads[t].pc.h)
  {
    hide Next, Enabled, Legal, Run;
    if Plays(e.threads[u], Woken(e.threads[t].pc.a)) {
      w := u;
      finish := TakesIt(e, u);
    } else {
      w := t;
      finish := WokenTakesIt(e, u, t);
    }
  }

  /** No wake-up is lost on any lock: while a lock is free and a thread sleeps
      on it, an unlocker is about to signal it or a woken thread is about to
      test it again, and their next steps hand the lock to a waiter. */
  lemma NoSleeperForgotten(s: State, run: seq<Label>, t: Tid) returns (finish: seq<Label>, w: Tid)
    requires Initial(s) && Legal(s, run) && SleepsOnFree(Run(s, run), t)
    ensures HandsOver(Run(s, run), finish, w, Run(s, run).threads[t].pc.a, Run(s, run).threads[t].pc.h)
  {
    ReachableInv(s, run);
    var e := Run(s, run);
    hide RecordOk, TableOk, Next, Enabled, PointerOk, HandsOver, Plays;
    SomeoneComes(e, t);
    var a := e.threads[t].pc.a;
    var u :| u in e.threads && (Plays(e.threads[u], Signalling(a)) || Plays(e.threads[u], Woken(a)));
    finish, w := HandOver(e, t, u);
  }

  lemma TakesIt(e: State, w: Tid) returns (finish: seq<Label>)
    requires w in e.threads && e.threads[w].pc.Down? && e.threads[w].pc.a in e.table.heap
    requires e.table.heap[e.threads[w].pc.a].sem.value == 1
    ensures finish == [DownTest(w)] && Legal(e, finish)
    ensures w in Run(e, finish).threads && e.threads[w].pc.h in Run(e, finish).threads[w].held
  {
    finish := [DownTest(w)];
    var e1 := Next(e, DownTest(w));
    LegalStep(e1, [], e1, DownTest(w), e);
    assert [DownTest(w)] + [] == finish;
  }

  lemma WokenTakesIt(e: State, g: Tid, w: Tid) returns (finish: seq<Label>)
    requires g in e.threads && w in e.threads && e.threads[g].pc.Waking?
    requires e.threads[w].pc == Asleep(e.threads[g].pc.a, e.threads[g].pc.h)
    requires e.threads[g].pc.a in e.table.heap && e.table.heap[e.threads[g].pc.a].sem.value == 1
    ensures finish == [UnlockWake(g, w), DownTest(w)] && Legal(e, finish)
    ensures w in Run(e, finish).threads && e.threads[w].pc.h in Run(e, finish).threads[w].held
  {
    var e1 := Next(e, UnlockWake(g, w));
    var rest := TakesIt(e1, w);
    finish := [UnlockWake(g, w), DownTest(w)];
    LegalStep(e1, rest, Run(e1, rest), UnlockWake(g, w), e);
    assert [UnlockWake(g, w)] + rest == finish;
  }

  /** After every run, a thread that tests a lock, in lock or in trylock, gets it
      exactly when nobody holds the name and nobody is still releasing it. */
  lemma TestGrantsExactly(s: State, run: seq<Label>, l: Label)
    requires Initial(s) && Legal(s, run)
    requires Enabled(Run(s, run), l) && (l.DownTest? || l.TryTest?)
    ensures var e := Run(s, run); var th := e.threads[l.t];
            && l.t in Next(e, l).threads
            && (Next(e, l).threads[l.t] == Thread(Idle, th.held + {th.pc.h}) <==>
                  forall u <- e.threads ::
                    !Plays(e.threads[u], Holding(th.pc.h)) && !Plays(e.threads[u], Releasing(th.pc.a)))
  {
    ReachableInv(s, run);
    var e := Run(s, run);
    var pc := e.threads[l.t].pc;
    assert PointerOk(e, l.t);
    assert RecordOk(e, pc.a);
    hide Inv, PointerOk, Count, Legal, Run;
    CountMember(e.threads, Holding(pc.h));
    CountMember(e.threads, Releasing(pc.a));
  }

  /** A trylock that failed the first test gives up exactly when the lock is
      held or another thread is inside lock or trylock on it. */
  lemma SecondChanceExact(s: State, run: seq<Label>, t: Tid)
    requires Initial(s) && Legal(s, run)
    requires var e := Run(s, run); t in e.threads && e.threads[t].pc.Raced? && e.owner == None
    ensures var e := Run(s, run); var pc := e.threads[t].pc;
            && Enabled(e, SecondChance(t))
            && (PcOf(Next(e, SecondChance(t)), t) == Idle <==>
                  exists u :: u in e.threads &&
                    (Plays(e.threads[u], Holding(pc.h)) || (u != t && Plays(e.threads[u], Calling(pc.a)))))
  {
    ReachableInv(s, run);
    var e := Run(s, run);
    var pc := e.threads[t].pc;
    assert PointerOk(e, t);
    assert RecordOk(e, pc.a);
    CountMember(e.threads, Holding(pc.h));
    assert Plays(e.threads[t], Calling(pc.a));
    CountOthers(e.threads, Calling(pc.a), t);
  }

  lemma CountOthers(ts: map<Tid, Thread>, k: Role, t: Tid)
    requires t in ts && Plays(ts[t], k)
    ensures Count(ts, k) >= 1
    ensures Count(ts, k) > 1 <==> exists u :: u in ts && u != t && Plays(ts[u], k)
  {
    var others := Players(ts, k) - {t};
    assert |Players(ts, k)| == |others| + 1;
    if others != {} {
      var u :| u in others;
      assert u in ts && u != t && Plays(ts[u], k);
    }
    if u :| u in ts && u != t && Plays(ts[u], k) {
      assert u in others;
    }
  }

  /** The second chance is a blocking wait: whenever it is taken, a thread that
      locks the name in between puts the trylock to sleep. */
  lemma TrylockCanSleep(s: State, run: seq<Label>, t: Tid, u: Tid, cell: Addr)
    requires Initial(s) && Legal(s, run)
    requires var e := Run(s, run);
             && Enabled(e, SecondChance(t)) && PcOf(Next(e, SecondChance(t)), t) != Idle
             && u in e.threads && u != t && e.threads[u].pc == Idle && cell !in e.table.heap
    ensures var e := Run(s, run); var pc := e.threads[t].pc;
            var more := [SecondChance(t), LockGet(u, pc.h, cell), DownTest(u), DownTest(t)];
            && Legal(e, more)
            && t in Run(e, more).threads && Run(e, more).threads[t].pc.Asleep?
  {
    ReachableInv(s, run);
    var e := Run(s, run);
    assert PointerOk(e, t);
    FreeWhenTaken(e, t);
    FindExact(e.table, e.threads[t].pc.h, e.threads[t].pc.a);
    SleepTrace(e, t, u, cell);
  }

  lemma SleepTrace(e: State, t: Tid, u: Tid, cell: Addr)
    requires Enabled(e, SecondChance(t)) && PcOf(Next(e, SecondChance(t)), t) != Idle
    requires u in e.threads && u != t && e.threads[u].pc == Idle && cell !in e.table.heap
    requires var pc := e.threads[t].pc;
             Find(e.table, e.table.list, pc.h) == Some(pc.a) && e.table.heap[pc.a].sem.value == 1
    ensures var pc := e.threads[t].pc;
            var more := [SecondChance(t), LockGet(u, pc.h, cell), DownTest(u), DownTest(t)];
            && Legal(e, more)
            && t in Run(e, more).threads && Run(e, more).threads[t].pc.Asleep?
  {
    var pc := e.threads[t].pc;
    var e1 := Next(e, SecondChance(t));
    assert e1.table == e.table;
    var e2 := Next(e1, LockGet(u, pc.h, cell));
    assert e2.threads[u].pc == Down(pc.a, pc.h, false) && e2.threads[t].pc == Down(pc.a, pc.h, false);
    assert e2.table.heap[pc.a].sem == e.table.heap[pc.a].sem;
    var e3 := Next(e2, DownTest(u));
    assert e3.threads[t].pc == Down(pc.a, pc.h, false) && e3.table.heap[pc.a].sem.value == 0;
    var e4 := Next(e3, DownTest(t));
    LegalStep(e4, [], e4, DownTest(t), e3);
    assert [DownTest(t)] + [] == [DownTest(t)];
    LegalStep(e3, [DownTest(t)], e4, DownTest(u), e2);
    assert [DownTest(u)] + [DownTest(t)] == [DownTest(u), DownTest(t)];
    LegalStep(e2, [DownTest(u), DownTest(t)], e4, LockGet(u, pc.h, cell), e1);
    assert [LockGet(u, pc.h, cell)] + [DownTest(u), DownTest(t)] == [LockGet(u, pc.h, cell), DownTest(u), DownTest(t)];
    LegalStep(e1, [LockGet(u, pc.h, cell), DownTest(u), DownTest(t)], e4, SecondChance(t), e);
    assert [SecondChance(t)] + [LockGet(u, pc.h, cell), DownTest(u), DownTest(t)]
        == [SecondChance(t), LockGet(u, pc.h, cell), DownTest(u), DownTest(t)];
  }

  lemma FreeWhenTaken(e: State, t: Tid)
    requires Inv(e) && t in e.threads && e.threads[t].pc.Raced? && e.owner == None
    requires PcOf(Next(e, SecondChance(t)), t) != Idle
    ensures e.table.heap[e.threads[t].pc.a].sem.value == 1
  {
    var pc := e.threads[t].pc;
    assert PointerOk(e, t);
    assert RecordOk(e, pc.a);
    NobodyReleases(e, pc.a);
    assert e.table.heap[pc.a].references == 1;
    hide Next, PointerOk, TableOk, Count;
    assert Plays(e.threads[t], Calling(pc.a));
    CountOthers(e.threads, Calling(pc.a), t);
  }

  lemma NobodyReleases(e: State, a: Addr)
    requires Inv(e) && e.owner == None
    ensures Count(e.threads, Releasing(a)) == 0
  {
    hide RecordOk, TableOk, Count;
    CountMember(e.threads, Releasing(a));
    forall u <- e.threads ensures !Plays(e.threads[u], Releasing(a)) {
      assert PointerOk(e, u);
    }
  }

  lemma LegalStep(s': State, rest: seq<Label>, end: State, l: Label, s: State)
    requires Enabled(s, l) && Next(s, l) == s' && Legal(s', rest) && Run(s', rest) == end
    ensures Legal(s, [l] + rest) && Run(s, [l] + rest) == end
  {
    assert ([l] + rest)[1..] == rest;
  }

  lemma {:induction false} LegalConcat(s: State, run: seq<Label>, more: seq<Label>)
    requires Legal(s, run) && Legal(Run(s, run), more)
    ensures Legal(s, run + more) && Run(s, run + more) == Run(Run(s, run), more)
    decreases |run|
  {
    hide Enabled, Next;
    if run == [] {
      assert run + more == more;
    } else {
      LegalConcat(Next(s, run[0]), run[1..], more);
      assert (run + more)[1..] == run[1..] + more;
    }
  }

  /** One record, at a; two threads of interest. */
  ghost function Scene(s: State, a: Addr, r: Record, owner: Option<Tid>, v: Tid, x: Thread, t: Tid, y: Thread): State {
    State(Table(map[a := r], [a]), owner, s.threads[v := x][t := y])
  }

  lemma Step(e: State, e': State, l: Label, s: State, run: seq<Label>) returns (longer: seq<Label>)
    requires Legal(s, run) && Run(s, run) == e && Enabled(e, l) && Next(e, l) == e'
    ensures longer == run + [l] && Legal(s, longer) && Run(s, longer) == e'
  {
    longer := run + [l];
    LegalStep(e', [], e', l, e);
    assert [l] + [] == [l];
    LegalConcat(s, run, [l]);
  }

  lemma LockSteps(s: State, v: Tid, t: Tid, h: Hash, a: Addr)
    requires Initial(s) && v in s.threads && t in s.threads && v != t
    ensures var idle := Thread(Idle, {});
            var e := Scene(s, a, Record(h, 1, Sem(1, 0)), None, v, Thread(Down(a, h, false), {}), t, idle);
            && Enabled(s, LockGet(v, h, a)) && Next(s, LockGet(v, h, a)) == e
            && Enabled(e, DownTest(v))
            && Next(e, DownTest(v)) == Scene(s, a, Record(h, 1, Sem(0, 0)), None, v, Thread(Idle, {h}), t, idle)
  {
    var idle := Thread(Idle, {});
    var e := Scene(s, a, Record(h, 1, Sem(1, 0)), None, v, Thread(Down(a, h, false), {}), t, idle);
    var e' := Scene(s, a, Record(h, 1, Sem(0, 0)), None, v, Thread(Idle, {h}), t, idle);
    assert map[][a := Record(h, 1, Sem(1, 0))] == e.table.heap;
    assert [a] + [] == [a];
    assert s.threads[v := Thread(Down(a, h, false), {})] == e.threads;
    assert e.table.heap[a := Record(h, 1, Sem(0, 0))] == e'.table.heap;
    assert {} + {h} == {h};
    assert e.threads[v := Thread(Idle, {h})] == e'.threads;
  }

  lemma TrySteps(s: State, v: Tid, t: Tid, x: Thread, h: Hash, a: Addr, b: Addr)
    requires v in s.threads && t in s.threads && v != t && a != b
    ensures var e0 := Scene(s, a, Record(h, 1, Sem(0, 0)), None, v, x, t, Thread(Idle, {}));
            var e := Scene(s, a, Record(h, 2, Sem(0, 0)), None, v, x, t, Thread(Trying(a, h), {}));
            && Enabled(e0, TryGet(t, h, b)) && Next(e0, TryGet(t, h, b)) == e
            && Enabled(e, TryTest(t))
            && Next(e, TryTest(t)) == Scene(s, a, Record(h, 2, Sem(0, 0)), None, v, x, t, Thread(Raced(a, h), {}))
  {
    var e0 := Scene(s, a, Record(h, 1, Sem(0, 0)), None, v, x, t, Thread(Idle, {}));
    var e := Scene(s, a, Record(h, 2, Sem(0, 0)), None, v, x, t, Thread(Trying(a, h), {}));
    var e' := Scene(s, a, Record(h, 2, Sem(0, 0)), None, v, x, t, Thread(Raced(a, h), {}));
    assert e0.table.heap[a := Record(h, 2, Sem(0, 0))] == e.table.heap;
    assert e0.threads[t := Thread(Trying(a, h), {})] == e.threads;
    assert e.table.heap[a := Record(h, 2, Sem(0, 0))] == e'.table.heap;
    assert e.threads[t := Thread(Raced(a, h), {})] == e'.threads;
  }

  /** The lock is held, the trylock comes and fails its first test. */
  lemma TryWhileHeld(s: State, v: Tid, t: Tid, h: Hash, a: Addr, b: Addr) returns (run: seq<Label>)
    requires Initial(s) && v in s.threads && t in s.threads && v != t && a != b
    ensures run == [LockGet(v, h, a), DownTest(v), TryGet(t, h, b), TryTest(t)] && Legal(s, run)
    ensures Run(s, run) == Scene(s, a, Record(h, 2, Sem(0, 0)), None, v, Thread(Idle, {h}), t, Thread(Raced(a, h), {}))
  {
    LockSteps(s, v, t, h, a);
    TrySteps(s, v, t, Thread(Idle, {h}), h, a, b);
    hide Next, Enabled, Scene;
    var idle, holder := Thread(Idle, {}), Thread(Idle, {h});
    var s1 := Scene(s, a, Record(h, 1, Sem(1, 0)), None, v, Thread(Down(a, h, false), {}), t, idle);
    var s2 := Scene(s, a, Record(h, 1, Sem(0, 0)), None, v, holder, t, idle);
    var s3 := Scene(s, a, Record(h, 2, Sem(0, 0)), None, v, holder, t, Thread(Trying(a, h), {}));
    var s4 := Scene(s, a, Record(h, 2, Sem(0, 0)), None, v, holder, t, Thread(Raced(a, h), {}));
    run := Step(s, s1, LockGet(v, h, a), s, []);
    run := Step(s1, s2, DownTest(v), s, run);
    run := Step(s2, s3, TryGet(t, h, b), s, run);
    run := Step(s3, s4, TryTest(t), s, run);
  }

  lemma UnlockGetStep(s: State, v: Tid, t: Tid, y: Thread, h: Hash, a: Addr)
    requires v in s.threads && t in s.threads && v != t
    ensures var e := Scene(s, a, Record(h, 2, Sem(0, 0)), None, v, Thread(Idle, {h}), t, y);
            && Enabled(e, UnlockGet(v, h))
            && Next(e, UnlockGet(v, h)) ==
                 Scene(s, a, Record(h, 1, Sem(0, 0)), Some(v), v, Thread(Upping(a, h), {}), t, y)
  {
    var e := Scene(s, a, Record(h, 2, Sem(0, 0)), None, v, Thread(Idle, {h}), t, y);
    var e' := Scene(s, a, Record(h, 1, Sem(0, 0)), Some(v), v, Thread(Upping(a, h), {}), t, y);
    assert Find(e.table, [a], h) == Some(a);
    assert e.table.heap[a := Record(h, 1, Sem(0, 0))] == e'.table.heap;
    assert {h} - {h} == {};
    assert e.threads[v := Thread(Upping(a, h), {})] == e'.threads;
  }

  lemma UnlockRestStep(s: State, v: Tid, t: Tid, y: Thread, h: Hash, a: Addr)
    requires v in s.threads && t in s.threads && v != t
    ensures var e := Scene(s, a, Record(h, 1, Sem(0, 0)), Some(v), v, Thread(Upping(a, h), {}), t, y);
            var e' := Scene(s, a, Record(h, 1, Sem(1, 0)), Some(v), v, Thread(Leaving(a, h), {}), t, y);
            && Enabled(e, UnlockUp(v)) && Next(e, UnlockUp(v)) == e'
            && Enabled(e', UnlockEnd(v))
            && Next(e', UnlockEnd(v)) == Scene(s, a, Record(h, 1, Sem(1, 0)), None, v, Thread(Idle, {}), t, y)
  {
    var e := Scene(s, a, Record(h, 1, Sem(0, 0)), Some(v), v, Thread(Upping(a, h), {}), t, y);
    var e' := Scene(s, a, Record(h, 1, Sem(1, 0)), Some(v), v, Thread(Leaving(a, h), {}), t, y);
    assert e.table.heap[a := Record(h, 1, Sem(1, 0))] == e'.table.heap;
    assert e.threads[v := Thread(Leaving(a, h), {})] == e'.threads;
    assert e'.threads[v := Thread(Idle, {})] == s.threads[v := Thread(Idle, {})][t := y];
  }

  /** The holder lets go before the trylock looks at the references again. */
  lemma HolderLetsGo(s: State, v: Tid, t: Tid, h: Hash, a: Addr, before: seq<Label>) returns (run: seq<Label>)
    requires v in s.threads && t in s.threads && v != t && Legal(s, before)
    requires Run(s, before) ==
               Scene(s, a, Record(h, 2, Sem(0, 0)), None, v, Thread(Idle, {h}), t, Thread(Raced(a, h), {}))
    ensures run == before + [UnlockGet(v, h)] + [UnlockUp(v)] + [UnlockEnd(v)] && Legal(s, run)
    ensures Run(s, run) == Scene(s, a, Record(h, 1, Sem(1, 0)), None, v, Thread(Idle, {}), t, Thread(Raced(a, h), {}))
  {
    hide Next, Enabled, Scene, Legal, Run;
    var y := Thread(Raced(a, h), {});
    UnlockGetStep(s, v, t, y, h, a);
    UnlockRestStep(s, v, t, y, h, a);
    var s5 := Scene(s, a, Record(h, 1, Sem(0, 0)), Some(v), v, Thread(Upping(a, h), {}), t, y);
    var s6 := Scene(s, a, Record(h, 1, Sem(1, 0)), Some(v), v, Thread(Leaving(a, h), {}), t, y);
    var s7 := Scene(s, a, Record(h, 1, Sem(1, 0)), None, v, Thread(Idle, {}), t, y);
    run := Step(Run(s, before), s5, UnlockGet(v, h), s, before);
    run := Step(s5, s6, UnlockUp(v), s, run);
    run := Step(s6, s7, UnlockEnd(v), s, run);
  }

  lemma ChanceGiven(s: State, v: Tid, t: Tid, u: Tid, h: Hash, a: Addr, b: Addr)
    requires Initial(s) && v in s.threads && t in s.threads && u in s.threads
    requires v != t && u != t && u != v && a != b
    ensures var e := Scene(s, a, Record(h, 1, Sem(1, 0)), None, v, Thread(Idle, {}), t, Thread(Raced(a, h), {}));
            && Enabled(e, SecondChance(t)) && PcOf(Next(e, SecondChance(t)), t) != Idle
            && t in e.threads && e.threads[t].pc == Raced(a, h)
            && u in e.threads && e.threads[u].pc == Idle && b !in e.table.heap
  {
  }

  /** Such a state is reached: with any three threads, one that only ever called
      trylock ends up asleep. */
  lemma TrylockSleeps(s: State, v: Tid, t: Tid, u: Tid, h: Hash, a: Addr, b: Addr) returns (run: seq<Label>)
    requires Initial(s) && v in s.threads && t in s.threads && u in s.threads
    requires v != t && u != t && u != v && a != b
    ensures Legal(s, run) && TryGet(t, h, b) in run
    ensures forall l <- run :: !(l.LockGet? && l.t == t)
    ensures t in Run(s, run).threads && Run(s, run).threads[t].pc.Asleep?
  {
    ChanceGiven(s, v, t, u, h, a, b);
    hide Next, Enabled, Legal, Run, Scene;
    var first := TryWhileHeld(s, v, t, h, a, b);
    var reached := HolderLetsGo(s, v, t, h, a, first);
    TrylockCanSleep(s, reached, t, u, b);
    var more := [SecondChance(t), LockGet(u, h, b), DownTest(u), DownTest(t)];
    LegalConcat(s, reached, more);
    run := reached + more;
    assert run[2] == TryGet(t, h, b);
  }
}
