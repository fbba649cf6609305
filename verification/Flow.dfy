/**
 Weighted flow control between jobs (flow.c): jobs with the same flow id share
 a counter; a job may issue I/O while the counter is not past its watermark on
 its own side, and then moves the counter by its weight.
 */
module Flow {
  import opened Bits

  /** The flow, flow_id and flow_watermark options; a job takes part in flow
      control only with a non-zero weight. */
  datatype FlowJob = FlowJob(weight: int, id: nat, watermark: int)

  /** A shared flow; `admitted` is the history of weights added since the
      record was made. */
  datatype Flow = Flow(id: nat, refs: int, counter: int, admitted: seq<int>)

  datatype State = State(flows: seq<Flow>, joined: seq<bool>)

  function Sign(job: FlowJob): int {
    if job.weight > 0 then 1 else -1
  }

  predicate Refuses(job: FlowJob, counter: int) {
    Sign(job) * counter > job.watermark
  }

  /** Position of the flow with an id, or the number of flows. */
  function IndexOf(flows: seq<Flow>, id: nat): (i: nat)
    ensures i <= |flows|
    ensures i < |flows| ==> flows[i].id == id
    ensures forall k :: 0 <= k < i ==> flows[k].id != id
  {
    if flows == [] then 0 else if flows[0].id == id then 0 else 1 + IndexOf(flows[1..], id)
  }

  /** flow_init_job */
  function Join(jobs: seq<FlowJob>, s: State, j: nat): State
    requires j < |jobs| == |s.joined|
  {
    if jobs[j].weight == 0 then s
    else
      var i := IndexOf(s.flows, jobs[j].id);
      var flows := if i < |s.flows| then s.flows else s.flows + [Flow(jobs[j].id, 0, 0, [])];
      State(flows[i := flows[i].(refs := flows[i].refs + 1)], s.joined[j := true])
  }

  /** flow_exit_job */
  function Leave(jobs: seq<FlowJob>, s: State, j: nat): State
    requires j < |jobs| == |s.joined|
  {
    var i := IndexOf(s.flows, jobs[j].id);
    if !s.joined[j] || i == |s.flows| then s
    else
      var f := s.flows[i].(refs := s.flows[i].refs - 1);
      State(if f.refs == 0 then s.flows[..i] + s.flows[i + 1..] else s.flows[i := f], s.joined[j := false])
  }

  /** flow_threshold_exceeded, the test and the update as one step. */
  function Check(jobs: seq<FlowJob>, s: State, j: nat): (State, bool)
    requires j < |jobs| == |s.joined|
  {
    var i := IndexOf(s.flows, jobs[j].id);
    if !s.joined[j] || i == |s.flows| then (s, false)
    else
      var f := s.flows[i];
      if Refuses(jobs[j], f.counter) then (s, true)
      else (s.(flows := s.flows[i := f.(counter := f.counter + jobs[j].weight,
                                          admitted := f.admitted + [jobs[j].weight])]), false)
  }

  /** Before any job has joined. */
  function NoFlows(jobs: seq<FlowJob>): State {
    State([], seq(|jobs|, _ => false))
  }

  class FlowControl {
    const jobs: seq<FlowJob>
    var flows: seq<Flow>
    var joined: seq<bool>

    ghost function Now(): State
      reads this
    {
      State(flows, joined)
    }

    constructor (js: seq<FlowJob>)
      ensures jobs == js && Now() == NoFlows(js)
    {
      jobs := js;
      flows := [];
      joined := seq(|js|, _ => false);
    }

    /** flow_get: walk the list, append a new flow if none has the id. */
    method FlowGet(id: nat) returns (i: nat)
      modifies this`flows
      ensures i == IndexOf(old(flows), id) < |flows|
      ensures var fs := if i < |old(flows)| then old(flows) else old(flows) + [Flow(id, 0, 0, [])];
              flows == fs[i := fs[i].(refs := fs[i].refs + 1)]
    {
      i := 0;
      while i < |flows| && flows[i].id != id
        invariant i <= |flows|
        invariant forall k :: 0 <= k < i ==> flows[k].id != id
      {
        i := i + 1;
      }
      if i == |flows| {
        flows := flows + [Flow(id, 0, 0, [])];
      }
      flows := flows[i := flows[i].(refs := flows[i].refs + 1)];
    }

    method FlowInitJob(j: nat)
      requires j < |jobs| == |joined|
      modifies this
      ensures Now() == Join(jobs, old(Now()), j)
    {
      if jobs[j].weight != 0 {
        var i := FlowGet(jobs[j].id);
        joined := joined[j := true];
      }
    }

    method FlowExitJob(j: nat)
      requires j < |jobs| == |joined|
      modifies this
      ensures Now() == Leave(jobs, old(Now()), j)
    {
      var i := IndexOf(flows, jobs[j].id);
      if joined[j] && i < |flows| {
        flows := flows[i := flows[i].(refs := flows[i].refs - 1)];
        if flows[i].refs == 0 {
          flows := flows[..i] + flows[i + 1..];
        }
        joined := joined[j := false];
      }
    }

    method FlowThresholdExceeded(j: nat) returns (refused: bool)
      requires j < |jobs| == |joined|
      modifies this`flows
      ensures (Now(), refused) == Check(jobs, old(Now()), j)
    {
      var i := IndexOf(flows, jobs[j].id);
      if !joined[j] || i == |flows| {
        return false;
      }
      var sign := if jobs[j].weight > 0 then 1 else -1;
      if sign * flows[i].counter > jobs[j].watermark {
        return true;
      }
      var f := flows[i];
      flows := flows[i := f.(counter := f.counter + jobs[j].weight, admitted := f.admitted + [jobs[j].weight])];
      return false;
    }
  }

  // ----- Invariants of every schedule -----

  ghost function Sum(ws: seq<int>): int {
    if ws == [] then 0 else Sum(ws[..|ws| - 1]) + ws[|ws| - 1]
  }

  lemma SumAppend(ws: seq<int>, w: int)
    ensures Sum(ws + [w]) == Sum(ws) + w
  {
    assert (ws + [w])[..|ws|] == ws;
  }

  /** Jobs that joined and use the id. */
  ghost function Members(jobs: seq<FlowJob>, joined: seq<bool>, id: nat): nat
    requires |jobs| == |joined|
  {
    if jobs == [] then 0
    else
      var n := |jobs| - 1;
      Members(jobs[..n], joined[..n], id) + if joined[n] && jobs[n].id == id then 1 else 0
  }

  lemma {:induction false} MembersUpdate(jobs: seq<FlowJob>, joined: seq<bool>, j: nat, b: bool, id: nat)
    requires |jobs| == |joined| && j < |jobs|
    ensures Members(jobs, joined[j := b], id) == Members(jobs, joined, id)
              + (if jobs[j].id == id then (if b then 1 else 0) - (if joined[j] then 1 else 0) else 0)
    decreases |jobs|
  {
    var n := |jobs| - 1;
    if j < n {
      MembersUpdate(jobs[..n], joined[..n], j, b, id);
      assert joined[j := b][..n] == joined[..n][j := b];
    } else {
      assert joined[j := b][..n] == joined[..n];
    }
  }

  lemma {:induction false} NoMembers(jobs: seq<FlowJob>, joined: seq<bool>, id: nat)
    requires |jobs| == |joined|
    ensures Members(jobs, joined, id) == 0 <==> forall j :: 0 <= j < |jobs| && jobs[j].id == id ==> !joined[j]
    decreases |jobs|
  {
    if jobs != [] {
      var n := |jobs| - 1;
      NoMembers(jobs[..n], joined[..n], id);
      assert forall j :: 0 <= j < n ==> jobs[..n][j] == jobs[j] && joined[..n][j] == joined[j];
    }
  }

  /** Watermarks between 0 and W, weights of magnitude at most M. */
  ghost predicate Limits(jobs: seq<FlowJob>, W: int, M: int) {
    0 <= W && 0 <= M && forall j :: 0 <= j < |jobs| ==> 0 <= jobs[j].watermark <= W && -M <= jobs[j].weight <= M
  }

  ghost predicate FlowOk(jobs: seq<FlowJob>, joined: seq<bool>, f: Flow, W: int, M: int)
    requires |jobs| == |joined|
  {
    && f.refs == Members(jobs, joined, f.id) > 0
    && f.counter == Sum(f.admitted)
    && -(W + M) <= f.counter <= W + M
  }

  ghost predicate Inv(jobs: seq<FlowJob>, s: State, W: int, M: int) {
    && |jobs| == |s.joined|
    && (forall i, k :: 0 <= i < k < |s.flows| ==> s.flows[i].id != s.flows[k].id)
    && (forall i :: 0 <= i < |s.flows| ==> FlowOk(jobs, s.joined, s.flows[i], W, M))
    && (forall j :: 0 <= j < |jobs| && s.joined[j] ==>
          jobs[j].weight != 0 && IndexOf(s.flows, jobs[j].id) < |s.flows|)
  }

  lemma IndexFound(flows: seq<Flow>, id: nat, k: nat)
    requires k < |flows| && flows[k].id == id
    ensures IndexOf(flows, id) < |flows|
  {
  }

  lemma JoinKeepsInv(jobs: seq<FlowJob>, s: State, j: nat, W: int, M: int)
    requires Inv(jobs, s, W, M) && Limits(jobs, W, M) && j < |jobs| && !s.joined[j]
    ensures Inv(jobs, Join(jobs, s, j), W, M)
  {
    var e := Join(jobs, s, j);
    if jobs[j].weight != 0 {
      var i := IndexOf(s.flows, jobs[j].id);
      if i == |s.flows| {
        NoMembers(jobs, s.joined, jobs[j].id);
        assert Members(jobs, s.joined, jobs[j].id) == 0;
      }
      forall k | 0 <= k < |e.flows| ensures FlowOk(jobs, e.joined, e.flows[k], W, M) {
        MembersUpdate(jobs, s.joined, j, true, e.flows[k].id);
        if k < |s.flows| {
          assert FlowOk(jobs, s.joined, s.flows[k], W, M);
        }
      }
      forall m | 0 <= m < |jobs| && e.joined[m]
        ensures jobs[m].weight != 0 && IndexOf(e.flows, jobs[m].id) < |e.flows|
      {
        if m == j {
          IndexFound(e.flows, jobs[m].id, i);
        } else {
          IndexFound(e.flows, jobs[m].id, IndexOf(s.flows, jobs[m].id));
        }
      }
    }
  }

  /** The flow at position i loses a member, and goes with the last one. */
  lemma LeaveFlowsOk(jobs: seq<FlowJob>, s: State, j: nat, W: int, M: int)
    requires Inv(jobs, s, W, M) && j < |jobs| && s.joined[j]
    ensures var e := Leave(jobs, s, j);
            forall k :: 0 <= k < |e.flows| ==> FlowOk(jobs, e.joined, e.flows[k], W, M)
  {
    var e := Leave(jobs, s, j);
    var i := IndexOf(s.flows, jobs[j].id);
    assert FlowOk(jobs, s.joined, s.flows[i], W, M);
    var gone := s.flows[i].refs == 1;
    forall k | 0 <= k < |e.flows| ensures FlowOk(jobs, e.joined, e.flows[k], W, M) {
      var k' := if gone && k >= i then k + 1 else k;
      assert FlowOk(jobs, s.joined, s.flows[k'], W, M);
      MembersUpdate(jobs, s.joined, j, false, s.flows[k'].id);
    }
  }

  lemma LeaveKeepsInv(jobs: seq<FlowJob>, s: State, j: nat, W: int, M: int)
    requires Inv(jobs, s, W, M) && j < |jobs|
    ensures Inv(jobs, Leave(jobs, s, j), W, M)
  {
    var e := Leave(jobs, s, j);
    if s.joined[j] {
      LeaveFlowsOk(jobs, s, j, W, M);
      var i := IndexOf(s.flows, jobs[j].id);
      var gone := s.flows[i].refs == 1;
      assert FlowOk(jobs, s.joined, s.flows[i], W, M);
      MembersUpdate(jobs, s.joined, j, false, jobs[j].id);
      NoMembers(jobs, e.joined, jobs[j].id);
      hide FlowOk, Members;
      forall m | 0 <= m < |jobs| && e.joined[m]
        ensures jobs[m].weight != 0 && IndexOf(e.flows, jobs[m].id) < |e.flows|
      {
        var k := IndexOf(s.flows, jobs[m].id);
        assert !gone || jobs[m].id != jobs[j].id;
        IndexFound(e.flows, jobs[m].id, if gone && k > i then k - 1 else k);
      }
    }
  }

  lemma CheckKeepsInv(jobs: seq<FlowJob>, s: State, j: nat, W: int, M: int)
    requires Inv(jobs, s, W, M) && Limits(jobs, W, M) && j < |jobs|
    ensures Inv(jobs, Check(jobs, s, j).0, W, M)
  {
    var e, refused := Check(jobs, s, j).0, Check(jobs, s, j).1;
    var i := IndexOf(s.flows, jobs[j].id);
    if s.joined[j] && !refused {
      assert FlowOk(jobs, s.joined, s.flows[i], W, M);
      SumAppend(s.flows[i].admitted, jobs[j].weight);
      assert FlowOk(jobs, e.joined, e.flows[i], W, M);
      hide FlowOk, Sum, Limits;
      forall m | 0 <= m < |jobs| && e.joined[m]
        ensures jobs[m].weight != 0 && IndexOf(e.flows, jobs[m].id) < |e.flows|
      {
        IndexFound(e.flows, jobs[m].id, IndexOf(s.flows, jobs[m].id));
      }
    }
  }

  datatype Action = Joins(j: nat) | Leaves(j: nat) | Checks(j: nat)

  ghost predicate Legal(jobs: seq<FlowJob>, s: State, run: seq<Action>)
    decreases |run|
  {
    |jobs| == |s.joined| &&
    (run == [] ||
     (&& run[0].j < |jobs| && (run[0].Joins? ==> !s.joined[run[0].j])
      && Legal(jobs, Step(jobs, s, run[0]), run[1..])))
  }

  ghost function Step(jobs: seq<FlowJob>, s: State, a: Action): State
    requires a.j < |jobs| == |s.joined|
  {
    match a
    case Joins(j) => Join(jobs, s, j)
    case Leaves(j) => Leave(jobs, s, j)
    case Checks(j) => Check(jobs, s, j).0
  }

  ghost function Run(jobs: seq<FlowJob>, s: State, run: seq<Action>): State
    requires Legal(jobs, s, run)
    decreases |run|
  {
    if run == [] then s else Run(jobs, Step(jobs, s, run[0]), run[1..])
  }

  lemma {:induction false} ScheduleKeepsInv(jobs: seq<FlowJob>, s: State, run: seq<Action>, W: int, M: int)
    requires Limits(jobs, W, M) && Inv(jobs, s, W, M) && Legal(jobs, s, run)
    ensures Inv(jobs, Run(jobs, s, run), W, M)
    decreases |run|
  {
    if run != [] {
      match run[0] {
        case Joins(j) => JoinKeepsInv(jobs, s, j, W, M);
        case Leaves(j) => LeaveKeepsInv(jobs, s, j, W, M);
        case Checks(j) => CheckKeepsInv(jobs, s, j, W, M);
      }
      ScheduleKeepsInv(jobs, Step(jobs, s, run[0]), run[1..], W, M);
    }
  }

  /** On every schedule of joins, checks and leaves, from the start: one record
      per id, its references are the jobs that joined, its counter is the sum of
      the admitted weights and stays within W + M of zero. */
  lemma EveryScheduleBounded(jobs: seq<FlowJob>, run: seq<Action>, W: int, M: int)
    requires Limits(jobs, W, M) && Legal(jobs, NoFlows(jobs), run)
    ensures Inv(jobs, Run(jobs, NoFlows(jobs), run), W, M)
  {
    ScheduleKeepsInv(jobs, NoFlows(jobs), run, W, M);
  }

  // ----- Who is admitted -----

  /** The counter of the flow with an id; zero without a flow. */
  ghost function CounterOf(s: State, id: nat): int {
    var i := IndexOf(s.flows, id);
    if i < |s.flows| then s.flows[i].counter else 0
  }

  /** The job takes part in a flow. */
  ghost predicate Takes(jobs: seq<FlowJob>, s: State, j: nat) {
    && j < |jobs| == |s.joined| && s.joined[j] && jobs[j].weight != 0
    && IndexOf(s.flows, jobs[j].id) < |s.flows|
  }

  ghost predicate Used(jobs: seq<FlowJob>, s: State, id: nat) {
    exists k :: 0 <= k < |jobs| == |s.joined| && s.joined[k] && jobs[k].id == id
  }

  /** There is a flow for an id exactly while a job uses it. */
  lemma FlowIffUsed(jobs: seq<FlowJob>, s: State, id: nat, W: int, M: int)
    requires Inv(jobs, s, W, M)
    ensures IndexOf(s.flows, id) < |s.flows| <==> Used(jobs, s, id)
  {
    var i := IndexOf(s.flows, id);
    if i < |s.flows| {
      assert FlowOk(jobs, s.joined, s.flows[i], W, M);
      NoMembers(jobs, s.joined, id);
    }
  }

  /** Joining and leaving again changes nothing. */
  lemma JoinThenLeave(jobs: seq<FlowJob>, s: State, j: nat, W: int, M: int)
    requires Inv(jobs, s, W, M) && j < |jobs| && !s.joined[j] && jobs[j].weight != 0
    ensures Takes(jobs, Join(jobs, s, j), j)
    ensures Leave(jobs, Join(jobs, s, j), j) == s
  {
    var i := IndexOf(s.flows, jobs[j].id);
    JoinedFlow(jobs, s, j);
    if i < |s.flows| {
      assert FlowOk(jobs, s.joined, s.flows[i], W, M);
    }
    var e := Join(jobs, s, j);
    assert i == |s.flows| ==> e.flows[..i] + e.flows[i + 1..] == s.flows;
    assert i < |s.flows| ==> e.flows[i := s.flows[i]] == s.flows;
    assert e.joined[j := false] == s.joined;
    hide FlowOk, IndexOf, Join;
  }

  /** The flow joined is at its old place, or last. */
  lemma JoinedFlow(jobs: seq<FlowJob>, s: State, j: nat)
    requires j < |jobs| == |s.joined| && jobs[j].weight != 0
    ensures var e := Join(jobs, s, j); IndexOf(e.flows, jobs[j].id) == IndexOf(s.flows, jobs[j].id) < |e.flows|
  {
    var i := IndexOf(s.flows, jobs[j].id);
    var e := Join(jobs, s, j);
    if i < |s.flows| {
      SameIds(s.flows, e.flows, jobs[j].id);
    } else {
      IndexFound(e.flows, jobs[j].id, i);
    }
  }

  /** A job that leaves is out; a counter lives on while another job uses it and is
      forgotten with the last. */
  lemma LeaveExact(jobs: seq<FlowJob>, s: State, j: nat, id: nat, W: int, M: int)
    requires Inv(jobs, s, W, M) && j < |jobs| && s.joined[j]
    ensures var e := Leave(jobs, s, j);
            && e.joined == s.joined[j := false]
            && CounterOf(e, id) == if Used(jobs, e, id) then CounterOf(s, id) else 0
  {
    var e := Leave(jobs, s, j);
    LeaveKeepsInv(jobs, s, j, W, M);
    FlowIffUsed(jobs, e, id, W, M);
    hide FlowOk, Members, Used;
    var k := IndexOf(e.flows, id);
    if k < |e.flows| {
      var i := IndexOf(s.flows, jobs[j].id);
      var k' := if |e.flows| < |s.flows| && k >= i then k + 1 else k;
      assert s.flows[k'].id == id && s.flows[k'].counter == e.flows[k].counter;
      IndexFound(s.flows, id, k');
    }
  }

  /** A job that adds is refused exactly above its watermark, one that takes away
      exactly below the negated watermark; a check that is not refused moves the
      job's own counter by its weight, and nothing else ever moves. */
  lemma CheckExact(jobs: seq<FlowJob>, s: State, j: nat, id: nat)
    requires Takes(jobs, s, j)
    ensures var (e, refused) := Check(jobs, s, j); var c := CounterOf(s, jobs[j].id);
            && (refused <==> if jobs[j].weight > 0 then c > jobs[j].watermark else c < -jobs[j].watermark)
            && CounterOf(e, id) == CounterOf(s, id) + (if !refused && id == jobs[j].id then jobs[j].weight else 0)
            && (forall k: nat :: Takes(jobs, s, k) ==> Takes(jobs, e, k))
  {
    var e := Check(jobs, s, j).0;
    SameIds(s.flows, e.flows, id);
    SameIds(s.flows, e.flows, jobs[j].id);
    forall k: nat | Takes(jobs, s, k) ensures Takes(jobs, e, k) {
      SameIds(s.flows, e.flows, jobs[k].id);
    }
  }

  lemma {:induction false} SameIds(a: seq<Flow>, b: seq<Flow>, id: nat)
    requires |a| == |b| && forall i :: 0 <= i < |a| ==> a[i].id == b[i].id
    ensures IndexOf(a, id) == IndexOf(b, id)
    decreases |a|
  {
    if a != [] {
      SameIds(a[1..], b[1..], id);
    }
  }

  /** The weights that a run of checks admits on a flow. */
  ghost function Granted(jobs: seq<FlowJob>, s: State, run: seq<nat>, id: nat): int
    requires |jobs| == |s.joined| && forall k :: 0 <= k < |run| ==> run[k] < |jobs|
    decreases |run|
  {
    if run == [] then 0
    else
      var (e, refused) := Check(jobs, s, run[0]);
      (if !refused && jobs[run[0]].id == id then jobs[run[0]].weight else 0) + Granted(jobs, e, run[1..], id)
  }

  ghost function CheckAll(jobs: seq<FlowJob>, s: State, run: seq<nat>): State
    requires |jobs| == |s.joined| && forall k :: 0 <= k < |run| ==> run[k] < |jobs|
    decreases |run|
  {
    if run == [] then s else CheckAll(jobs, Check(jobs, s, run[0]).0, run[1..])
  }

  /** Over any run of checks by members, the counter moves by what was admitted. */
  lemma {:induction false} CounterIsBalance(jobs: seq<FlowJob>, s: State, run: seq<nat>, id: nat)
    requires |jobs| == |s.joined| && forall k :: 0 <= k < |run| ==> run[k] < |jobs| && Takes(jobs, s, run[k])
    ensures CounterOf(CheckAll(jobs, s, run), id) == CounterOf(s, id) + Granted(jobs, s, run, id)
    decreases |run|
  {
    if run != [] {
      CheckExact(jobs, s, run[0], id);
      CounterIsBalance(jobs, Check(jobs, s, run[0]).0, run[1..], id);
    }
  }

  /** The flow's counter as the job sees it: how far on its own side it is. */
  ghost function Side(jobs: seq<FlowJob>, s: State, j: nat): int
    requires j < |jobs|
  {
    if jobs[j].weight > 0 then CounterOf(s, jobs[j].id) else -CounterOf(s, jobs[j].id)
  }

  function Magnitude(job: FlowJob): nat {
    if job.weight > 0 then job.weight else -job.weight
  }

  ghost function Repeat(jobs: seq<FlowJob>, s: State, j: nat, n: nat): (e: State)
    requires j < |jobs| == |s.joined|
    ensures |e.joined| == |s.joined|
    decreases n
  {
    if n == 0 then s else Repeat(jobs, Check(jobs, s, j).0, j, n - 1)
  }

  /** How often in a row a job is admitted before the first refusal. */
  ghost function Budget(jobs: seq<FlowJob>, s: State, j: nat): nat
    requires Takes(jobs, s, j)
  {
    var d := jobs[j].watermark - Side(jobs, s, j);
    if d < 0 then 0 else Quotient(d, Magnitude(jobs[j])) + 1
  }

  function Quotient(d: nat, w: nat): nat
    requires w > 0
  {
    d / w
  }

  lemma OneLess(d: nat, w: nat)
    requires w > 0
    ensures d < w ==> Quotient(d, w) == 0
    ensures d >= w ==> Quotient(d, w) == Quotient(d - w, w) + 1
  {
    var q, r := d / w, d % w;
    assert d == q * w + r;
    if d < w {
      ModIs(d, w, 0, d);
    } else {
      assert (q - 1) * w == q * w - w;
      ModIs(d - w, w, q - 1, r);
    }
  }

  /** A job whose checks nobody interrupts is admitted exactly its budget of times:
      the watermark less the counter, divided by its weight, plus one.  Then it is
      refused, and refused it stays. */
  lemma {:induction false} AdmittedExactly(jobs: seq<FlowJob>, s: State, j: nat, n: nat)
    requires Takes(jobs, s, j)
    ensures Takes(jobs, Repeat(jobs, s, j, n), j)
    ensures !Check(jobs, Repeat(jobs, s, j, n), j).1 <==> n < Budget(jobs, s, j)
    decreases n
  {
    CheckExact(jobs, s, j, jobs[j].id);
    var d := jobs[j].watermark - Side(jobs, s, j);
    if d >= 0 {
      OneLess(d, Magnitude(jobs[j]));
    }
    if n > 0 {
      AdmittedExactly(jobs, Check(jobs, s, j).0, j, n - 1);
    }
  }

  /** From the start: joining and checking, with a watermark that is not negative. */
  lemma FirstAdmissions(jobs: seq<FlowJob>, j: nat, n: nat)
    requires j < |jobs| && jobs[j].weight != 0 && jobs[j].watermark >= 0
    ensures var s := Join(jobs, NoFlows(jobs), j);
            && Takes(jobs, s, j)
            && (!Check(jobs, Repeat(jobs, s, j, n), j).1 <==> n < jobs[j].watermark / Magnitude(jobs[j]) + 1)
  {
    var s := Join(jobs, NoFlows(jobs), j);
    assert s.flows[0].id == jobs[j].id && s.flows[0].counter == 0;
    AdmittedExactly(jobs, s, j, n);
  }

  /** With a positive and a negative weight on one flow, at least one of the
      two jobs is admitted, whatever the counter. */
  lemma NeverAllRefused(jobs: seq<FlowJob>, s: State, p: nat, q: nat, W: int, M: int)
    requires Inv(jobs, s, W, M) && Limits(jobs, W, M)
    requires p < |jobs| && q < |jobs| && jobs[p].weight > 0 && jobs[q].weight < 0 && jobs[p].id == jobs[q].id
    ensures !(Check(jobs, s, p).1 && Check(jobs, s, q).1)
  {
  }

  /** Without the sign condition on watermarks, two such jobs can both be
      refused exactly when their watermarks add up to less than -1. */
  lemma RefusalOverlap(p: FlowJob, q: FlowJob)
    requires p.weight > 0 > q.weight
    ensures (exists c :: Refuses(p, c) && Refuses(q, c)) <==> p.watermark + q.watermark < -1
  {
    if p.watermark + q.watermark < -1 {
      assert Refuses(p, p.watermark + 1) && Refuses(q, p.watermark + 1);
    }
  }

  /** The weights set the ratio: if a flow admitted only the weights w > 0 and
      v < 0, a and b times, then w*a + v*b is within W + M of zero. */
  lemma RatioKept(jobs: seq<FlowJob>, s: State, i: nat, w: int, v: int, W: int, M: int)
    requires Inv(jobs, s, W, M) && i < |s.flows| && v < 0 < w
    requires forall x <- s.flows[i].admitted :: x == w || x == v
    ensures var ws := s.flows[i].admitted;
            -(W + M) <= w * Times(ws, w) + v * Times(ws, v) <= W + M
  {
    assert FlowOk(jobs, s.joined, s.flows[i], W, M);
    SumByWeight(s.flows[i].admitted, w, v);
  }

  ghost function Times(ws: seq<int>, x: int): nat {
    if ws == [] then 0 else Times(ws[..|ws| - 1], x) + if ws[|ws| - 1] == x then 1 else 0
  }

  lemma {:induction false} SumByWeight(ws: seq<int>, w: int, v: int)
    requires v != w && forall x <- ws :: x == w || x == v
    ensures Sum(ws) == w * Times(ws, w) + v * Times(ws, v)
    decreases |ws|
  {
    if ws != [] {
      var rest := ws[..|ws| - 1];
      assert (forall y <- rest :: y in ws) && ws[|ws| - 1] in ws;
      SumByWeight(rest, w, v);
      OneMore(w, Times(rest, w));
      OneMore(v, Times(rest, v));
    }
  }

  lemma OneMore(w: int, a: nat)
    ensures w * (a + 1) == w * a + w
  {
  }
}
