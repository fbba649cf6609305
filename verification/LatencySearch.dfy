/**
 The queue-depth search for a latency target (io_u.c): double until a window
 fails, then bisect; when the depth no longer moves, make one final run there.
 */
module LatencySearch {

  import opened Basics
  import opened Bits

  /** td->latency_qd and its bounds; `depth` is the iodepth option. */
  datatype Search = Search(depth: nat, low: nat, qd: nat, high: nat, endRun: bool, done: bool)

  function Init(depth: nat): Search {
    Search(depth, 1, 1, depth, false, false)
  }

  /** A window over the target.  At depth one the source gives up and leaves
      the search as it is. */
  function Failed(s: Search): Search {
    if s.qd == 1 then s
    else
      var low := if s.qd == s.low then Wrap(s.low - 1) else s.low;
      s.(high := s.qd, low := low, qd := Wrap(s.qd + low) / 2)
  }

  /** A window within the target. */
  function Succeeded(s: Search): Search {
    var up := if s.high != s.depth then Wrap(s.qd + s.high) / 2 else Wrap(s.qd * 2);
    var next := if up > s.depth then s.depth else up;
    if next == s.qd then s.(low := s.qd, endRun := true, done := s.done || s.endRun)
    else s.(low := s.qd, qd := next)
  }

  function Window(s: Search, pass: bool): Search {
    if pass then Succeeded(s) else Failed(s)
  }

  class LatTarget {
    const iodepth: nat
    var latencyQd: nat
    var latencyQdLow: nat
    var latencyQdHigh: nat
    var latencyEndRun: bool
    var done: bool

    ghost function State(): Search
      reads this
    {
      Search(iodepth, latencyQdLow, latencyQd, latencyQdHigh, latencyEndRun, done)
    }

    /** lat_target_init with a target set. */
    constructor (depth: nat)
      ensures iodepth == depth && State() == Init(depth)
    {
      iodepth := depth;
      latencyEndRun := false;
      done := false;
      latencyQd := 1;
      latencyQdHigh := depth;
      latencyQdLow := 1;
    }

    /** __lat_target_failed; true means that depth one already failed. */
    method LatTargetFailed() returns (giveUp: bool)
      modifies this
      ensures State() == Failed(old(State()))
      ensures giveUp <==> old(latencyQd) == 1
    {
      if latencyQd == 1 {
        return true;
      }
      latencyQdHigh := latencyQd;
      if latencyQd == latencyQdLow {
        latencyQdLow := Wrap(latencyQdLow - 1);
      }
      latencyQd := Wrap(latencyQd + latencyQdLow) / 2;
      return false;
    }

    method LatTargetSuccess()
      modifies this
      ensures State() == Succeeded(old(State()))
    {
      var qd := latencyQd;
      latencyQdLow := latencyQd;
      if latencyQdHigh != iodepth {
        latencyQd := Wrap(latencyQd + latencyQdHigh) / 2;
      } else {
        latencyQd := Wrap(latencyQd * 2);
      }
      if latencyQd > iodepth {
        latencyQd := iodepth;
      }
      if latencyQd == qd {
        if latencyEndRun {
          done := true;
        } else {
          latencyEndRun := true;
        }
      }
    }
  }

  // ----- Bounds, under every sequence of windows -----

  ghost predicate Inv(s: Search) {
    1 <= s.low <= s.qd <= s.high <= s.depth < U32 / 2
  }

  lemma WindowKeepsInv(s: Search, pass: bool)
    requires Inv(s)
    ensures Inv(Window(s, pass)) && Window(s, pass).depth == s.depth
  {
  }

  ghost function Windows(s: Search, results: seq<bool>): Search
    decreases |results|
  {
    if results == [] then s else Windows(Window(s, results[0]), results[1..])
  }

  lemma {:induction false} WindowsKeepBounds(s: Search, results: seq<bool>)
    requires Inv(s)
    ensures Inv(Windows(s, results)) && Windows(s, results).depth == s.depth
    decreases |results|
  {
    if results != [] {
      WindowKeepsInv(s, results[0]);
      WindowsKeepBounds(Window(s, results[0]), results[1..]);
    }
  }

  // ----- Convergence against a device that passes exactly the depths up to cap -----

  ghost function Device(s: Search, cap: nat): Search {
    Window(s, s.qd <= cap)
  }

  ghost function After(s: Search, cap: nat, n: nat): Search
    decreases n
  {
    if n == 0 then s else After(Device(s, cap), cap, n - 1)
  }

  lemma {:induction false} AfterPlus(s: Search, cap: nat, m: nat, n: nat)
    ensures After(s, cap, m + n) == After(After(s, cap, m), cap, n)
    decreases m
  {
    if m > 0 {
      AfterPlus(Device(s, cap), cap, m - 1, n);
    }
  }

  /** The search never drops low below a passing depth, and an upper bound
      other than iodepth is a depth that failed. */
  ghost predicate Good(s: Search, cap: nat) {
    && Inv(s) && s.low <= cap && !s.endRun && !s.done
    && (if s.high == s.depth then s.low < s.qd || s.qd == 1
        else cap < s.high && s.qd == (s.low + s.high) / 2)
  }

  ghost function Measure(s: Search): nat
    requires Inv(s)
  {
    if s.high != s.depth then s.high - s.low
    else s.depth + 3 * (s.depth - s.low) + (if s.qd == s.low then 2 else if s.qd == s.depth then 1 else 0)
  }

  /** Within the bounds no 32-bit operation wraps. */
  lemma NoWrap(s: Search)
    requires Inv(s)
    ensures s.qd > 1 ==>
              Failed(s) == var low := if s.qd == s.low then s.low - 1 else s.low;
                           s.(high := s.qd, low := low, qd := (s.qd + low) / 2)
    ensures Succeeded(s) ==
              var up := if s.high != s.depth then (s.qd + s.high) / 2 else Min(s.qd * 2, s.depth);
              if up == s.qd then s.(low := s.qd, endRun := true, done := s.done || s.endRun)
              else s.(low := s.qd, qd := up)
  {
  }

  ghost predicate Advances(s: Search, s': Search, cap: nat)
    requires Inv(s)
  {
    && s'.depth == s.depth && Inv(s')
    && if s'.endRun then s'.qd == s.qd == Min(cap, s.depth) && !s'.done && s'.low == s.qd && s'.high == s.high
       else Good(s', cap) && Measure(s') < Measure(s)
  }

  lemma DoublingAdvances(s: Search, cap: nat)
    requires Good(s, cap) && cap != s.depth - 1 && s.high == s.depth
    ensures Advances(s, Device(s, cap), cap)
  {
    NoWrap(s);
  }

  lemma BisectingAdvances(s: Search, cap: nat)
    requires Good(s, cap) && s.high != s.depth
    ensures Advances(s, Device(s, cap), cap)
  {
    NoWrap(s);
  }

  lemma Progress(s: Search, cap: nat)
    requires Good(s, cap) && cap != s.depth - 1
    ensures Advances(s, Device(s, cap), cap)
  {
    if s.high == s.depth {
      DoublingAdvances(s, cap);
    } else {
      BisectingAdvances(s, cap);
    }
  }

  /** A second passing window at the final depth ends the job. */
  lemma FinalRunEnds(s: Search, cap: nat)
    requires Inv(s) && s.qd <= cap && !s.endRun && !s.done && Device(s, cap).endRun
    ensures Device(Device(s, cap), cap).done
  {
    NoWrap(s);
    NoWrap(Device(s, cap));
  }

  lemma AfterSteps(s: Search, cap: nat, n: nat)
    ensures After(s, cap, n + 1) == After(Device(s, cap), cap, n)
    ensures After(s, cap, n + 2) == After(Device(Device(s, cap), cap), cap, n)
  {
  }

  lemma {:induction false} ReachesEndRun(s: Search, cap: nat) returns (n: nat)
    requires Good(s, cap) && cap != s.depth - 1
    ensures n <= Measure(s) + 1
    ensures var e := After(s, cap, n);
            e.endRun && !e.done && e.qd == Min(cap, s.depth) && After(s, cap, n + 1).done
    decreases Measure(s)
  {
    Progress(s, cap);
    var s' := Device(s, cap);
    if s'.endRun {
      n := 1;
      FinalRunEnds(s, cap);
      AfterSteps(s, cap, 0);
    } else {
      n := ReachesEndRun(s', cap);
      n := n + 1;
    }
  }

  /** Against cap == iodepth - 1 only iodepth itself fails, so the bound never
      leaves iodepth and the search keeps doubling. */
  ghost predicate Bouncing(s: Search) {
    && Inv(s) && s.high == s.depth && !s.endRun && s.depth >= 2
    && s.low <= s.depth - 1 && (s.low < s.qd || s.qd == 1 || (s.low == s.qd == s.depth - 1))
  }

  lemma BounceStep(s: Search)
    requires Bouncing(s)
    ensures Bouncing(Device(s, s.depth - 1)) && Device(s, s.depth - 1).depth == s.depth
  {
  }

  lemma {:induction false} NeverEnds(s: Search, n: nat)
    requires Bouncing(s)
    ensures var e := After(s, s.depth - 1, n); Bouncing(e) && e.depth == s.depth
    decreases n
  {
    if n > 0 {
      BounceStep(s);
      NeverEnds(Device(s, s.depth - 1), n - 1);
    }
  }

  ghost predicate Alternating(s: Search) {
    Bouncing(s) && s.low == s.depth - 1 && s.qd == s.depth
  }

  /** Once there, the depth alternates between iodepth and iodepth - 1. */
  lemma AlternatesOnce(s: Search)
    requires Alternating(s)
    ensures var s1 := Device(s, s.depth - 1); var s2 := Device(s1, s.depth - 1);
            && s1.qd == s.depth - 1 && Alternating(s2) && s2.depth == s.depth
            && After(s, s.depth - 1, 1) == s1
  {
    NoWrap(s);
    NoWrap(Device(s, s.depth - 1));
    AfterSteps(s, s.depth - 1, 0);
  }

  lemma {:induction false} Alternates(s: Search, k: nat)
    requires Alternating(s)
    ensures Alternating(After(s, s.depth - 1, 2 * k)) && After(s, s.depth - 1, 2 * k).depth == s.depth
    ensures After(s, s.depth - 1, 2 * k + 1).qd == s.depth - 1
    decreases k
  {
    AlternatesOnce(s);
    if k > 0 {
      Alternates(Device(Device(s, s.depth - 1), s.depth - 1), k - 1);
      AfterSteps(s, s.depth - 1, 2 * k - 2);
      AfterSteps(s, s.depth - 1, 2 * k - 1);
    }
  }

  lemma {:induction false} ReachesAlternation(s: Search) returns (n: nat)
    requires Bouncing(s)
    ensures Alternating(After(s, s.depth - 1, n)) && After(s, s.depth - 1, n).depth == s.depth
    decreases s.depth - s.low, if s.qd == s.low then 2 else if s.qd == s.depth then 1 else 0
  {
    if Alternating(s) {
      n := 0;
    } else {
      BounceStep(s);
      n := ReachesAlternation(Device(s, s.depth - 1));
      n := n + 1;
    }
  }

  /** Nothing passes: the first window gives up and the search stays put. */
  lemma {:induction false} NothingPasses(depth: nat, n: nat)
    requires 1 <= depth < U32 / 2
    ensures After(Init(depth), 0, n) == Init(depth)
  {
    if n > 0 {
      NothingPasses(depth, n - 1);
    }
  }

  /** The search makes its final run exactly when some depth passes and the
      best passing depth is not iodepth - 1; it then runs at the best depth. */
  lemma ConvergesExactly(depth: nat, cap: nat)
    requires 1 <= depth < U32 / 2
    ensures (exists n: nat :: After(Init(depth), cap, n).endRun) <==> cap >= 1 && cap != depth - 1
    ensures cap >= 1 && cap != depth - 1 ==>
              exists n: nat :: var e := After(Init(depth), cap, n);
                          && n <= 4 * depth + 1
                          && e.endRun && !e.done && e.qd == Min(cap, depth)
                          && After(Init(depth), cap, n + 1).done
  {
    if cap == 0 {
      forall n: nat ensures !After(Init(depth), cap, n).endRun {
        NothingPasses(depth, n);
      }
    } else if cap == depth - 1 {
      forall n: nat ensures !After(Init(depth), cap, n).endRun {
        NeverEnds(Init(depth), n);
      }
    } else {
      var n := ReachesEndRun(Init(depth), cap);
      assert After(Init(depth), cap, n).endRun;
    }
  }

  /** The remaining case, cap == iodepth - 1, ends up alternating for ever. */
  lemma BestDepthNextToLast(depth: nat, cap: nat) returns (n: nat)
    requires 2 <= depth < U32 / 2 && cap == depth - 1
    ensures forall m: nat :: m >= n ==>
              After(Init(depth), cap, m).qd == if (m - n) % 2 == 0 then depth else cap
  {
    n := ReachesAlternation(Init(depth));
    var s := After(Init(depth), cap, n);
    forall m: nat | m >= n
      ensures After(Init(depth), cap, m).qd == if (m - n) % 2 == 0 then depth else cap
    {
      Alternates(s, (m - n) / 2);
      AfterPlus(Init(depth), cap, n, m - n);
      assert m - n == 2 * ((m - n) / 2) + (m - n) % 2;
    }
  }
}
