/** Spacing of swaps and counting of failures. */
module RuntimeHistory {
  import opened Base
  import Loader
  import opened Reload
  import opened RuntimeInvariant
  import opened RuntimeProtocol

  // ----- spacing

  predicate Spaced(times: seq<nat>, gap: nat) {
    forall i :: 0 <= i < |times| - 1 ==> times[i] + gap <= times[i + 1]
  }

  predicate AtPhase(loop: Loop, t: nat, phase: bool) {
    phase && !loop.Idle? && loop.rest != [] && loop.rest[0] == t
  }

  /** The swap history of a tenant; while a swap is not yet stamped, the stored time lags behind. */
  predicate TimesOk(debounce: nat, clock: nat, ts: TenantState, unstamped: bool) {
    && ts.swapTimes != [] && Spaced(ts.swapTimes, debounce)
    && ts.swapTimes[|ts.swapTimes| - 1] <= clock
    && ts.ctl.lastSwap <= clock
    && (!unstamped ==> ts.swapTimes[|ts.swapTimes| - 1] <= ts.ctl.lastSwap)
  }

  /** A visit past the debounce check began its pass late enough. */
  predicate PastDebounce(debounce: nat, loop: Loop, ts: TenantState) {
    loop.Pulling? || loop.Pulled? || loop.Ready? ==> debounce == 0 || ts.ctl.lastSwap + debounce <= loop.now
  }

  ghost predicate Timely(node: Node, s: State)
    requires Wf(s)
  {
    var d := node.policy.debounce;
    && (!s.loop.Idle? ==> s.loop.now <= s.clock)
    && (forall t :: 0 <= t < |s.tenants| ==>
          TimesOk(d, s.clock, s.tenants[t], AtPhase(s.loop, t, s.loop.Stamping?)))
    && (!s.loop.Idle? && s.loop.rest != [] ==> PastDebounce(d, s.loop, s.tenants[s.loop.rest[0]]))
  }

  lemma VisitKeepsTimes(node: Node, clock: nat, loop: Loop, ts: TenantState, pulled: Result<Loader.Loaded>)
    requires !loop.Idle? && loop.rest != [] && loop.now <= clock
    requires TimesOk(node.policy.debounce, clock, ts, loop.Stamping?)
    requires PastDebounce(node.policy.debounce, loop, ts)
    ensures
      var (ts', loop') := NextVisit(node, clock, loop, ts, pulled);
      && TimesOk(node.policy.debounce, clock, ts', loop'.Stamping?)
      && PastDebounce(node.policy.debounce, loop', ts')
  {
  }

  lemma VisitStepKeepsTimely(node: Node, s: State, e: Event)
    requires Wf(s) && Enabled(node, s, e) && Timely(node, s) && IsVisit(s, e)
    ensures Wf(Step(node, s, e)) && Timely(node, Step(node, s, e))
  {
    StepKeepsWf(node, s, e);
    var s' := Step(node, s, e);
    VisitIsLocal(node, s, e);
    var t := s.loop.rest[0];
    VisitKeepsTimes(node, s.clock, s.loop, s.tenants[t], Pull(node, s, e));
    VisitShape(node, s.clock, s.loop, s.tenants[t], Pull(node, s, e));
    forall u | 0 <= u < |s'.tenants|
      ensures TimesOk(node.policy.debounce, s'.clock, s'.tenants[u], AtPhase(s'.loop, u, s'.loop.Stamping?))
    {
      assert TimesOk(node.policy.debounce, s.clock, s.tenants[u], AtPhase(s.loop, u, s.loop.Stamping?));
    }
  }

  lemma StepKeepsTimely(node: Node, s: State, e: Event)
    requires Wf(s) && Enabled(node, s, e) && Timely(node, s)
    ensures Wf(Step(node, s, e)) && Timely(node, Step(node, s, e))
  {
    if IsVisit(s, e) {
      VisitStepKeepsTimely(node, s, e);
    } else {
      StepKeepsWf(node, s, e);
      var s' := Step(node, s, e);
      if IsRequestEvent(e) {
        RequestsLeaveReloadingAlone(node, s, e);
      } else {
        OtherStepShape(node, s, e);
      }
      TimesStay(node, s, s');
    }
  }

  /** Later, and outside of visits, recorded times stay as good as they were. */
  lemma TimesStay(node: Node, s: State, s': State)
    requires Wf(s) && Wf(s') && Timely(node, s) && s.clock <= s'.clock && |s.tenants| <= |s'.tenants|
    requires forall t :: 0 <= t < |s.tenants| ==>
      s'.tenants[t].ctl == s.tenants[t].ctl && s'.tenants[t].swapTimes == s.tenants[t].swapTimes
    requires forall t :: |s.tenants| <= t < |s'.tenants| ==> JustLoaded(s'.tenants[t], s'.clock)
    requires s'.loop == s.loop || PassBoundary(s.loop, s'.loop, s'.clock)
    ensures Timely(node, s')
  {
    forall u | 0 <= u < |s'.tenants|
      ensures TimesOk(node.policy.debounce, s'.clock, s'.tenants[u], AtPhase(s'.loop, u, s'.loop.Stamping?))
    {
      if u < |s.tenants| {
        assert TimesOk(node.policy.debounce, s.clock, s.tenants[u], AtPhase(s.loop, u, s.loop.Stamping?));
      }
    }
  }

  lemma {:induction false} SpacedSpread(times: seq<nat>, gap: nat, i: nat, j: nat)
    requires Spaced(times, gap) && i <= j < |times|
    ensures times[i] + (j - i) * gap <= times[j]
    decreases j - i
  {
    if i < j {
      SpacedSpread(times, gap, i, j - 1);
      assert times[j - 1] + gap <= times[j];
      assert (j - i) * gap == (j - 1 - i) * gap + gap;
    }
  }

  /** Any window holds at most one time more than it holds whole gaps. */
  lemma SpacedWindow(times: seq<nat>, gap: nat, i: nat, j: nat, width: nat)
    requires Spaced(times, gap) && gap > 0 && i <= j < |times| && times[j] <= times[i] + width
    ensures j - i + 1 <= width / gap + 1
  {
    SpacedSpread(times, gap, i, j);
    assert (j - i) * gap <= width;
    QuotientBound(j - i, gap, width);
  }

  lemma TimesMonotone(a: nat, b: nat, c: nat)
    requires a <= b
    ensures a * c <= b * c
  {
  }

  lemma QuotientBound(n: nat, gap: nat, width: nat)
    requires gap > 0 && n * gap <= width
    ensures n <= width / gap
  {
    var q := width / gap;
    assert (q + 1) * gap == q * gap + gap;
    assert width < (q + 1) * gap;
    if n > q {
      TimesMonotone(q + 1, n, gap);
    }
  }

  // ----- counting failures

  /** The step is one of the loop's visit to the tenant. */
  predicate Visits(s: State, e: Event, t: nat) {
    IsVisit(s, e) && s.loop.rest[0] == t
  }

  /**
   The failed pulls of the tenant since the end of its last visit that succeeded, or since its activation,
   counted over the events of a run. Skipped visits and aborted passes count nothing and reset nothing.
   */
  ghost function FailedPulls(node: Node, s: State, es: seq<Event>, t: nat): nat
    requires Legal(node, s, es)
    decreases |es|
  {
    if es == [] then 0
    else
      var init, e := es[..|es| - 1], es[|es| - 1];
      var before, n := Exec(node, s, init), FailedPulls(node, s, init, t);
      if !Visits(before, e, t) then n
      else if e.PollPull? then n + if before.fetch.outcome.Err? then 1 else 0
      else if before.loop.Finishing? then 0
      else n
  }

  /** The counter is the count, or already zero in the last phase of a visit that swapped. */
  predicate CountOk(failures: nat, n: nat, finishing: bool) {
    failures == n || (finishing && failures == 0)
  }

  /** A position not yet taken has seen no pull; for a tenant the counter is right. */
  ghost predicate Counted(s: State, t: nat, n: nat) {
    if t < |s.tenants| then CountOk(s.tenants[t].ctl.failures, n, AtPhase(s.loop, t, s.loop.Finishing?))
    else n == 0
  }

  lemma VisitKeepsCount(node: Node, clock: nat, loop: Loop, ts: TenantState, pulled: Result<Loader.Loaded>, n: nat)
    requires !loop.Idle? && loop.rest != [] && CountOk(ts.ctl.failures, n, loop.Finishing?)
    ensures
      var (ts', loop') := NextVisit(node, clock, loop, ts, pulled);
      var n' := if loop.Pulling? then n + (if pulled.Err? then 1 else 0) else if loop.Finishing? then 0 else n;
      CountOk(ts'.ctl.failures, n', loop'.Finishing?)
  {
  }

  lemma VisitStepKeepsCounted(node: Node, s: State, e: Event, t: nat, n: nat)
    requires Wf(s) && Enabled(node, s, e) && IsVisit(s, e) && Counted(s, t, n)
    ensures
      var n' :=
        if s.loop.rest[0] != t then n
        else if e.PollPull? then n + (if s.fetch.outcome.Err? then 1 else 0)
        else if s.loop.Finishing? then 0
        else n;
      Counted(Step(node, s, e), t, n')
  {
    VisitIsLocal(node, s, e);
    var u := s.loop.rest[0];
    VisitShape(node, s.clock, s.loop, s.tenants[u], Pull(node, s, e));
    if u == t {
      VisitKeepsCount(node, s.clock, s.loop, s.tenants[t], Pull(node, s, e), n);
    }
  }

  /** Outside of visits, counters stay as good as they were. */
  lemma CountStays(s: State, s': State, t: nat, n: nat)
    requires Counted(s, t, n) && |s.tenants| <= |s'.tenants|
    requires forall u :: 0 <= u < |s.tenants| ==> s'.tenants[u].ctl == s.tenants[u].ctl
    requires forall u :: |s.tenants| <= u < |s'.tenants| ==> JustLoaded(s'.tenants[u], s'.clock)
    requires s'.loop == s.loop || PassBoundary(s.loop, s'.loop, s'.clock)
    ensures Counted(s', t, n)
  {
  }

  lemma OtherStepKeepsCounted(node: Node, s: State, e: Event, t: nat, n: nat)
    requires Wf(s) && Enabled(node, s, e) && !IsVisit(s, e) && Counted(s, t, n)
    ensures Counted(Step(node, s, e), t, n)
  {
    if IsRequestEvent(e) {
      RequestsLeaveReloadingAlone(node, s, e);
    } else {
      OtherStepShape(node, s, e);
    }
    CountStays(s, Step(node, s, e), t, n);
  }

  lemma {:induction false} RunCounts(node: Node, es: seq<Event>, t: nat)
    requires Legal(node, START, es)
    ensures Counted(Exec(node, START, es), t, FailedPulls(node, START, es, t))
    decreases |es|
  {
    if es != [] {
      var init, e := es[..|es| - 1], es[|es| - 1];
      var s, n := Exec(node, START, init), FailedPulls(node, START, init, t);
      RunCounts(node, init, t);
      if IsVisit(s, e) {
        VisitStepKeepsCounted(node, s, e, t, n);
      } else {
        OtherStepKeepsCounted(node, s, e, t, n);
      }
    }
  }

  // ----- counting invocations

  /** The requests a tenant has served to the end. */
  function ServedBy(s: State, t: nat): set<nat> {
    set r | r in s.requests && s.requests[r].Served? && s.requests[r].t == t
  }

  ghost predicate Tallied(s: State) {
    forall t :: 0 <= t < |s.tenants| ==> s.tenants[t].invocations == |ServedBy(s, t)|
  }

  /** Only counting serves a request and moves a counter. */
  lemma ServingShape(node: Node, s: State, e: Event)
    requires Wf(s) && Enabled(node, s, e) && IsRequestEvent(e)
    ensures
      var s' := Step(node, s, e);
      && !RequestOf(s, e.r).Served? && (RequestOf(s', e.r).Served? <==> e.Count?)
      && (e.Count? ==> RequestOf(s', e.r).t == RequestOf(s, e.r).t)
      && forall t :: 0 <= t < |s.tenants| ==>
           t < |s'.tenants| && s'.tenants[t].invocations ==
             s.tenants[t].invocations + (if e.Count? && RequestOf(s, e.r).t == t then 1 else 0)
  {
  }

  lemma InServedBy(s: State, t: nat, r: nat)
    ensures r in ServedBy(s, t) <==> RequestOf(s, r).Served? && RequestOf(s, r).t == t
  {
  }

  /** How the served set moves when only one request, not served before, changed. */
  lemma ServedByAfter(s: State, s': State, r: nat, counted: bool, t: nat)
    requires forall q :: q != r ==> RequestOf(s', q) == RequestOf(s, q)
    requires !RequestOf(s, r).Served? && (RequestOf(s', r).Served? <==> counted)
    ensures ServedBy(s', t) == ServedBy(s, t) + (if counted && RequestOf(s', r).t == t then {r} else {})
    ensures r !in ServedBy(s, t)
  {
    forall q ensures q in ServedBy(s', t) <==>
      q in ServedBy(s, t) || (q == r && counted && RequestOf(s', r).t == t)
    {
      InServedBy(s, t, q);
      InServedBy(s', t, q);
    }
    InServedBy(s, t, r);
  }

  lemma RequestStepTally(node: Node, s: State, e: Event, t: nat)
    requires Wf(s) && Enabled(node, s, e) && IsRequestEvent(e) && t < |s.tenants|
    requires Tallied(s)
    ensures
      var s' := Step(node, s, e);
      t < |s'.tenants| && s'.tenants[t].invocations == |ServedBy(s', t)|
  {
    RequestStepIsLocal(node, s, e);
    ServingShape(node, s, e);
    ServedByAfter(s, Step(node, s, e), e.r, e.Count?, t);
  }

  lemma StepKeepsTallied(node: Node, s: State, e: Event)
    requires Wf(s) && Enabled(node, s, e) && Tallied(s) && ServedInRange(s)
    ensures Tallied(Step(node, s, e))
  {
    var s' := Step(node, s, e);
    if IsRequestEvent(e) {
      RequestsLeaveReloadingAlone(node, s, e);
      forall t | 0 <= t < |s'.tenants| ensures s'.tenants[t].invocations == |ServedBy(s', t)| {
        RequestStepTally(node, s, e, t);
      }
    } else {
      OtherStepTally(node, s, e);
    }
  }

  ghost predicate ServedInRange(s: State) {
    forall r :: r in s.requests && s.requests[r].Served? ==> s.requests[r].t < |s.tenants|
  }

  lemma OtherStepTally(node: Node, s: State, e: Event)
    requires Wf(s) && Enabled(node, s, e) && Tallied(s) && ServedInRange(s) && !IsRequestEvent(e)
    ensures Tallied(Step(node, s, e))
  {
    var s' := Step(node, s, e);
    if IsVisit(s, e) {
      VisitIsLocal(node, s, e);
      VisitFrame(node, s.clock, s.loop, s.tenants[s.loop.rest[0]], Pull(node, s, e));
    } else {
      OtherStepShape(node, s, e);
    }
    forall t | 0 <= t < |s'.tenants| ensures s'.tenants[t].invocations == |ServedBy(s', t)| {
      assert ServedBy(s', t) == ServedBy(s, t);
      if t >= |s.tenants| {
        assert ServedBy(s, t) == {};
      }
    }
  }
}
