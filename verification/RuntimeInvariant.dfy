/** What every step of the runtime keeps. */
module RuntimeInvariant {
  import opened Base
  import Digests
  import Distribution
  import Linker
  import opened Loader
  import opened Pool
  import opened Reload
  import opened RuntimeProtocol
  import Sandbox
  import P = StoreProtocol
  import Tenancy

  // ----- generations are sound and respect pins

  ghost predicate GenerationsSound(node: Node, ts: TenantState) {
    && ts.generations != [] && ts.generations[|ts.generations| - 1] == ts.ctl.active
    && |ts.swapTimes| == |ts.generations|
    && (forall i :: 0 <= i < |ts.generations| ==>
          GenerationOk(node.host, ts.generations[i]) && RespectsPin(ts.source, ts.generations[i].digest))
    && (Pinned(ts.source) ==> |ts.generations| == 1)
  }

  /** What the loop carries for the tenant it is visiting. */
  ghost predicate CargoSound(node: Node, loop: Loop, ts: TenantState) {
    match loop
    case Pulled(_, _, loaded) =>
      && WellLoaded(node.host, loaded) && ContractHolds(loaded.exports)
      && RespectsPin(ts.source, loaded.digest)
    case Ready(_, _, gen) =>
      && GenerationOk(node.host, gen) && RespectsPin(ts.source, gen.digest)
      && gen.digest != ts.ctl.active.digest
    case _ => true
  }

  /** What a fetch carries: only verified blobs are stored, only authentic components come back. */
  ghost predicate FetchSound(node: Node, fetch: Fetch) {
    match fetch
    case Storing(_, digest, blob) => Digests.DigestOf(node.host, blob) == digest
    case Fetched(task, outcome) =>
      outcome.Ok? ==> WellLoaded(node.host, outcome.value) && RespectsPin(task.Source(), outcome.value.digest)
    case _ => true
  }

  /** A fetch for the reload loop is for the tenant it is visiting. */
  predicate FetchForVisited(s: State)
    requires Wf(s)
  {
    !s.fetch.Resting? && s.fetch.task.Polling? ==>
      s.loop.Pulling? && s.tenants[s.loop.rest[0]].source == s.fetch.task.source
  }

  ghost predicate Sound(node: Node, s: State)
    requires Wf(s)
  {
    && P.Inv(node.host, P.ONE_EACH, s.store)
    && FetchSound(node, s.fetch) && FetchForVisited(s)
    && (forall t :: 0 <= t < |s.tenants| ==> GenerationsSound(node, s.tenants[t]))
    && (!s.loop.Idle? && s.loop.rest != [] ==> CargoSound(node, s.loop, s.tenants[s.loop.rest[0]]))
  }

  function TrackedAt(s: State, t: nat): Tracked
    requires t < |s.tenants|
  {
    Tracked(s.tenants[t].source, s.tenants[t].ctl)
  }

  /** The outcome of the visited tenant's next step. */
  function NextVisit(node: Node, clock: nat, loop: Loop, ts: TenantState, pulled: Result<Loaded>)
    : (TenantState, Loop)
    requires !loop.Idle? && loop.rest != []
  {
    if loop.Pulling? then AfterPull(loop, ts, pulled) else Advance(node, clock, loop, ts)
  }

  /** Only storing a ready generation touches the generations, and it appends one. */
  lemma VisitFrame(node: Node, clock: nat, loop: Loop, ts: TenantState, pulled: Result<Loaded>)
    requires !loop.Idle? && loop.rest != []
    ensures
      var (ts', loop') := NextVisit(node, clock, loop, ts, pulled);
      && ts'.source == ts.source && ts'.sandbox == ts.sandbox && ts'.cap == ts.cap && ts'.pool == ts.pool
      && ts'.invocations == ts.invocations
      && (if loop.Ready?
          then ts'.generations == ts.generations + [loop.gen] && ts'.swapTimes == ts.swapTimes + [clock]
               && ts'.ctl == ts.ctl.(active := loop.gen) && loop' == Stamping(loop.now, loop.rest)
          else ts'.generations == ts.generations && ts'.swapTimes == ts.swapTimes
               && ts'.ctl.active == ts.ctl.active)
  {
  }

  lemma VisitKeepsGenerations(node: Node, clock: nat, loop: Loop, ts: TenantState, pulled: Result<Loaded>)
    requires !loop.Idle? && loop.rest != []
    requires GenerationsSound(node, ts) && CargoSound(node, loop, ts)
    ensures GenerationsSound(node, NextVisit(node, clock, loop, ts, pulled).0)
  {
    VisitFrame(node, clock, loop, ts, pulled);
    if loop.Ready? {
      assert RespectsPin(ts.source, ts.generations[|ts.generations| - 1].digest);
      assert !Pinned(ts.source);
    }
  }

  lemma VisitKeepsCargo(node: Node, clock: nat, loop: Loop, ts: TenantState, pulled: Result<Loaded>)
    requires !loop.Idle? && loop.rest != [] && CargoSound(node, loop, ts)
    requires loop.Pulling? && pulled.Ok? ==>
      WellLoaded(node.host, pulled.value) && RespectsPin(ts.source, pulled.value.digest)
    ensures
      var (ts', loop') := NextVisit(node, clock, loop, ts, pulled);
      CargoSound(node, loop', ts')
  {
  }

  lemma NewTenantIsSound(node: Node, clock: nat, cfg: Tenancy.TenantConfig, artifact: Result<Loaded>,
                         scratch: Sandbox.MemFs)
    requires artifact.Ok? ==>
      WellLoaded(node.host, artifact.value) && RespectsPin(cfg.component, artifact.value.digest)
    ensures
      var r := NewTenant(node, clock, cfg, artifact, scratch);
      r.Ok? ==> GenerationsSound(node, r.value)
  {
  }

  /** Requests change pools and counters only. */
  lemma RequestsLeaveReloadingAlone(node: Node, s: State, e: Event)
    requires Wf(s) && Enabled(node, s, e) && IsRequestEvent(e)
    ensures
      var s' := Step(node, s, e);
      && s'.store == s.store && s'.fetch == s.fetch && s'.loop == s.loop && s'.clock == s.clock
      && |s'.tenants| == |s.tenants|
      && forall t :: 0 <= t < |s.tenants| ==>
           s'.tenants[t] == s.tenants[t].(pool := s'.tenants[t].pool, invocations := s'.tenants[t].invocations)
  {
  }

  lemma RequestStepIsLocal(node: Node, s: State, e: Event)
    requires Wf(s) && Enabled(node, s, e) && IsRequestEvent(e)
    ensures
      var s' := Step(node, s, e);
      && s'.requests.Keys == s.requests.Keys + {e.r}
      && forall r :: r in s.requests && r != e.r ==> s'.requests[r] == s.requests[r]
  {
  }

  lemma LoadKeepsSound(node: Node, s: State, e: Event)
    requires Wf(s) && Enabled(node, s, e) && Sound(node, s) && e.LoadDone?
    ensures Wf(Step(node, s, e)) && Sound(node, Step(node, s, e))
  {
    StepKeepsWf(node, s, e);
    NewTenantIsSound(node, s.clock, s.fetch.task.cfg, s.fetch.outcome, e.scratch);
  }

  /** Steps on the directory, and of a fetch: everything else stays. */
  predicate IsFetchEvent(e: Event) {
    e.Outside? || e.LoadAsk? || e.Answered? || e.PutStep? || e.ReadBack? || e.PollAsk?
  }

  lemma FetchStepIsLocal(node: Node, s: State, e: Event)
    requires Wf(s) && Enabled(node, s, e) && IsFetchEvent(e)
    ensures
      var s' := Step(node, s, e);
      && s' == s.(store := s'.store, fetch := s'.fetch)
      && (!e.Outside? && !e.PutStep? ==> s'.store == s.store)
  {
  }

  /** The store's invariant is kept by this process's steps and by everyone else's. */
  lemma DirectoryStepKeepsStore(node: Node, s: State, e: Event)
    requires Wf(s) && Enabled(node, s, e) && (e.Outside? || e.PutStep?)
    requires P.Inv(node.host, P.ONE_EACH, s.store)
    ensures P.Inv(node.host, P.ONE_EACH, Step(node, s, e).store)
  {
    P.StepKeeps(node.host, P.ONE_EACH, s.store, e.step);
  }

  /** What a fetch carries is sound again after its next step. */
  lemma FetchStepKeepsCargo(node: Node, s: State, e: Event)
    requires Wf(s) && Enabled(node, s, e) && Sound(node, s) && IsFetchEvent(e)
    ensures FetchSound(node, Step(node, s, e).fetch)
  {
    if e.ReadBack? {
      var source := s.fetch.task.Source();
      Distribution.PulledIsAuthentic(node.host, s.store.disk, source.reference, source.pin, Ok(s.fetch.digest));
    }
  }

  lemma FetchKeepsSound(node: Node, s: State, e: Event)
    requires Wf(s) && Enabled(node, s, e) && Sound(node, s) && IsFetchEvent(e)
    ensures Wf(Step(node, s, e)) && Sound(node, Step(node, s, e))
  {
    StepKeepsWf(node, s, e);
    FetchStepIsLocal(node, s, e);
    FetchStepKeepsCargo(node, s, e);
    if e.Outside? || e.PutStep? {
      DirectoryStepKeepsStore(node, s, e);
    }
  }

  lemma RequestKeepsSound(node: Node, s: State, e: Event)
    requires Wf(s) && Enabled(node, s, e) && Sound(node, s) && IsRequestEvent(e)
    ensures Wf(Step(node, s, e)) && Sound(node, Step(node, s, e))
  {
    StepKeepsWf(node, s, e);
    RequestsLeaveReloadingAlone(node, s, e);
    var s' := Step(node, s, e);
    forall t | 0 <= t < |s'.tenants| ensures GenerationsSound(node, s'.tenants[t]) {
      assert GenerationsSound(node, s.tenants[t]);
    }
  }

  /** The loop begins a pass now, or ends one. */
  predicate PassBoundary(loop: Loop, loop': Loop, clock: nat) {
    && (loop.Idle? || loop.Scanning?)
    && (loop'.Idle? || (loop'.Scanning? && loop'.now == clock))
  }

  predicate JustLoaded(ts: TenantState, clock: nat) {
    && ts.pool == [] && ts.cap >= 1 && ts.invocations == 0
    && ts.swapTimes == [clock] && ts.ctl.lastSwap == clock && ts.ctl.failures == 0
  }

  lemma NewTenantIsJustLoaded(node: Node, clock: nat, cfg: Tenancy.TenantConfig, artifact: Result<Loaded>,
                              scratch: Sandbox.MemFs)
    ensures
      var r := NewTenant(node, clock, cfg, artifact, scratch);
      r.Ok? ==> JustLoaded(r.value, clock)
  {
  }

  lemma LoadAddsTenant(node: Node, s: State, e: Event)
    requires Wf(s) && Enabled(node, s, e) && e.LoadDone?
    ensures
      var s' := Step(node, s, e);
      && s'.requests == s.requests && s'.owner == s.owner && s'.nextSerial == s.nextSerial
      && s'.clock == s.clock && s'.loop == s.loop && s.tenants <= s'.tenants
      && forall t :: |s.tenants| <= t < |s'.tenants| ==> JustLoaded(s'.tenants[t], s'.clock)
  {
    NewTenantIsJustLoaded(node, s.clock, s.fetch.task.cfg, s.fetch.outcome, e.scratch);
  }

  /** Every remaining step: time, fetches, the directory, loads, and the ends of a pass. */
  lemma OtherStepShape(node: Node, s: State, e: Event)
    requires Wf(s) && Enabled(node, s, e) && !IsRequestEvent(e) && !IsVisit(s, e)
    ensures
      var s' := Step(node, s, e);
      && s'.requests == s.requests && s'.owner == s.owner && s'.nextSerial == s.nextSerial
      && s.clock <= s'.clock && s.tenants <= s'.tenants
      && (forall t :: |s.tenants| <= t < |s'.tenants| ==> JustLoaded(s'.tenants[t], s'.clock))
      && (s'.loop == s.loop || PassBoundary(s.loop, s'.loop, s'.clock))
  {
    if e.LoadDone? {
      LoadAddsTenant(node, s, e);
    } else if IsFetchEvent(e) {
      FetchStepIsLocal(node, s, e);
    }
  }

  /** The outcome of the pull an event stands for, if it stands for one. */
  ghost function Pull(node: Node, s: State, e: Event): Result<Loaded>
    requires Wf(s) && Enabled(node, s, e)
  {
    if e.PollPull? then s.fetch.outcome else Err(Io)
  }

  predicate IsVisit(s: State, e: Event) {
    (e.PollPull? || e.PollStep?) && !s.loop.Idle? && s.loop.rest != []
  }

  /** A visit is the next step of one tenant and the loop; everything else stays, but for the fetch it ends. */
  lemma VisitIsLocal(node: Node, s: State, e: Event)
    requires Wf(s) && Enabled(node, s, e) && IsVisit(s, e)
    ensures
      var t := s.loop.rest[0];
      var (ts', loop') := NextVisit(node, s.clock, s.loop, s.tenants[t], Pull(node, s, e));
      Step(node, s, e) ==
        s.(tenants := s.tenants[t := ts'], loop := loop', fetch := if e.PollPull? then Resting else s.fetch)
  {
  }

  lemma VisitKeepsSound(node: Node, s: State, e: Event)
    requires Wf(s) && Enabled(node, s, e) && Sound(node, s) && IsVisit(s, e)
    ensures Wf(Step(node, s, e)) && Sound(node, Step(node, s, e))
  {
    StepKeepsWf(node, s, e);
    VisitIsLocal(node, s, e);
    var t := s.loop.rest[0];
    var ts, pulled := s.tenants[t], Pull(node, s, e);
    VisitKeepsGenerations(node, s.clock, s.loop, ts, pulled);
    VisitKeepsCargo(node, s.clock, s.loop, ts, pulled);
    VisitShape(node, s.clock, s.loop, ts, pulled);
  }

  lemma StepKeepsSound(node: Node, s: State, e: Event)
    requires Wf(s) && Enabled(node, s, e) && Sound(node, s)
    ensures Wf(Step(node, s, e)) && Sound(node, Step(node, s, e))
  {
    if e.LoadDone? {
      LoadKeepsSound(node, s, e);
    } else if IsFetchEvent(e) {
      FetchKeepsSound(node, s, e);
    } else if IsRequestEvent(e) {
      RequestKeepsSound(node, s, e);
    } else if IsVisit(s, e) {
      VisitKeepsSound(node, s, e);
    } else {
      StepKeepsWf(node, s, e);
    }
  }

  // ----- tenants only grow

  ghost predicate Grown(ts: TenantState, ts': TenantState) {
    && ts'.source == ts.source && ts'.sandbox == ts.sandbox && ts'.cap == ts.cap
    && ts.generations <= ts'.generations
  }

  lemma StepGrows(node: Node, s: State, e: Event)
    requires Wf(s) && Enabled(node, s, e)
    ensures |s.tenants| <= |Step(node, s, e).tenants|
    ensures forall t :: 0 <= t < |s.tenants| ==> Grown(s.tenants[t], Step(node, s, e).tenants[t])
    ensures !IsRequestEvent(e) ==>
      forall t :: 0 <= t < |s.tenants| ==> Step(node, s, e).tenants[t].pool == s.tenants[t].pool
  {
    if IsRequestEvent(e) {
      RequestsLeaveReloadingAlone(node, s, e);
    } else if IsVisit(s, e) {
      VisitIsLocal(node, s, e);
      VisitFrame(node, s.clock, s.loop, s.tenants[s.loop.rest[0]], Pull(node, s, e));
    }
  }

  // ----- instances and requests

  /** The instance was built from a generation of this tenant, for this tenant's sandbox. */
  ghost predicate Made(ts: TenantState, p: Prepared) {
    && p.ctx == Linker.NewHostCtx(ts.sandbox)
    && exists k :: 0 <= k < |ts.generations|
         && ts.generations[k].compiled == p.guest && ts.generations[k].digest == p.digest
  }

  ghost predicate PoolServes(ts: TenantState) {
    && |ts.pool| <= ts.cap
    && forall j :: 0 <= j < |ts.pool| ==> Made(ts, ts.pool[j])
  }

  ghost predicate RequestServes(s: State, q: Request) {
    match q
    case Gone => true
    case Found(t) => t < |s.tenants|
    case Snapped(t, gen) => t < |s.tenants| && gen in s.tenants[t].generations
    case _ =>
      && q.t < |s.tenants| && q.gen in s.tenants[q.t].generations
      && Made(s.tenants[q.t], q.inst) && q.inst.digest == q.gen.digest
  }

  ghost predicate Serving(s: State) {
    && (forall t :: 0 <= t < |s.tenants| ==> PoolServes(s.tenants[t]))
    && (forall r :: r in s.requests ==> RequestServes(s, s.requests[r]))
  }

  lemma MadeStays(ts: TenantState, ts': TenantState, p: Prepared)
    requires Grown(ts, ts') && Made(ts, p)
    ensures Made(ts', p)
  {
    var k :| 0 <= k < |ts.generations|
      && ts.generations[k].compiled == p.guest && ts.generations[k].digest == p.digest;
    assert ts'.generations[k] == ts.generations[k];
  }

  lemma ServesStays(s: State, s': State, q: Request)
    requires |s.tenants| <= |s'.tenants|
    requires forall t :: 0 <= t < |s.tenants| ==> Grown(s.tenants[t], s'.tenants[t])
    requires RequestServes(s, q)
    ensures RequestServes(s', q)
  {
    if !q.Gone? && !q.Found? {
      var k :| 0 <= k < |s.tenants[q.t].generations| && s.tenants[q.t].generations[k] == q.gen;
      assert s'.tenants[q.t].generations[k] == q.gen;
      if !q.Snapped? {
        MadeStays(s.tenants[q.t], s'.tenants[q.t], q.inst);
      }
    }
  }

  lemma RequestsServeOn(s: State, s': State)
    requires Serving(s) && s'.requests == s.requests && |s.tenants| <= |s'.tenants|
    requires forall t :: 0 <= t < |s.tenants| ==> Grown(s.tenants[t], s'.tenants[t])
    ensures forall r :: r in s'.requests ==> RequestServes(s', s'.requests[r])
  {
    forall r | r in s'.requests ensures RequestServes(s', s'.requests[r]) {
      ServesStays(s, s', s.requests[r]);
    }
  }

  /** Steps that are not a request's change neither pools nor what requests hold. */
  lemma QuietStepKeepsServing(node: Node, s: State, e: Event)
    requires Wf(s) && Enabled(node, s, e) && Serving(s) && !IsRequestEvent(e)
    ensures Serving(Step(node, s, e))
  {
    var s' := Step(node, s, e);
    StepGrows(node, s, e);
    if IsVisit(s, e) {
      VisitIsLocal(node, s, e);
    } else {
      OtherStepShape(node, s, e);
    }
    RequestsServeOn(s, s');
    forall t | 0 <= t < |s'.tenants| ensures PoolServes(s'.tenants[t]) {
      if t < |s.tenants| {
        PoolServesStays(s.tenants[t], s'.tenants[t]);
      }
    }
  }

  /** What an acquire yields: a pooled instance, a new one, or none. */
  lemma AcquireShape(s: State, r: nat, instantiates: bool)
    requires Wf(s) && RequestOf(s, r).Snapped?
    ensures
      var s' := AcquireStep(s, r, instantiates);
      var q := s.requests[r];
      var ts := s.tenants[q.t];
      var k := StalePrefix(ts.pool, q.gen.loaded.digest);
      && |s'.tenants| == |s.tenants|
      && s'.tenants[q.t] == ts.(pool := AfterAcquire(ts.pool, q.gen.loaded.digest))
      && r in s'.requests
      && s'.requests[r] ==
         (if k < |ts.pool| then Calling(q.t, q.gen, ts.pool[k])
          else if instantiates then
            Calling(q.t, q.gen, Prepared(q.gen.loaded.digest, Linker.NewHostCtx(ts.sandbox), q.gen.compiled,
                                         s.nextSerial))
          else Gone)
  {
  }

  lemma PoolServesAfterAcquire(ts: TenantState, ts': TenantState, digest: string)
    requires PoolServes(ts) && ts' == ts.(pool := AfterAcquire(ts.pool, digest))
    ensures PoolServes(ts')
    ensures forall p :: Made(ts, p) ==> Made(ts', p)
  {
    var k := StalePrefix(ts.pool, digest);
    forall p | Made(ts, p) ensures Made(ts', p) {
      MadeStays(ts, ts', p);
    }
    forall j | 0 <= j < |ts'.pool| ensures Made(ts', ts'.pool[j]) {
      assert ts'.pool[j] == ts.pool[k + 1 + j];
    }
  }

  lemma AcquireKeepsServing(node: Node, s: State, r: nat, instantiates: bool)
    requires Wf(s) && Sound(node, s) && Serving(s) && Enabled(node, s, Acquire(r, instantiates))
    ensures
      var s' := Step(node, s, Acquire(r, instantiates));
      && PoolServes(s'.tenants[s.requests[r].t])
      && RequestServes(s', s'.requests[r])
  {
    var s' := Step(node, s, Acquire(r, instantiates));
    var q := s.requests[r];
    var ts := s.tenants[q.t];
    AcquireShape(s, r, instantiates);
    assert RequestServes(s, q);
    var i :| 0 <= i < |ts.generations| && ts.generations[i] == q.gen;
    assert GenerationsSound(node, ts);
    assert GenerationOk(node.host, ts.generations[i]);
    PoolServesAfterAcquire(ts, s'.tenants[q.t], q.gen.loaded.digest);
    if s'.requests[r].Calling? {
      assert Made(ts, s'.requests[r].inst);
    }
  }

  lemma PoolServesStays(ts: TenantState, ts': TenantState)
    requires Grown(ts, ts') && PoolServes(ts) && ts'.pool == ts.pool
    ensures PoolServes(ts')
  {
    forall j | 0 <= j < |ts.pool| ensures Made(ts', ts'.pool[j]) {
      MadeStays(ts, ts', ts.pool[j]);
    }
  }

  lemma ReleaseKeepsPool(ts: TenantState, ts': TenantState, p: Prepared)
    requires Grown(ts, ts') && PoolServes(ts) && Made(ts, p) && ts'.pool == AfterRelease(ts.pool, ts.cap, p)
    ensures PoolServes(ts')
  {
    MadeStays(ts, ts', p);
    forall j | 0 <= j < |ts'.pool| ensures Made(ts', ts'.pool[j]) {
      if j < |ts.pool| {
        MadeStays(ts, ts', ts.pool[j]);
      }
    }
  }

  /** The request of the event ends up served by what it holds. */
  lemma ActorKeepsServing(node: Node, s: State, e: Event)
    requires Wf(s) && Enabled(node, s, e) && Sound(node, s) && Serving(s) && IsRequestEvent(e)
    ensures
      var s' := Step(node, s, e);
      e.r in s'.requests && RequestServes(s', s'.requests[e.r])
  {
    var s' := Step(node, s, e);
    StepGrows(node, s, e);
    var q := RequestOf(s, e.r);
    if e.Acquire? {
      AcquireKeepsServing(node, s, e.r, e.instantiates);
    } else if e.Snapshot? {
      assert GenerationsSound(node, s.tenants[q.t]);
    } else if !e.Lookup? {
      assert RequestServes(s, q);
      ServesStays(s, s', q);
    }
  }

  lemma RequestStepKeepsPool(node: Node, s: State, e: Event, t: nat)
    requires Wf(s) && Enabled(node, s, e) && Sound(node, s) && Serving(s) && IsRequestEvent(e)
    requires t < |s.tenants|
    ensures PoolServes(Step(node, s, e).tenants[t])
  {
    var s' := Step(node, s, e);
    StepGrows(node, s, e);
    var q := RequestOf(s, e.r);
    if e.Acquire? && t == q.t {
      AcquireKeepsServing(node, s, e.r, e.instantiates);
    } else if e.Release? && t == q.t {
      assert RequestServes(s, q);
      ReleaseKeepsPool(s.tenants[t], s'.tenants[t], q.inst);
    } else {
      PoolServesStays(s.tenants[t], s'.tenants[t]);
    }
  }

  lemma RequestStepKeepsServing(node: Node, s: State, e: Event)
    requires Wf(s) && Enabled(node, s, e) && Sound(node, s) && Serving(s) && IsRequestEvent(e)
    ensures Serving(Step(node, s, e))
  {
    var s' := Step(node, s, e);
    StepGrows(node, s, e);
    RequestsLeaveReloadingAlone(node, s, e);
    ActorKeepsServing(node, s, e);
    RequestStepIsLocal(node, s, e);
    forall r | r in s'.requests ensures RequestServes(s', s'.requests[r]) {
      if r != e.r {
        ServesStays(s, s', s.requests[r]);
      }
    }
    forall t | 0 <= t < |s'.tenants| ensures PoolServes(s'.tenants[t]) {
      RequestStepKeepsPool(node, s, e, t);
    }
  }

  lemma StepKeepsServing(node: Node, s: State, e: Event)
    requires Wf(s) && Enabled(node, s, e) && Sound(node, s) && Serving(s)
    ensures Serving(Step(node, s, e))
  {
    if IsRequestEvent(e) {
      RequestStepKeepsServing(node, s, e);
    } else {
      QuietStepKeepsServing(node, s, e);
    }
  }
}
