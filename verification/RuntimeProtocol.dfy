/**
 The runtime as a state machine: any number of requests, tenant loads, one reload loop and any number of
 other processes on the cache directory, interleaved step by step (`src/runtime.rs`, `src/runtime/invoke.rs`,
 `src/registry/oci.rs`).

 A tenant is a position in `tenants`, like an `Arc<Tenant>`; `routes` is the registry map. The fields
 `generations` and `swapTimes` of a tenant and `owner` of the state only record the past. The directory is
 a state of `StoreProtocol`, in which every process is one writer and this one is the writer `node.pid`.
 */
module RuntimeProtocol {
  import opened Base
  import opened Digests
  import opened Disk
  import opened Distribution
  import Linker
  import opened Loader
  import opened Pool
  import opened Reload
  import opened Sandbox
  import P = StoreProtocol
  import opened Tenancy

  datatype TenantState = TenantState(
    source: ComponentSource,
    sandbox: Sandbox,
    cap: nat,
    ctl: Control,
    pool: seq<Prepared>,
    invocations: nat,
    generations: seq<Generation>,
    swapTimes: seq<nat>)

  /** Where a request is in `invoke`; it keeps its tenant and the generation it snapshotted. */
  datatype Request =
    | Found(t: nat)
    | Snapped(t: nat, gen: Generation)
    | Calling(t: nat, gen: Generation, inst: Prepared)
    | Returned(t: nat, gen: Generation, inst: Prepared)
    | Released(t: nat, gen: Generation, inst: Prepared)
    | Served(t: nat, gen: Generation, inst: Prepared)
    | Gone

  /** Where the reload loop is in `poll_once`; the tenant being visited is the first of `rest`. */
  datatype Loop =
    | Idle
    | Scanning(now: nat, rest: seq<nat>)
    | Pulling(now: nat, rest: seq<nat>)
    | Pulled(now: nat, rest: seq<nat>, loaded: Loaded)
    | Ready(now: nat, rest: seq<nat>, gen: Generation)
    | Stamping(now: nat, rest: seq<nat>)
    | Clearing(now: nat, rest: seq<nat>)
    | Finishing(now: nat, rest: seq<nat>)

  /** What a component is fetched for: a visit to a tenant with this source, or a new tenant. */
  datatype Task = Polling(source: ComponentSource) | Loading(cfg: TenantConfig) {
    function Source(): ComponentSource {
      match this
      case Polling(source) => source
      case Loading(cfg) => cfg.component
    }
  }

  /**
   Where the process is in fetching a component. There is one such place: `build` loads its tenants one
   after the other before it starts the reload loop, and the loop pulls one component at a time.
   */
  datatype Fetch =
    | Resting
    | Asking(task: Task)
    | Storing(task: Task, digest: string, blob: Blob)
    | Reading(task: Task, digest: string)
    | Fetched(task: Task, outcome: Result<Loaded>)

  /** Where an instance is. */
  datatype Place = InPool(t: nat) | InRequest(r: nat) | Dropped

  datatype State = State(
    clock: nat,
    store: P.State,
    tenants: seq<TenantState>,
    routes: map<string, nat>,
    requests: map<nat, Request>,
    loop: Loop,
    fetch: Fetch,
    owner: map<nat, Place>,
    nextSerial: nat)

  datatype Event =
    | Tick(to: nat)
    | Outside(step: P.Event)
    | LoadAsk(cfg: TenantConfig, bridged: bool, file: Option<Blob>)
    | LoadDone(scratch: MemFs)
    | Answered(answer: Answer)
    | PutStep(step: P.Event)
    | ReadBack
    | Lookup(r: nat, id: string)
    | Snapshot(r: nat)
    | Acquire(r: nat, instantiates: bool)
    | Return(r: nat)
    | Release(r: nat)
    | Count(r: nat)
    | Abort(r: nat)
    | PollStart(order: seq<nat>)
    | PollAsk
    | PollPull
    | PollStep

  const START := State(0, P.START, [], map[], map[], Idle, Resting, map[], 0)

  predicate Holding(q: Request) {
    q.Calling? || q.Returned?
  }

  predicate Distinct(s: seq<nat>) {
    forall i, j :: 0 <= i < j < |s| ==> s[i] != s[j]
  }

  function RequestOf(s: State, r: nat): Request {
    if r in s.requests then s.requests[r] else Gone
  }

  // ----- fetching a component

  /** A manifest layer is cached already, or its blob is verified and about to be stored. */
  function AfterAnswer(node: Node, disk: Disk, task: Task, answer: Answer): Fetch {
    if answer.layers.None? || answer.layers.value == [] then Fetched(task, Err(Error.Oci))
    else
      var digest := answer.layers.value[0];
      if Holds(disk, digest) then Reading(task, digest)
      else match answer.blob
        case None => Fetched(task, Err(Error.Oci))
        case Some(blob) =>
          if VerifyDigest(node.host, blob, digest).Err? then Fetched(task, Err(DigestMismatch))
          else Storing(task, digest, blob)
  }

  /** A step of the put: it goes on, or it has ended, in failure if its writer stopped short. */
  function AfterPut(fetch: Fetch, phase: P.Phase, stopped: bool): Fetch
    requires fetch.Storing?
  {
    if !phase.Idle? then fetch
    else if stopped then Fetched(fetch.task, Err(Io))
    else Reading(fetch.task, fetch.digest)
  }

  function AfterRead(node: Node, disk: Disk, fetch: Fetch): Fetch
    requires fetch.Reading? && fetch.task.Source().Oci?
  {
    var source := fetch.task.Source();
    Fetched(fetch.task, Finish(node.host, disk, source.reference, source.pin, Ok(fetch.digest)))
  }

  // ----- loading a tenant

  /** A load begins: the registry is asked, or a file is read at once. */
  function AfterLoadAsk(node: Node, cfg: TenantConfig, bridged: bool, file: Option<Blob>): Fetch {
    if !LoadableIdAndLimits(cfg) || !bridged then Resting
    else match cfg.component
      case Oci(_, _) => Asking(Loading(cfg))
      case File(path) =>
        Fetched(Loading(cfg), if file.None? then Err(InvalidComponent) else FromBytes(node.host, path, file.value))
  }

  /**
   The record of a new tenant. It is created and registered in one step, so the first time of activation is
   that of the record; requests can reach the tenant only later.
   */
  function NewTenant(node: Node, clock: nat, cfg: TenantConfig, artifact: Result<Loaded>, scratch: MemFs)
    : Result<TenantState>
  {
    var gen :- FirstGeneration(node.host, artifact, clock);
    Ok(TenantState(cfg.component, Sandbox(cfg.name, cfg.limits, cfg.config, scratch),
                   Max(cfg.limits.maxInstances, 1), Control(gen, 0, clock), [], 0, [gen], [clock]))
  }

  // ----- instances

  function Drop(owner: map<nat, Place>, serials: set<nat>): map<nat, Place> {
    map i | i in owner :: if i in serials then Dropped else owner[i]
  }

  /** Serials of the first `k` queued instances. */
  function Serials(queue: seq<Prepared>, k: nat): set<nat>
    requires k <= |queue|
  {
    set j | 0 <= j < k :: queue[j].serial
  }

  /** The instances that were built and not dropped. */
  function Alive(owner: map<nat, Place>): set<nat> {
    set i | i in owner && !owner[i].Dropped?
  }

  /**
   The pool of the tenant has an instance of the digest; or the engine, whose allocator serves all tenants,
   has room for one more once the pool's stale instances are dropped.
   */
  predicate HasRoom(node: Node, s: State, t: nat, digest: string) {
    t < |s.tenants| ==>
      var k := StalePrefix(s.tenants[t].pool, digest);
      k < |s.tenants[t].pool| || |Alive(Drop(s.owner, Serials(s.tenants[t].pool, k)))| < node.capacity
  }

  // ----- enabledness

  /**
   The process has loaded nothing. Only then can the machine lose power, or the directory see the last of
   an earlier process with the same id: both end this process.
   */
  predicate Unstarted(s: State) {
    s.tenants == [] && s.fetch.Resting?
  }

  ghost predicate Enabled(node: Node, s: State, e: Event) {
    match e
    case Tick(to) => s.clock <= to
    case Outside(step) =>
      && P.Enabled(node.host, P.ONE_EACH, s.store, step)
      && (Unstarted(s) || (!step.PowerLoss? && step.w != node.pid))
    case LoadAsk(_, _, _) => s.fetch.Resting? && P.PhaseOf(s.store, node.pid).Idle?
    case LoadDone(scratch) =>
      && s.fetch.Fetched? && s.fetch.task.Loading?
      && forall t :: 0 <= t < |s.tenants| ==> s.tenants[t].sandbox.scratch != scratch
    case Answered(_) => s.fetch.Asking?
    case PutStep(step) =>
      && s.fetch.Storing? && P.Enabled(node.host, P.ONE_EACH, s.store, step)
      && !step.PowerLoss? && step.w == node.pid && (step.BeginPut? ==> step.blob == s.fetch.blob)
    case ReadBack => s.fetch.Reading?
    case Lookup(r, _) => r !in s.requests
    case Snapshot(r) => RequestOf(s, r).Found?
    case Acquire(r, instantiates) =>
      var q := RequestOf(s, r);
      q.Snapped? && (instantiates ==> HasRoom(node, s, q.t, q.gen.loaded.digest))
    case Return(r) => RequestOf(s, r).Calling?
    case Release(r) => RequestOf(s, r).Returned?
    case Count(r) => RequestOf(s, r).Released?
    case Abort(r) => !RequestOf(s, r).Gone? && !RequestOf(s, r).Released? && !RequestOf(s, r).Served?
    case PollStart(order) =>
      s.loop.Idle? && Distinct(order) && forall t :: t in order <==> t in s.routes.Values
    case PollAsk => s.loop.Pulling? && s.fetch.Resting?
    case PollPull => s.loop.Pulling? && s.fetch.Fetched? && s.fetch.task.Polling?
    case PollStep => !s.loop.Idle? && !s.loop.Pulling?
  }

  // ----- effects of requests

  function PutRequest(s: State, r: nat, q: Request): State {
    s.(requests := s.requests[r := q])
  }

  function AcquireStep(s: State, r: nat, instantiates: bool): State
    requires RequestOf(s, r).Snapped? && RequestOf(s, r).t < |s.tenants|
  {
    var q := RequestOf(s, r);
    var ts := s.tenants[q.t];
    var digest := q.gen.loaded.digest;
    var k := StalePrefix(ts.pool, digest);
    var dropped := Drop(s.owner, Serials(ts.pool, k));
    var tenants := s.tenants[q.t := ts.(pool := AfterAcquire(ts.pool, digest))];
    if k < |ts.pool| then
      s.(tenants := tenants, owner := dropped[ts.pool[k].serial := InRequest(r)],
         requests := s.requests[r := Calling(q.t, q.gen, ts.pool[k])])
    else if !instantiates then
      s.(tenants := tenants, owner := dropped, requests := s.requests[r := Gone])
    else
      var inst := Prepared(digest, Linker.NewHostCtx(ts.sandbox), q.gen.compiled, s.nextSerial);
      s.(tenants := tenants, owner := dropped[s.nextSerial := InRequest(r)], nextSerial := s.nextSerial + 1,
         requests := s.requests[r := Calling(q.t, q.gen, inst)])
  }

  function ReleaseStep(s: State, r: nat): State
    requires RequestOf(s, r).Returned? && RequestOf(s, r).t < |s.tenants|
  {
    var q := RequestOf(s, r);
    var ts := s.tenants[q.t];
    var place := if |ts.pool| < ts.cap then InPool(q.t) else Dropped;
    s.(tenants := s.tenants[q.t := ts.(pool := AfterRelease(ts.pool, ts.cap, q.inst))],
       owner := s.owner[q.inst.serial := place],
       requests := s.requests[r := Released(q.t, q.gen, q.inst)])
  }

  function CountStep(s: State, r: nat): State
    requires RequestOf(s, r).Released? && RequestOf(s, r).t < |s.tenants|
  {
    var q := RequestOf(s, r);
    var ts := s.tenants[q.t];
    s.(tenants := s.tenants[q.t := ts.(invocations := ts.invocations + 1)],
       requests := s.requests[r := Served(q.t, q.gen, q.inst)])
  }

  /** An error, a timeout or a cancelled request: an instance it holds is lost. */
  function AbortStep(s: State, r: nat): State {
    var q := RequestOf(s, r);
    s.(requests := s.requests[r := Gone],
       owner := if Holding(q) then s.owner[q.inst.serial := Dropped] else s.owner)
  }

  // ----- effects of the reload loop: on the tenant being visited, and on the loop itself

  /** The loop moves on to the next tenant. */
  function Onward(loop: Loop): Loop
    requires !loop.Idle? && loop.rest != []
  {
    Scanning(loop.now, loop.rest[1..])
  }

  /** A pull of the visited tenant has an outcome; the contract is checked at once. */
  function AfterPull(loop: Loop, ts: TenantState, pulled: Result<Loaded>): (TenantState, Loop)
    requires loop.Pulling? && loop.rest != []
  {
    if pulled.Err? then
      (ts.(ctl := ts.ctl.(failures := ts.ctl.failures + 1)), Onward(loop))
    else if EnsureContract(pulled.value).Err? then (ts, Idle)
    else (ts, Pulled(loop.now, loop.rest, pulled.value))
  }

  /** Every other step of a visit. Storing the generation, the time and the counter are separate steps. */
  function Advance(node: Node, clock: nat, loop: Loop, ts: TenantState): (TenantState, Loop)
    requires !loop.Idle? && !loop.Pulling? && loop.rest != []
  {
    var now, rest := loop.now, loop.rest;
    match loop
    case Scanning(_, _) =>
      if ts.source.File? then (ts, Onward(loop))
      else if node.policy.Debounced(now, ts.ctl.lastSwap) then (ts, Onward(loop))
      else (ts, Pulling(now, rest))
    case Pulled(_, _, loaded) =>
      if !node.policy.ShouldReload(Some(ts.ctl.active.digest), loaded.digest) then (ts, Finishing(now, rest))
      else (
        match MakeGeneration(node.host, loaded, clock)
        case Err(_) => (ts, Idle)
        case Ok(gen) => (ts, Ready(now, rest, gen)))
    case Ready(_, _, gen) =>
      (ts.(ctl := ts.ctl.(active := gen), generations := ts.generations + [gen],
           swapTimes := ts.swapTimes + [clock]),
       Stamping(now, rest))
    case Stamping(_, _) => (ts.(ctl := ts.ctl.(lastSwap := clock)), Clearing(now, rest))
    case Clearing(_, _) => (ts.(ctl := ts.ctl.(failures := 0)), Finishing(now, rest))
    case Finishing(_, _) => (ts.(ctl := ts.ctl.(failures := 0)), Onward(loop))
    case _ => (ts, loop)
  }

  function Visited(s: State, t: nat, next: (TenantState, Loop)): State
    requires t < |s.tenants|
  {
    s.(tenants := s.tenants[t := next.0], loop := next.1)
  }

  // ----- the machine

  /** Positions stored in the state are in range; enough to say what every step does. */
  ghost predicate Wf(s: State) {
    && (forall id :: id in s.routes ==> s.routes[id] < |s.tenants|)
    && (forall r :: r in s.requests && !s.requests[r].Gone? ==> s.requests[r].t < |s.tenants|)
    && (!s.loop.Idle? ==>
          && Distinct(s.loop.rest)
          && (forall i :: 0 <= i < |s.loop.rest| ==> s.loop.rest[i] < |s.tenants|)
          && (!s.loop.Scanning? ==> s.loop.rest != [] && s.tenants[s.loop.rest[0]].source.Oci?))
    && (s.fetch.Asking? || s.fetch.Storing? || s.fetch.Reading? ==> s.fetch.task.Source().Oci?)
  }

  ghost function Step(node: Node, s: State, e: Event): State
    requires Wf(s) && Enabled(node, s, e)
  {
    match e
    case Tick(to) => s.(clock := to)
    case Outside(step) => s.(store := P.Step(node.host, P.ONE_EACH, s.store, step))
    case LoadAsk(cfg, bridged, file) => s.(fetch := AfterLoadAsk(node, cfg, bridged, file))
    case LoadDone(scratch) => (
      match NewTenant(node, s.clock, s.fetch.task.cfg, s.fetch.outcome, scratch)
      case Err(_) => s.(fetch := Resting)
      case Ok(ts) =>
        s.(fetch := Resting, tenants := s.tenants + [ts],
           routes := s.routes[s.fetch.task.cfg.name := |s.tenants|]))
    case Answered(answer) => s.(fetch := AfterAnswer(node, s.store.disk, s.fetch.task, answer))
    case PutStep(step) =>
      var store := P.Step(node.host, P.ONE_EACH, s.store, step);
      s.(store := store, fetch := AfterPut(s.fetch, P.PhaseOf(store, node.pid), step.Stop?))
    case ReadBack => s.(fetch := AfterRead(node, s.store.disk, s.fetch))
    case Lookup(r, id) => PutRequest(s, r, if id in s.routes then Found(s.routes[id]) else Gone)
    case Snapshot(r) =>
      var t := RequestOf(s, r).t;
      PutRequest(s, r, Snapped(t, s.tenants[t].ctl.active))
    case Acquire(r, instantiates) => AcquireStep(s, r, instantiates)
    case Return(r) =>
      var q := RequestOf(s, r);
      PutRequest(s, r, Returned(q.t, q.gen, q.inst))
    case Release(r) => ReleaseStep(s, r)
    case Count(r) => CountStep(s, r)
    case Abort(r) => AbortStep(s, r)
    case PollStart(order) => s.(loop := Scanning(s.clock, order))
    case PollAsk => s.(fetch := Asking(Polling(s.tenants[s.loop.rest[0]].source)))
    case PollPull =>
      var t := s.loop.rest[0];
      Visited(s.(fetch := Resting), t, AfterPull(s.loop, s.tenants[t], s.fetch.outcome))
    case PollStep =>
      if s.loop.rest == [] then s.(loop := Idle)
      else
        var t := s.loop.rest[0];
        Visited(s, t, Advance(node, s.clock, s.loop, s.tenants[t]))
  }

  ghost predicate Legal(node: Node, s: State, es: seq<Event>)
    decreases |es|, 0
  {
    if es == [] then Wf(s)
    else
      var init := es[..|es| - 1];
      Legal(node, s, init) && Enabled(node, Exec(node, s, init), es[|es| - 1])
  }

  ghost function Exec(node: Node, s: State, es: seq<Event>): (s': State)
    requires Legal(node, s, es)
    ensures Wf(s')
    decreases |es|, 1
  {
    if es == [] then s
    else
      var before := Exec(node, s, es[..|es| - 1]);
      StepKeepsWf(node, before, es[|es| - 1]);
      Step(node, before, es[|es| - 1])
  }

  predicate IsLoopEvent(e: Event) {
    e.PollStart? || e.PollPull? || e.PollStep?
  }

  predicate IsRequestEvent(e: Event) {
    e.Lookup? || e.Snapshot? || e.Acquire? || e.Return? || e.Release? || e.Count? || e.Abort?
  }

  /** A visit step stays on its tenant or moves on to the next, and never changes the source. */
  lemma VisitShape(node: Node, clock: nat, loop: Loop, ts: TenantState, pulled: Result<Loaded>)
    requires !loop.Idle? && loop.rest != [] && (!loop.Scanning? ==> ts.source.Oci?)
    ensures
      var (ts', loop') := if loop.Pulling? then AfterPull(loop, ts, pulled) else Advance(node, clock, loop, ts);
      && ts'.source == ts.source
      && (loop'.Idle? || (loop'.now == loop.now &&
            (loop' == Onward(loop) || (loop'.rest == loop.rest && !loop'.Scanning? && ts.source.Oci?))))
  {
  }

  lemma LoopStepKeepsWf(node: Node, s: State, e: Event)
    requires Wf(s) && Enabled(node, s, e) && IsLoopEvent(e)
    ensures Wf(Step(node, s, e))
  {
    if e.PollStart? {
      forall i | 0 <= i < |e.order| ensures e.order[i] < |s.tenants| {
        assert e.order[i] in e.order;
      }
    } else if s.loop.rest != [] {
      var t := s.loop.rest[0];
      var pulled := if e.PollPull? then s.fetch.outcome else Err(Io);
      VisitShape(node, s.clock, s.loop, s.tenants[t], pulled);
    }
  }

  lemma WfAfterRequest(s: State, s': State, r: nat)
    requires Wf(s) && |s'.tenants| == |s.tenants| && s'.routes == s.routes
    requires s'.loop == s.loop && s'.fetch == s.fetch
    requires s'.requests == s.requests[r := RequestOf(s', r)]
    requires !RequestOf(s', r).Gone? ==> RequestOf(s', r).t < |s.tenants|
    requires forall t :: 0 <= t < |s.tenants| ==> s'.tenants[t].source == s.tenants[t].source
    ensures Wf(s')
  {
  }

  lemma RequestStepKeepsWf(node: Node, s: State, e: Event)
    requires Wf(s) && Enabled(node, s, e) && IsRequestEvent(e)
    ensures Wf(Step(node, s, e))
  {
    var s' := Step(node, s, e);
    assert s'.requests == s.requests[e.r := RequestOf(s', e.r)];
    WfAfterRequest(s, s', e.r);
  }

  lemma StepKeepsWf(node: Node, s: State, e: Event)
    requires Wf(s) && Enabled(node, s, e)
    ensures Wf(Step(node, s, e))
  {
    if IsRequestEvent(e) {
      RequestStepKeepsWf(node, s, e);
    } else if IsLoopEvent(e) {
      LoopStepKeepsWf(node, s, e);
    }
  }
}
