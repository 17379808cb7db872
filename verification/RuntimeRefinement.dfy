/**
 A pass of the reload loop, a load or a request that nothing interrupts is a run of the machine with the
 outcome that the sequential methods are specified by.
 */
module RuntimeRefinement {
  import opened Base
  import Digests
  import opened Distribution
  import Linker
  import Loader
  import opened Pool
  import opened Reload
  import opened RuntimeInvariant
  import opened RuntimePasses
  import opened RuntimeProtocol
  import opened Sandbox
  import opened Store
  import P = StoreProtocol
  import opened Tenancy

  /** The events are a run from the one state to the other. */
  ghost predicate Leads(node: Node, from: State, es: seq<Event>, to: State) {
    Wf(to) && Legal(node, from, es) && Exec(node, from, es) == to
  }

  lemma StepLeads(node: Node, from: State, es: seq<Event>, s: State, e: Event) returns (es': seq<Event>)
    requires Leads(node, from, es, s) && Enabled(node, s, e)
    ensures Leads(node, from, es', Step(node, s, e))
  {
    es' := es + [e];
    assert es'[..|es'| - 1] == es;
    assert Legal(node, from, es');
    assert Exec(node, from, es') == Step(node, s, e);
  }

  // ----- fetching a component

  /** No fetch is under way, and this process has no put in flight. */
  predicate Quiet(node: Node, s: State) {
    s.fetch.Resting? && P.PhaseOf(s.store, node.pid).Idle?
  }

  /** A put of the store's protocol by this process, from its beginning up to some point, is a run of the machine. */
  lemma {:induction false} PutLeads(node: Node, from: State, es: seq<Event>, s: State, steps: seq<P.Event>)
    returns (es': seq<Event>, s': State)
    requires Leads(node, from, es, s) && s.fetch.Storing?
    requires P.Legal(node.host, P.ONE_EACH, s.store, steps)
    requires P.OnePut(node.host, P.ONE_EACH, s.store, steps, node.pid, s.fetch.blob)
    ensures Leads(node, from, es', s')
    ensures
      var store := P.Exec(node.host, P.ONE_EACH, s.store, steps);
      s' == s.(store := store,
               fetch := AfterPut(s.fetch, P.PhaseOf(store, node.pid), steps[|steps| - 1].Stop?))
    decreases |steps|
  {
    var init, step := steps[..|steps| - 1], steps[|steps| - 1];
    es', s' := es, s;
    if init != [] {
      es', s' := PutLeads(node, from, es, s, init);
    }
    var e := PutStep(step);
    es' := StepLeads(node, from, es', s', e);
    s' := Step(node, s', e);
  }

  /** The blob that was sent is stored, or could not be. */
  lemma StoreLeads(node: Node, from: State, es: seq<Event>, s: State, fault: Fault)
    returns (es': seq<Event>, s': State)
    requires Leads(node, from, es, s) && s.fetch.Storing? && P.PhaseOf(s.store, node.pid).Idle?
    ensures Leads(node, from, es', s') && s' == s.(store := s'.store, fetch := s'.fetch)
    ensures P.PhaseOf(s'.store, node.pid).Idle?
    ensures
      var (r, disk) := PutSpec(node.host, s.store.disk, node.pid, s.fetch.blob, fault);
      && s'.store.disk == disk && (r.Err? ==> r.error == Io)
      && s'.fetch == if r.Err? then Fetched(s.fetch.task, Err(Io)) else Reading(s.fetch.task, s.fetch.digest)
  {
    PutPublishes(node.host, s.store.disk, node.pid, s.fetch.blob, fault);
    var steps := PutIsProtocolRun(node.host, P.ONE_EACH, s.store, node.pid, s.fetch.blob, fault);
    es', s' := PutLeads(node, from, es, s, steps);
  }

  /** The registry answers, and what it sent is stored if need be. */
  lemma ResolveLeads(node: Node, from: State, es: seq<Event>, s: State, answer: Answer, fault: Fault)
    returns (es': seq<Event>, s': State)
    requires Leads(node, from, es, s) && s.fetch.Asking? && P.PhaseOf(s.store, node.pid).Idle?
    ensures Leads(node, from, es', s') && s' == s.(store := s'.store, fetch := s'.fetch)
    ensures P.PhaseOf(s'.store, node.pid).Idle?
    ensures
      var (resolved, disk) := Resolve(node.host, s.store.disk, node.pid, answer, fault);
      && s'.store.disk == disk
      && s'.fetch == (match resolved
                      case Ok(digest) => Reading(s.fetch.task, digest)
                      case Err(e) => Fetched(s.fetch.task, Err(e)))
  {
    es' := StepLeads(node, from, es, s, Answered(answer));
    s' := Step(node, s, Answered(answer));
    if s'.fetch.Storing? {
      es', s' := StoreLeads(node, from, es', s', fault);
    }
  }

  /** A fetch, uninterrupted, is a pull. */
  lemma FetchLeads(node: Node, from: State, es: seq<Event>, s: State, answer: Answer, fault: Fault)
    returns (es': seq<Event>, s': State)
    requires Leads(node, from, es, s) && s.fetch.Asking? && P.PhaseOf(s.store, node.pid).Idle?
    ensures Leads(node, from, es', s') && s' == s.(store := s'.store, fetch := s'.fetch)
    ensures P.PhaseOf(s'.store, node.pid).Idle?
    ensures
      var source := s.fetch.task.Source();
      source.Oci? &&
      var (pulled, disk) :=
        PullSpec(node.host, s.store.disk, node.pid, source.reference, source.pin, answer, fault);
      s'.store.disk == disk && s'.fetch == Fetched(s.fetch.task, pulled)
  {
    es', s' := ResolveLeads(node, from, es, s, answer, fault);
    if s'.fetch.Reading? {
      es', s' := ReadLeads(node, from, es', s');
    }
  }

  lemma ReadLeads(node: Node, from: State, es: seq<Event>, s: State) returns (es': seq<Event>, s': State)
    requires Leads(node, from, es, s) && s.fetch.Reading?
    ensures s.fetch.task.Source().Oci? && Leads(node, from, es', s')
    ensures s' == s.(fetch := AfterRead(node, s.store.disk, s.fetch))
  {
    es' := StepLeads(node, from, es, s, ReadBack);
    s' := Step(node, s, ReadBack);
  }

  // ----- loads

  /** The load of a tenant begins: it is refused, or its artifact is fetched. */
  lemma LoadAskLeads(node: Node, s: State, cfg: TenantConfig, bridged: bool, v: Visit, file: Option<Digests.Blob>)
    returns (es: seq<Event>, s': State)
    requires Wf(s) && Quiet(node, s)
    ensures Leads(node, s, es, s') && s' == s.(store := s'.store, fetch := s'.fetch)
    ensures P.PhaseOf(s'.store, node.pid).Idle?
    ensures
      if !LoadableIdAndLimits(cfg) || !bridged then s' == s
      else
        var (artifact, disk) := Artifact(node, s.store.disk, cfg.component, v.answer, v.fault, file);
        s'.store.disk == disk && s'.fetch == Fetched(Loading(cfg), artifact)
  {
    var e := LoadAsk(cfg, bridged, file);
    es := StepLeads(node, s, [], s, e);
    s' := Step(node, s, e);
    if s'.fetch.Asking? {
      es, s' := FetchLeads(node, s, es, s', v.answer, v.fault);
    }
  }

  lemma LoadDoneLeads(node: Node, from: State, es: seq<Event>, s: State, scratch: MemFs)
    returns (es': seq<Event>, s': State)
    requires Leads(node, from, es, s) && s.fetch.Fetched? && s.fetch.task.Loading?
    requires forall t :: 0 <= t < |s.tenants| ==> s.tenants[t].sandbox.scratch != scratch
    ensures Leads(node, from, es', s')
    ensures
      var cfg, gen := s.fetch.task.cfg, FirstGeneration(node.host, s.fetch.outcome, s.clock);
      && s' == s.(fetch := Resting, tenants := s'.tenants, routes := s'.routes)
      && (gen.Err? ==> s'.tenants == s.tenants && s'.routes == s.routes)
      && (gen.Ok? ==>
            && s'.routes == s.routes[cfg.name := |s.tenants|]
            && s'.tenants == s.tenants + [TenantState(
                 cfg.component, Sandbox(cfg.name, cfg.limits, cfg.config, scratch), Max(cfg.limits.maxInstances, 1),
                 Control(gen.value, 0, s.clock), [], 0, [gen.value], [s.clock])])
  {
    es' := StepLeads(node, from, es, s, LoadDone(scratch));
    s' := Step(node, s, LoadDone(scratch));
  }

  /**
   A load that nothing interrupts is a run of the machine with the outcome of the sequential `LoadTenant`:
   the same directory, and one new tenant with the same first generation, or none.
   */
  lemma LoadIsRun(node: Node, s: State, cfg: TenantConfig, bridged: bool, v: Visit, file: Option<Digests.Blob>,
                  scratch: MemFs)
    returns (es: seq<Event>, s': State)
    requires Wf(s) && Quiet(node, s) && v.compiledAt == s.clock
    requires forall t :: 0 <= t < |s.tenants| ==> s.tenants[t].sandbox.scratch != scratch
    ensures Leads(node, s, es, s') && Quiet(node, s')
    ensures s' == s.(store := s'.store, tenants := s'.tenants, routes := s'.routes)
    ensures
      var (gen, disk) := LoadSpec(node, s.store.disk, cfg, bridged, v, file);
      && s'.store.disk == disk
      && (gen.Err? ==> s'.tenants == s.tenants && s'.routes == s.routes)
      && (gen.Ok? ==>
            && s'.routes == s.routes[cfg.name := |s.tenants|]
            && s'.tenants == s.tenants + [TenantState(
                 cfg.component, Sandbox(cfg.name, cfg.limits, cfg.config, scratch), Max(cfg.limits.maxInstances, 1),
                 Control(gen.value, 0, s.clock), [], 0, [gen.value], [s.clock])])
  {
    es, s' := LoadAskLeads(node, s, cfg, bridged, v, file);
    if LoadableIdAndLimits(cfg) && bridged {
      es, s' := LoadDoneLeads(node, s, es, s', scratch);
    }
  }

  // ----- visits

  /** Only tenant `t`, the loop, the directory, the fetch and the clock may differ, and `t` keeps its identity. */
  ghost predicate OnlyVisited(s: State, s': State, t: nat) {
    && t < |s.tenants| == |s'.tenants|
    && s'.routes == s.routes && s'.requests == s.requests && s'.owner == s.owner
    && s'.tenants[t].source == s.tenants[t].source && s'.tenants[t].pool == s.tenants[t].pool
    && (forall u :: 0 <= u < |s.tenants| && u != t ==> s'.tenants[u] == s.tenants[u])
  }

  /** A state of the visit that `s0` was about to make to tenant `t`. */
  ghost predicate During(node: Node, from: State, es: seq<Event>, s0: State, t: nat, s: State) {
    && Leads(node, from, es, s) && OnlyVisited(s0, s, t)
    && !s.loop.Idle? && s.loop.rest != [] && s.loop.rest[0] == t
  }

  /** One more step of the loop on the tenant. */
  lemma LoopLeads(node: Node, from: State, es: seq<Event>, s0: State, t: nat, s: State, e: Event)
    returns (es': seq<Event>, s': State)
    requires During(node, from, es, s0, t, s) && Enabled(node, s, e) && (e.PollStep? || e.PollPull?)
    ensures Leads(node, from, es', s') && OnlyVisited(s0, s', t)
    ensures s'.clock == s.clock && s'.store == s.store
    ensures s'.fetch == (if e.PollPull? then Resting else s.fetch)
    ensures (s'.tenants[t], s'.loop) == NextVisit(node, s.clock, s.loop, s.tenants[t], Pull(node, s, e))
  {
    s' := Step(node, s, e);
    es' := StepLeads(node, from, es, s, e);
    VisitIsLocal(node, s, e);
    VisitFrame(node, s.clock, s.loop, s.tenants[t], Pull(node, s, e));
  }

  /** Time passes. */
  lemma WaitLeads(node: Node, from: State, es: seq<Event>, s0: State, t: nat, s: State, to: nat)
    returns (es': seq<Event>, s': State)
    requires During(node, from, es, s0, t, s) && s.clock <= to
    ensures During(node, from, es', s0, t, s') && s' == s.(clock := to)
  {
    s' := s.(clock := to);
    es' := StepLeads(node, from, es, s, Tick(to));
  }

  /** The generation is stored. */
  lemma ActivateLeads(node: Node, from: State, es: seq<Event>, s0: State, t: nat, s: State)
    returns (es': seq<Event>, s': State)
    requires During(node, from, es, s0, t, s) && s.loop.Ready?
    ensures During(node, from, es', s0, t, s') && s'.clock == s.clock && s'.store == s.store && s'.fetch == s.fetch
    ensures s'.loop == Stamping(s.loop.now, s.loop.rest)
    ensures s'.tenants[t].ctl == s.tenants[t].ctl.(active := s.loop.gen)
  {
    es', s' := LoopLeads(node, from, es, s0, t, s, PollStep);
  }

  /** The time of the swap is stored, then the failure counter is cleared. */
  lemma StampLeads(node: Node, from: State, es: seq<Event>, s0: State, t: nat, s: State)
    returns (es': seq<Event>, s': State)
    requires During(node, from, es, s0, t, s) && s.loop.Stamping?
    ensures During(node, from, es', s0, t, s') && s'.clock == s.clock && s'.store == s.store && s'.fetch == s.fetch
    ensures s'.loop == Finishing(s.loop.now, s.loop.rest)
    ensures s'.tenants[t].ctl == s.tenants[t].ctl.(lastSwap := s.clock, failures := 0)
  {
    es', s' := LoopLeads(node, from, es, s0, t, s, PollStep);
    es', s' := LoopLeads(node, from, es', s0, t, s', PollStep);
  }

  /** The visit ends in success. */
  lemma FinishLeads(node: Node, from: State, es: seq<Event>, s0: State, t: nat, s: State)
    returns (es': seq<Event>, s': State)
    requires During(node, from, es, s0, t, s) && s.loop.Finishing?
    ensures Leads(node, from, es', s') && OnlyVisited(s0, s', t)
    ensures s'.clock == s.clock && s'.store == s.store && s'.fetch == s.fetch
    ensures s'.loop == Scanning(s.loop.now, s.loop.rest[1..])
    ensures s'.tenants[t].ctl == s.tenants[t].ctl.(failures := 0)
  {
    es', s' := LoopLeads(node, from, es, s0, t, s, PollStep);
  }

  /** From a ready generation to the end of the visit. */
  lemma SwapLeads(node: Node, from: State, es: seq<Event>, s0: State, t: nat, s: State, stampedAt: nat)
    returns (es': seq<Event>, s': State)
    requires During(node, from, es, s0, t, s) && s.loop.Ready? && s.clock <= stampedAt
    ensures Leads(node, from, es', s') && OnlyVisited(s0, s', t)
    ensures s'.store == s.store && s'.fetch == s.fetch && s'.clock == stampedAt
    ensures s'.loop == Scanning(s.loop.now, s.loop.rest[1..])
    ensures s'.tenants[t].ctl == Control(s.loop.gen, 0, stampedAt)
  {
    es', s' := ActivateLeads(node, from, es, s0, t, s);
    es', s' := WaitLeads(node, from, es', s0, t, s', stampedAt);
    es', s' := StampLeads(node, from, es', s0, t, s');
    es', s' := FinishLeads(node, from, es', s0, t, s');
  }

  /** A pulled artifact is old, does not compile, or is ready to be swapped in. */
  lemma CompileLeads(node: Node, from: State, es: seq<Event>, s0: State, t: nat, s: State)
    returns (es': seq<Event>, s': State)
    requires During(node, from, es, s0, t, s) && s.loop.Pulled?
    ensures Leads(node, from, es', s') && OnlyVisited(s0, s', t)
    ensures s'.clock == s.clock && s'.store == s.store && s'.fetch == s.fetch
    ensures s'.tenants[t].ctl == s.tenants[t].ctl
    ensures
      var made := MakeGeneration(node.host, s.loop.loaded, s.clock);
      s'.loop ==
        if s.loop.loaded.digest == s.tenants[t].ctl.active.digest then Finishing(s.loop.now, s.loop.rest)
        else if made.Ok? then Ready(s.loop.now, s.loop.rest, made.value) else Idle
  {
    es', s' := LoopLeads(node, from, es, s0, t, s, PollStep);
  }

  /** From the check of a pulled artifact to the end of the visit. */
  lemma SettleLeads(node: Node, from: State, es: seq<Event>, s0: State, t: nat, s: State, v: Visit)
    returns (es': seq<Event>, s': State)
    requires During(node, from, es, s0, t, s) && s.loop.Pulled? && Loader.EnsureContract(s.loop.loaded).Ok?
    requires s.clock <= v.compiledAt <= v.stampedAt
    ensures Leads(node, from, es', s') && OnlyVisited(s0, s', t)
    ensures s'.store == s.store && s'.fetch == s.fetch && s'.clock <= v.stampedAt
    ensures
      var (ctl, verdict) := Settle(node, s.tenants[t].ctl, Ok(s.loop.loaded), v.compiledAt, v.stampedAt);
      && s'.tenants[t].ctl == ctl
      && s'.loop == (if verdict.Ok? then Scanning(s.loop.now, s.loop.rest[1..]) else Idle)
  {
    es', s' := WaitLeads(node, from, es, s0, t, s, v.compiledAt);
    es', s' := CompileLeads(node, from, es', s0, t, s');
    if s'.loop.Finishing? {
      es', s' := FinishLeads(node, from, es', s0, t, s');
    } else if s'.loop.Ready? {
      es', s' := SwapLeads(node, from, es', s0, t, s', v.stampedAt);
    }
  }

  /** The pull of a visit begins. */
  lemma AskLeads(node: Node, from: State, es: seq<Event>, s: State) returns (es': seq<Event>, s': State)
    requires Leads(node, from, es, s) && s.loop.Pulling? && s.fetch.Resting?
    ensures Leads(node, from, es', s')
    ensures s' == s.(fetch := Asking(Polling(s.tenants[s.loop.rest[0]].source)))
  {
    es' := StepLeads(node, from, es, s, PollAsk);
    s' := Step(node, s, PollAsk);
  }

  /** The pull of a visit. */
  lemma PullLeads(node: Node, from: State, es: seq<Event>, s0: State, t: nat, s: State, v: Visit)
    returns (es': seq<Event>, s': State)
    requires During(node, from, es, s0, t, s) && s.loop.Pulling? && Quiet(node, s)
    ensures Leads(node, from, es', s') && OnlyVisited(s0, s', t) && s'.clock == s.clock && Quiet(node, s')
    ensures
      var source := s.tenants[t].source;
      source.Oci? &&
      var (pulled, disk) :=
        PullSpec(node.host, s.store.disk, node.pid, source.reference, source.pin, v.answer, v.fault);
      && s'.store.disk == disk
      && (s'.tenants[t], s'.loop) == AfterPull(s.loop, s.tenants[t], pulled)
  {
    es', s' := AskLeads(node, from, es, s);
    es', s' := FetchLeads(node, from, es', s', v.answer, v.fault);
    es', s' := LoopLeads(node, from, es', s0, t, s', PollPull);
  }

  /** A visit that is not skipped begins by pulling; any other only moves the loop on. */
  lemma ScanLeads(node: Node, from: State, es: seq<Event>, s: State) returns (es': seq<Event>, s': State)
    requires Leads(node, from, es, s) && s.loop.Scanning? && s.loop.rest != []
    ensures Leads(node, from, es', s') && OnlyVisited(s, s', s.loop.rest[0])
    ensures s'.clock == s.clock && s'.store == s.store && s'.fetch == s.fetch
    ensures
      var t := s.loop.rest[0];
      && s'.tenants[t].ctl == s.tenants[t].ctl
      && s'.loop == (if Skipped(node, s.loop.now, TrackedAt(s, t)) then Scanning(s.loop.now, s.loop.rest[1..])
                     else Pulling(s.loop.now, s.loop.rest))
  {
    es', s' := LoopLeads(node, from, es, s, s.loop.rest[0], s, PollStep);
  }

  /** One visit, uninterrupted. */
  lemma VisitLeads(node: Node, from: State, es: seq<Event>, s: State, v: Visit)
    returns (es': seq<Event>, s': State)
    requires Leads(node, from, es, s) && s.loop.Scanning? && s.loop.rest != [] && Quiet(node, s)
    requires s.clock <= v.compiledAt <= v.stampedAt
    ensures Leads(node, from, es', s') && OnlyVisited(s, s', s.loop.rest[0]) && s'.clock <= v.stampedAt
    ensures Quiet(node, s')
    ensures
      var t := s.loop.rest[0];
      var (ctl, disk, verdict) := VisitSpec(node, s.loop.now, s.store.disk, TrackedAt(s, t), v);
      && s'.tenants[t].ctl == ctl && s'.store.disk == disk
      && s'.loop == (if verdict.Ok? then Scanning(s.loop.now, s.loop.rest[1..]) else Idle)
  {
    var t := s.loop.rest[0];
    es', s' := ScanLeads(node, from, es, s);
    if s'.loop.Pulling? {
      es', s' := PullLeads(node, from, es', s, t, s', v);
      if s'.loop.Pulled? {
        es', s' := SettleLeads(node, from, es', s, t, s', v);
      }
    }
  }

  // ----- whole passes

  /** The clock readings of the visits follow each other. */
  predicate InOrder(clock: nat, vs: seq<Visit>) {
    && (forall i :: 0 <= i < |vs| ==> clock <= vs[i].compiledAt <= vs[i].stampedAt)
    && (forall i, j :: 0 <= i < j < |vs| ==> vs[i].stampedAt <= vs[j].compiledAt)
  }

  /** A pass from `s` that visits `order`, and where it is now. */
  ghost predicate PassFrom(node: Node, s: State, order: seq<nat>, vs: seq<Visit>) {
    && Wf(s) && Quiet(node, s) && s.loop.Scanning? && s.loop.rest == order
    && |vs| == |order| && InOrder(s.clock, vs)
    && forall i :: 0 <= i < |order| ==> order[i] < |s.tenants|
  }

  /** Nothing but tenants' control records, the loop, the directory and the clock changed. */
  predicate RequestsUntouched(s: State, s': State) {
    && |s'.tenants| == |s.tenants|
    && s'.requests == s.requests && s'.routes == s.routes && s'.owner == s.owner
  }

  /** What holds of the machine when the first `k` visits of the pass are done. */
  ghost predicate PassAt(node: Node, s: State, order: seq<nat>, vs: seq<Visit>, k: nat, s': State)
    requires PassFrom(node, s, order, vs)
  {
    var now, ts := s.loop.now, AllTracked(s, order);
    && RequestsUntouched(s, s') && PassPrefix(node, now, s.store.disk, ts, vs, k, AllControls(s', order), s'.store.disk)
    && s'.loop == Scanning(now, order[k..]) && Quiet(node, s')
    && (k < |vs| ==> s'.clock <= vs[k].compiledAt)
    && (forall i :: k <= i < |order| ==> s'.tenants[order[i]] == s.tenants[order[i]])
  }

  /** The pass ended after `k` visits without an error. */
  ghost predicate PassOver(node: Node, s: State, order: seq<nat>, vs: seq<Visit>, k: nat, s': State, r: Result<Unit>)
    requires PassFrom(node, s, order, vs)
  {
    && RequestsUntouched(s, s') && s'.loop.Idle?
    && PassOutcome(node, s.loop.now, s.store.disk, AllTracked(s, order), vs, k, AllControls(s', order),
                   s'.store.disk, r)
  }

  /** After the visit at position `k`, the pass is one further, or it has ended with the visit's error. */
  lemma PassProgress(node: Node, s: State, order: seq<nat>, vs: seq<Visit>, k: nat, s1: State, s': State)
    requires PassFrom(node, s, order, vs) && k < |vs| && PassAt(node, s, order, vs, k, s1)
    requires OnlyVisited(s1, s', order[k]) && s'.clock <= vs[k].stampedAt && Quiet(node, s')
    requires
      var (ctl, disk, verdict) := VisitAt(node, s.loop.now, s.store.disk, AllTracked(s, order), vs, k);
      && s'.tenants[order[k]].ctl == ctl && s'.store.disk == disk
      && s'.loop == (if verdict.Ok? then Scanning(s.loop.now, order[k + 1..]) else Idle)
    ensures
      var verdict := VisitAt(node, s.loop.now, s.store.disk, AllTracked(s, order), vs, k).2;
      if verdict.Ok? then PassAt(node, s, order, vs, k + 1, s') else PassOver(node, s, order, vs, k, s', verdict)
  {
    forall i | 0 <= i < |order| && i != k ensures s'.tenants[order[i]] == s1.tenants[order[i]] {
      assert order[i] != order[k];
    }
    var visited := VisitAt(node, s.loop.now, s.store.disk, AllTracked(s, order), vs, k);
    assert AllControls(s', order) == AllControls(s1, order)[k := visited.0];
    PassPrefixStep(node, s.loop.now, s.store.disk, AllTracked(s, order), vs, k, AllControls(s1, order),
                   s1.store.disk, visited);
  }

  /** One more visit of a pass. */
  lemma PassStep(node: Node, s: State, order: seq<nat>, vs: seq<Visit>, k: nat, es: seq<Event>, s1: State)
    returns (es': seq<Event>, s': State)
    requires PassFrom(node, s, order, vs) && k < |vs| && Leads(node, s, es, s1) && PassAt(node, s, order, vs, k, s1)
    ensures Leads(node, s, es', s')
    ensures
      var verdict := VisitAt(node, s.loop.now, s.store.disk, AllTracked(s, order), vs, k).2;
      if verdict.Ok? then PassAt(node, s, order, vs, k + 1, s') else PassOver(node, s, order, vs, k, s', verdict)
  {
    assert order[k..][0] == order[k] && order[k..][1..] == order[k + 1..];
    es', s' := VisitLeads(node, s, es, s1, vs[k]);
    assert TrackedAt(s1, order[k]) == AllTracked(s, order)[k];
    PassProgress(node, s, order, vs, k, s1, s');
  }

  lemma CloseLeads(node: Node, from: State, es: seq<Event>, s: State) returns (es': seq<Event>, s': State)
    requires Leads(node, from, es, s) && s.loop.Scanning? && s.loop.rest == []
    ensures Leads(node, from, es', s') && s' == s.(loop := Idle)
  {
    es' := StepLeads(node, from, es, s, PollStep);
    s' := s.(loop := Idle);
  }

  /** With every visit done, the loop goes idle. */
  lemma PassCloses(node: Node, s: State, order: seq<nat>, vs: seq<Visit>, es: seq<Event>, s1: State)
    returns (es': seq<Event>, s': State)
    requires PassFrom(node, s, order, vs) && Leads(node, s, es, s1) && PassAt(node, s, order, vs, |vs|, s1)
    ensures Leads(node, s, es', s') && PassOver(node, s, order, vs, |vs|, s', Ok(Unit))
  {
    es', s' := CloseLeads(node, s, es, s1);
    assert AllControls(s', order) == AllControls(s1, order);
  }

  /**
   For any registry answers, faults and clock readings in order, the machine has a run from the start of a
   pass to its end, in which only the loop acts, and whose outcome is the fold's: a prefix of the tenants
   took their own steps, the first error ended the pass, everything after it is untouched.
   */
  lemma PassIsRun(node: Node, s: State, order: seq<nat>, vs: seq<Visit>)
    returns (k: nat, es: seq<Event>, s': State, r: Result<Unit>)
    requires PassFrom(node, s, order, vs)
    ensures Leads(node, s, es, s') && PassOver(node, s, order, vs, k, s', r)
  {
    k, es, s' := 0, [], s;
    assert order[0..] == order;
    while k < |vs|
      invariant k <= |vs| && Leads(node, s, es, s') && PassAt(node, s, order, vs, k, s')
    {
      r := VisitAt(node, s.loop.now, s.store.disk, AllTracked(s, order), vs, k).2;
      es, s' := PassStep(node, s, order, vs, k, es, s');
      if r.Err? {
        return;
      }
      k := k + 1;
    }
    es, s' := PassCloses(node, s, order, vs, es, s');
    r := Ok(Unit);
  }

  // ----- requests

  /** The instance the machine would build now for the tenant. */
  function FreshFor(s: State, t: nat): Prepared
    requires t < |s.tenants|
  {
    var ts := s.tenants[t];
    Prepared(ts.ctl.active.loaded.digest, Linker.NewHostCtx(ts.sandbox), ts.ctl.active.compiled, s.nextSerial)
  }

  /** A request finds its tenant and takes its snapshot. */
  lemma ArriveLeads(node: Node, from: State, es: seq<Event>, s: State, r: nat, id: string)
    returns (es': seq<Event>, s': State)
    requires Leads(node, from, es, s) && r !in s.requests && id in s.routes
    ensures Leads(node, from, es', s')
    ensures s' == PutRequest(s, r, Snapped(s.routes[id], s.tenants[s.routes[id]].ctl.active))
  {
    es' := StepLeads(node, from, es, s, Lookup(r, id));
    s' := Step(node, s, Lookup(r, id));
    es' := StepLeads(node, from, es', s', Snapshot(r));
    s' := Step(node, s', Snapshot(r));
    assert s'.requests == s.requests[r := RequestOf(s', r)];
  }

  lemma FailLeads(node: Node, from: State, es: seq<Event>, s: State, r: nat) returns (es': seq<Event>, s': State)
    requires Leads(node, from, es, s) && r in s.requests
    requires s.requests[r].Found? || s.requests[r].Snapped? || Holding(s.requests[r])
    ensures Leads(node, from, es', s') && s'.requests == s.requests[r := Gone]
    ensures s' == s.(requests := s'.requests, owner := s'.owner)
  {
    es' := StepLeads(node, from, es, s, Abort(r));
    s' := Step(node, s, Abort(r));
  }

  lemma ReturnLeads(node: Node, from: State, es: seq<Event>, s: State, r: nat) returns (es': seq<Event>, s': State)
    requires Leads(node, from, es, s) && RequestOf(s, r).Calling?
    ensures Leads(node, from, es', s')
    ensures
      var q := s.requests[r];
      s' == PutRequest(s, r, Returned(q.t, q.gen, q.inst))
  {
    es' := StepLeads(node, from, es, s, Return(r));
    s' := Step(node, s, Return(r));
  }

  lemma ReleaseLeads(node: Node, from: State, es: seq<Event>, s: State, r: nat) returns (es': seq<Event>, s': State)
    requires Leads(node, from, es, s) && RequestOf(s, r).Returned?
    ensures Leads(node, from, es', s') && s.requests[r].t < |s.tenants| && s' == ReleaseStep(s, r)
  {
    es' := StepLeads(node, from, es, s, Release(r));
    s' := Step(node, s, Release(r));
  }

  lemma CountLeads(node: Node, from: State, es: seq<Event>, s: State, r: nat) returns (es': seq<Event>, s': State)
    requires Leads(node, from, es, s) && RequestOf(s, r).Released?
    ensures Leads(node, from, es', s') && s.requests[r].t < |s.tenants| && s' == CountStep(s, r)
  {
    es' := StepLeads(node, from, es, s, Count(r));
    s' := Step(node, s, Count(r));
  }

  /** A call returns, its instance is released and the invocation is counted. */
  lemma CompleteLeads(node: Node, from: State, es: seq<Event>, s: State, r: nat) returns (es': seq<Event>, s': State)
    requires Leads(node, from, es, s) && RequestOf(s, r).Calling?
    ensures Leads(node, from, es', s') && s.requests[r].t < |s.tenants|
    ensures
      var q := s.requests[r];
      var ts := s.tenants[q.t];
      && s'.requests == s.requests[r := Served(q.t, q.gen, q.inst)]
      && s'.tenants == s.tenants[q.t := ts.(pool := AfterRelease(ts.pool, ts.cap, q.inst),
                                            invocations := ts.invocations + 1)]
      && s' == s.(requests := s'.requests, tenants := s'.tenants, owner := s'.owner)
  {
    es', s' := ReturnLeads(node, from, es, s, r);
    es', s' := ReleaseLeads(node, from, es', s', r);
    es', s' := CountLeads(node, from, es', s', r);
  }

  /** The instance an acquire hands to the request, if any. */
  function Acquired(s: State, q: Request, instantiates: bool): Option<Prepared>
    requires q.Snapped? && q.t < |s.tenants|
  {
    var ts, digest := s.tenants[q.t], q.gen.loaded.digest;
    var k := StalePrefix(ts.pool, digest);
    if k < |ts.pool| then Some(ts.pool[k])
    else if instantiates then Some(Prepared(digest, Linker.NewHostCtx(ts.sandbox), q.gen.compiled, s.nextSerial))
    else None
  }

  /** What an acquire changes, whichever way it ends. */
  ghost predicate AcquiredAs(s: State, s': State, r: nat, instantiates: bool) {
    && RequestOf(s, r).Snapped? && s.requests[r].t < |s.tenants|
    && var q := s.requests[r];
       var ts, got := s.tenants[q.t], Acquired(s, q, instantiates);
       && s'.tenants == s.tenants[q.t := ts.(pool := AfterAcquire(ts.pool, q.gen.loaded.digest))]
       && s'.requests == s.requests[r := if got.Some? then Calling(q.t, q.gen, got.value) else Gone]
       && s' == s.(tenants := s'.tenants, requests := s'.requests, owner := s'.owner, nextSerial := s'.nextSerial)
  }

  lemma AcquireLeads(node: Node, from: State, es: seq<Event>, s: State, r: nat, instantiates: bool)
    returns (es': seq<Event>, s': State)
    requires Leads(node, from, es, s) && RequestOf(s, r).Snapped?
    requires instantiates ==> HasRoom(node, s, s.requests[r].t, s.requests[r].gen.loaded.digest)
    ensures Leads(node, from, es', s') && AcquiredAs(s, s', r, instantiates)
    ensures s' == AcquireStep(s, r, instantiates)
  {
    es' := StepLeads(node, from, es, s, Acquire(r, instantiates));
    s' := Step(node, s, Acquire(r, instantiates));
  }

  /** A request of tenant `t` is over: the outcome, the pool it leaves and the count are those of `Serve`. */
  ghost predicate OverAs(s: State, s': State, r: nat, t: nat, outcome: (Result<Prepared>, seq<Prepared>)) {
    && t < |s.tenants|
    && var ts := s.tenants[t];
       && s'.tenants == s.tenants[t := ts.(pool := outcome.1,
                                           invocations := ts.invocations + if outcome.0.Ok? then 1 else 0)]
       && s'.requests == s.requests[r := if outcome.0.Ok? then Served(t, ts.ctl.active, outcome.0.value) else Gone]
       && s' == s.(tenants := s'.tenants, requests := s'.requests, owner := s'.owner, nextSerial := s'.nextSerial)
  }

  /** What the call of a request that holds an instance changes, up to the end of the request. */
  ghost predicate CalledAs(s: State, s': State, r: nat, call: CallOutcome) {
    && RequestOf(s, r).Calling? && s.requests[r].t < |s.tenants|
    && var q := s.requests[r];
       var ts := s.tenants[q.t];
       && s'.requests == s.requests[r := if call.Returns? then Served(q.t, q.gen, q.inst) else Gone]
       && s'.tenants == s.tenants[q.t := if call.Returns? then
                                           ts.(pool := AfterRelease(ts.pool, ts.cap, q.inst),
                                               invocations := ts.invocations + 1)
                                         else ts]
       && s' == s.(requests := s'.requests, tenants := s'.tenants, owner := s'.owner)
  }

  lemma CallLeads(node: Node, from: State, es: seq<Event>, s: State, r: nat, call: CallOutcome)
    returns (es': seq<Event>, s': State)
    requires Leads(node, from, es, s) && RequestOf(s, r).Calling?
    ensures Leads(node, from, es', s') && CalledAs(s, s', r, call)
  {
    if call.Returns? {
      es', s' := CompleteLeads(node, from, es, s, r);
    } else {
      es', s' := FailLeads(node, from, es, s, r);
    }
  }

  /** The effects of the snapshot, the acquire and the call together are those of `Serve`. */
  lemma ServeOutcome(s: State, s1: State, s2: State, s': State, r: nat, t: nat, instantiates: bool, call: CallOutcome)
    requires t < |s.tenants| && s1 == PutRequest(s, r, Snapped(t, s.tenants[t].ctl.active))
    requires AcquiredAs(s1, s2, r, instantiates)
    requires if RequestOf(s2, r).Calling? then CalledAs(s2, s', r, call) else s' == s2
    ensures OverAs(s, s', r, t, Serve(s.tenants[t].pool, s.tenants[t].cap, FreshFor(s, t), Ok(Unit),
                                  instantiates, call))
  {
    assert s'.requests == s.requests[r := RequestOf(s', r)];
    assert s'.tenants == s.tenants[t := s'.tenants[t]];
  }

  /** An acquire, and the call if it succeeds. */
  lemma ServeLeads(node: Node, from: State, es: seq<Event>, s: State, r: nat, instantiates: bool, call: CallOutcome)
    returns (es': seq<Event>, s': State, acquired: State)
    requires Leads(node, from, es, s) && RequestOf(s, r).Snapped?
    requires instantiates ==> HasRoom(node, s, s.requests[r].t, s.requests[r].gen.loaded.digest)
    ensures Leads(node, from, es', s') && AcquiredAs(s, acquired, r, instantiates)
    ensures if RequestOf(acquired, r).Calling? then CalledAs(acquired, s', r, call) else s' == acquired
  {
    es', acquired := AcquireLeads(node, from, es, s, r, instantiates);
    s' := acquired;
    if RequestOf(acquired, r).Calling? {
      es', s' := CallLeads(node, from, es', acquired, r, call);
    }
  }

  lemma MissLeads(node: Node, s: State, r: nat, id: string) returns (es: seq<Event>, s': State)
    requires Wf(s) && r !in s.requests && id !in s.routes
    ensures Leads(node, s, es, s') && s' == s.(requests := s.requests[r := Gone])
  {
    es := StepLeads(node, s, [], s, Lookup(r, id));
    s' := Step(node, s, Lookup(r, id));
  }

  /**
   A request that nothing interrupts is a run of the machine with the outcome of the sequential `Invoke`:
   the same instance serves it or the same failure ends it, and pool and counter are left the same. An
   instance can be built only if the engine has room for it.
   */
  lemma RequestIsRun(node: Node, s: State, r: nat, id: string, ready: Result<Unit>, instantiates: bool,
                     call: CallOutcome)
    returns (es: seq<Event>, s': State)
    requires Wf(s) && r !in s.requests
    requires id in s.routes && instantiates ==>
      HasRoom(node, s, s.routes[id], s.tenants[s.routes[id]].ctl.active.loaded.digest)
    ensures Leads(node, s, es, s')
    ensures
      if id !in s.routes then s' == s.(requests := s.requests[r := Gone])
      else
        var t := s.routes[id];
        && t < |s.tenants|
        && OverAs(s, s', r, t, Serve(s.tenants[t].pool, s.tenants[t].cap, FreshFor(s, t),
                                     ready, instantiates, call))
  {
    if id !in s.routes {
      es, s' := MissLeads(node, s, r, id);
    } else {
      var snapped, acquired;
      es, snapped := ArriveLeads(node, s, [], s, r, id);
      if ready.Ok? {
        es, s', acquired := ServeLeads(node, s, es, snapped, r, instantiates, call);
        ServeOutcome(s, snapped, acquired, s', r, s.routes[id], instantiates, call);
      } else {
        es, s' := FailLeads(node, s, es, snapped, r);
        assert s'.requests == s.requests[r := Gone];
        assert s'.tenants == s.tenants;
      }
    }
  }
}
