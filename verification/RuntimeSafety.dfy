/** What holds in every run of the runtime. */
module RuntimeSafety {
  import opened Base
  import opened Digests
  import opened Disk
  import Linker
  import opened Loader
  import opened Pool
  import opened Reload
  import opened RuntimeHistory
  import opened RuntimeInvariant
  import opened RuntimeOwnership
  import opened RuntimeProtocol

  ghost predicate Inv(node: Node, s: State) {
    Wf(s) && Sound(node, s) && Serving(s) && Owned(s) && Timely(node, s) && Tallied(s)
  }

  lemma StepKeeps(node: Node, s: State, e: Event)
    requires Inv(node, s) && Enabled(node, s, e)
    ensures Inv(node, Step(node, s, e))
  {
    StepKeepsSound(node, s, e);
    StepKeepsServing(node, s, e);
    StepKeepsOwned(node, s, e);
    StepKeepsTimely(node, s, e);
    StepKeepsTallied(node, s, e);
  }

  lemma {:induction false} RunKeeps(node: Node, s: State, es: seq<Event>)
    requires Inv(node, s) && Legal(node, s, es)
    ensures Inv(node, Exec(node, s, es))
    decreases |es|
  {
    if es != [] {
      RunKeeps(node, s, es[..|es| - 1]);
      StepKeeps(node, Exec(node, s, es[..|es| - 1]), es[|es| - 1]);
    }
  }

  lemma StartIsOwned()
    ensures Owned(START)
  {
    forall p: Place | !p.Dropped? ensures Contents(START, p) == RecordedAt(START.owner, p) {
      assert START.owner == map[];
      assert Contents(START, p) == {} && RecordedAt(START.owner, p) == {};
    }
  }

  lemma Reachable(node: Node, es: seq<Event>)
    requires Legal(node, START, es)
    ensures Inv(node, Exec(node, START, es))
  {
    StartIsOwned();
    RunKeeps(node, START, es);
  }

  // ----- active components

  lemma TenantIsSound(node: Node, es: seq<Event>, t: nat)
    requires Legal(node, START, es) && t < |Exec(node, START, es).tenants|
    ensures GenerationsSound(node, Exec(node, START, es).tenants[t])
  {
    Reachable(node, es);
  }

  /**
   For arbitrary registry answers, other processes at work in the cache directory, and interleavings: every
   tenant's active component has the digest of its bytes, was compiled from them, satisfies the contract
   and respects the tenant's pin.
   */
  lemma ActiveComponentsAreSound(node: Node, es: seq<Event>, t: nat)
    requires Legal(node, START, es) && t < |Exec(node, START, es).tenants|
    ensures
      var ts := Exec(node, START, es).tenants[t];
      && ts.ctl.active.digest == DigestOf(node.host, ts.ctl.active.loaded.bytes)
      && ts.ctl.active.compiled == Component(ts.ctl.active.loaded.bytes)
      && node.host.compiles(ts.ctl.active.loaded.bytes)
      && ServesGuests(ts.ctl.active.loaded.exports)
      && WellLoaded(node.host, ts.ctl.active.loaded)
      && RespectsPin(ts.source, ts.ctl.active.digest)
  {
    TenantIsSound(node, es, t);
    ContractMeaning(Exec(node, START, es).tenants[t].ctl.active.loaded);
  }

  /**
   At every point of every run the cache hands out, under any digest, only bytes that have it: whatever this
   process and the others were doing in the directory, and whatever the registry answered.
   */
  lemma CacheIsAuthentic(node: Node, es: seq<Event>, digest: string)
    requires Legal(node, START, es)
    ensures
      var disk := Exec(node, START, es).store.disk;
      DiskOk(node.host, disk) && (Get(disk, digest).Ok? ==> DigestOf(node.host, Get(disk, digest).value) == digest)
  {
    Reachable(node, es);
    ReadsAreAuthentic(node.host, Exec(node, START, es).store.disk, digest);
  }

  lemma {:induction false} RunGrows(node: Node, s: State, es: seq<Event>, t: nat)
    requires Legal(node, s, es) && t < |s.tenants|
    ensures t < |Exec(node, s, es).tenants|
    ensures Grown(s.tenants[t], Exec(node, s, es).tenants[t])
    decreases |es|
  {
    if es != [] {
      var init := es[..|es| - 1];
      RunGrows(node, s, init, t);
      StepGrows(node, Exec(node, s, init), es[|es| - 1]);
    }
  }

  lemma PinnedStaysPut(node: Node, was: TenantState, now: TenantState)
    requires GenerationsSound(node, was) && GenerationsSound(node, now) && Grown(was, now) && Pinned(was.source)
    ensures now.ctl.active == was.ctl.active && |now.generations| == 1
    ensures now.ctl.active.digest == now.source.pin.value
  {
    assert now.generations[0] == was.generations[0];
    assert RespectsPin(now.source, now.generations[0].digest);
  }

  /**
   However its tag moves, a pinned tenant that is running after the events `past` runs its pin, and after
   any further events `es` it still runs the same generation, its first.
   */
  lemma PinnedTenantsNeverSwap(node: Node, past: seq<Event>, es: seq<Event>, t: nat)
    requires Legal(node, START, past) && Legal(node, Exec(node, START, past), es)
    requires t < |Exec(node, START, past).tenants| && Pinned(Exec(node, START, past).tenants[t].source)
    ensures
      var s := Exec(node, START, past);
      && t < |Exec(node, s, es).tenants|
      && var was, now := s.tenants[t], Exec(node, s, es).tenants[t];
         && now.ctl.active == was.ctl.active && |now.generations| == 1
         && now.ctl.active.digest == was.source.pin.value
  {
    Reachable(node, past);
    var s := Exec(node, START, past);
    RunGrows(node, s, es, t);
    RunKeeps(node, s, es);
    PinnedStaysPut(node, s.tenants[t], Exec(node, s, es).tenants[t]);
  }

  // ----- serving

  /** The request has snapshotted a generation. */
  predicate HasGeneration(q: Request) {
    !q.Gone? && !q.Found?
  }

  lemma GenerationKeptByActor(node: Node, s: State, e: Event)
    requires Wf(s) && Enabled(node, s, e) && IsRequestEvent(e) && !e.Snapshot?
    requires HasGeneration(RequestOf(Step(node, s, e), e.r))
    ensures
      var q, q' := RequestOf(s, e.r), RequestOf(Step(node, s, e), e.r);
      HasGeneration(q) && q.t == q'.t && q.gen == q'.gen
  {
  }

  /** Requests move by their own steps only. */
  lemma OtherRequestsStay(node: Node, s: State, e: Event, r: nat)
    requires Wf(s) && Enabled(node, s, e) && !(IsRequestEvent(e) && e.r == r)
    ensures RequestOf(Step(node, s, e), r) == RequestOf(s, r)
  {
    if IsRequestEvent(e) {
      RequestStepIsLocal(node, s, e);
    } else if IsVisit(s, e) {
      VisitIsLocal(node, s, e);
    } else {
      OtherStepShape(node, s, e);
    }
  }

  lemma GenerationKept(node: Node, s: State, e: Event, r: nat)
    requires Wf(s) && Enabled(node, s, e) && !Snapshots(e, r)
    requires HasGeneration(RequestOf(Step(node, s, e), r))
    ensures
      var q, q' := RequestOf(s, r), RequestOf(Step(node, s, e), r);
      HasGeneration(q) && q.t == q'.t && q.gen == q'.gen
  {
    if IsRequestEvent(e) && e.r == r {
      GenerationKeptByActor(node, s, e);
    } else {
      OtherRequestsStay(node, s, e, r);
    }
  }

  predicate Snapshots(e: Event, r: nat) {
    e.Snapshot? && e.r == r
  }

  lemma SnapshotTakesActive(node: Node, s: State, e: Event, r: nat)
    requires Wf(s) && Enabled(node, s, e) && Snapshots(e, r)
    ensures
      var q := RequestOf(Step(node, s, e), r);
      HasGeneration(q) && q.t < |s.tenants| && q.gen == s.tenants[q.t].ctl.active
  {
  }

  lemma SnapshotAtEnd(node: Node, es: seq<Event>, r: nat)
    requires Legal(node, START, es) && es != [] && Snapshots(es[|es| - 1], r)
    ensures
      var q, before := RequestOf(Exec(node, START, es), r), Exec(node, START, es[..|es| - 1]);
      HasGeneration(q) && q.t < |before.tenants| && before.tenants[q.t].ctl.active == q.gen
  {
    SnapshotTakesActive(node, Exec(node, START, es[..|es| - 1]), es[|es| - 1], r);
  }

  lemma GenerationKeptAtEnd(node: Node, es: seq<Event>, r: nat)
    requires Legal(node, START, es) && es != [] && !Snapshots(es[|es| - 1], r)
    requires HasGeneration(RequestOf(Exec(node, START, es), r))
    ensures
      var q, q' := RequestOf(Exec(node, START, es[..|es| - 1]), r), RequestOf(Exec(node, START, es), r);
      HasGeneration(q) && q.t == q'.t && q.gen == q'.gen
  {
    GenerationKept(node, Exec(node, START, es[..|es| - 1]), es[|es| - 1], r);
  }

  /** The generation a request carries was active in its tenant when the request took its snapshot. */
  lemma {:induction false} SnapshotWasActive(node: Node, es: seq<Event>, r: nat) returns (i: nat)
    requires Legal(node, START, es) && HasGeneration(RequestOf(Exec(node, START, es), r))
    ensures i < |es| && Snapshots(es[i], r) && Legal(node, START, es[..i])
    ensures
      var q, before := RequestOf(Exec(node, START, es), r), Exec(node, START, es[..i]);
      q.t < |before.tenants| && before.tenants[q.t].ctl.active == q.gen
    decreases |es|
  {
    if Snapshots(es[|es| - 1], r) {
      i := |es| - 1;
      SnapshotAtEnd(node, es, r);
    } else {
      GenerationKeptAtEnd(node, es, r);
      i := SnapshotWasActive(node, es[..|es| - 1], r);
      assert es[..|es| - 1][..i] == es[..i];
    }
  }

  /** The bytes of everything a tenant has run. */
  function BytesRun(ts: TenantState): set<Blob> {
    set g | g in ts.generations :: g.loaded.bytes
  }

  /**
   In every interleaving, a request that was served was served by an instance built for its own tenant's
   sandbox from bytes with the digest of the generation it snapshotted; and from exactly those bytes,
   unless two generations of the tenant collide under SHA-256. This covers a digest that goes away and
   comes back, when an instance of the earlier generation serves a request of the later one.
   */
  lemma ServedByItsGeneration(node: Node, es: seq<Event>, r: nat)
    requires Legal(node, START, es) && RequestOf(Exec(node, START, es), r).Served?
    ensures
      var s := Exec(node, START, es);
      var q := RequestOf(s, r);
      && q.t < |s.tenants|
      && q.inst.ctx == Linker.NewHostCtx(s.tenants[q.t].sandbox)
      && DigestOf(node.host, q.inst.guest.origin) == q.inst.digest == q.gen.digest
      && (CollisionFree(node.host, BytesRun(s.tenants[q.t])) ==>
            q.inst.guest == q.gen.compiled == Component(q.gen.loaded.bytes))
    ensures
      exists i :: 0 <= i < |es| && Snapshots(es[i], r) && Legal(node, START, es[..i])
        && var q, before := RequestOf(Exec(node, START, es), r), Exec(node, START, es[..i]);
           q.t < |before.tenants| && before.tenants[q.t].ctl.active == q.gen
  {
    Reachable(node, es);
    var s := Exec(node, START, es);
    var q := s.requests[r];
    var ts := s.tenants[q.t];
    assert RequestServes(s, q);
    var k :| 0 <= k < |ts.generations|
      && ts.generations[k].compiled == q.inst.guest && ts.generations[k].digest == q.inst.digest;
    var j :| 0 <= j < |ts.generations| && ts.generations[j] == q.gen;
    assert GenerationsSound(node, ts);
    assert GenerationOk(node.host, ts.generations[k]) && GenerationOk(node.host, ts.generations[j]);
    assert ts.generations[k].loaded.bytes in BytesRun(ts) && q.gen.loaded.bytes in BytesRun(ts);
    var i := SnapshotWasActive(node, es, r);
  }

  // ----- instances

  lemma OnePlaceEach(s: State)
    requires Owned(s) && Serving(s)
    ensures forall id: nat, p: Place :: id < s.nextSerial && !p.Dropped? ==>
      id in s.owner && (id in Contents(s, p) <==> s.owner[id] == p)
    ensures forall t :: 0 <= t < |s.tenants| ==>
      && DistinctSerials(s.tenants[t].pool) && |s.tenants[t].pool| <= s.tenants[t].cap
      && forall j :: 0 <= j < |s.tenants[t].pool| ==>
           s.tenants[t].pool[j].ctx == Linker.NewHostCtx(s.tenants[t].sandbox)
  {
    forall id: nat, p: Place | id < s.nextSerial && !p.Dropped?
      ensures id in s.owner && (id in Contents(s, p) <==> s.owner[id] == p)
    {
      assert Contents(s, p) == RecordedAt(s.owner, p);
    }
    forall t | 0 <= t < |s.tenants| ensures PoolServes(s.tenants[t]) {
    }
  }

  /**
   Every instance built so far is in exactly one place: a pool, a request in flight, or dropped. Pools
   keep to their capacity, and hold only instances of their own tenant's identity and scratch space.
   */
  lemma InstancesAreInOnePlace(node: Node, es: seq<Event>)
    requires Legal(node, START, es)
    ensures
      var s := Exec(node, START, es);
      && (forall id: nat, p: Place :: id < s.nextSerial && !p.Dropped? ==>
            id in s.owner && (id in Contents(s, p) <==> s.owner[id] == p))
      && (forall t :: 0 <= t < |s.tenants| ==>
            && DistinctSerials(s.tenants[t].pool) && |s.tenants[t].pool| <= s.tenants[t].cap
            && forall j :: 0 <= j < |s.tenants[t].pool| ==>
                 s.tenants[t].pool[j].ctx == Linker.NewHostCtx(s.tenants[t].sandbox))
  {
    Reachable(node, es);
    OnePlaceEach(Exec(node, START, es));
  }

  lemma HeldIsRecorded(s: State, r: nat)
    requires Owned(s) && Holding(RequestOf(s, r))
    ensures
      var id := RequestOf(s, r).inst.serial;
      id in s.owner && s.owner[id] == InRequest(r)
  {
    assert RequestOf(s, r).inst.serial in Contents(s, InRequest(r));
    assert Contents(s, InRequest(r)) == RecordedAt(s.owner, InRequest(r));
  }

  lemma PooledIsRecorded(s: State, t: nat, j: nat)
    requires Owned(s) && t < |s.tenants| && j < |s.tenants[t].pool|
    ensures
      var id := s.tenants[t].pool[j].serial;
      id in s.owner && s.owner[id] == InPool(t)
  {
    assert s.tenants[t].pool[j].serial in Contents(s, InPool(t));
    assert Contents(s, InPool(t)) == RecordedAt(s.owner, InPool(t));
  }

  lemma AcquireMovesOut(s: State, r: nat, instantiates: bool, id: nat)
    requires Wf(s) && Owned(s) && RequestOf(s, r).Snapped? && id in s.owner
    ensures
      var next := AcquireStep(s, r, instantiates).owner;
      && id in next && (next[id].InPool? ==> next[id] == s.owner[id])
      && (s.owner[id].Dropped? ==> next[id].Dropped?)
  {
    var q := RequestOf(s, r);
    var k := StalePrefix(s.tenants[q.t].pool, q.gen.loaded.digest);
    if k < |s.tenants[q.t].pool| {
      PooledIsRecorded(s, q.t, k);
    }
  }

  /**
   An instance enters a pool only by the release of a request that held it, after its call returned
   normally, into that request's tenant's pool; what was dropped stays dropped.
   */
  lemma PoolsAreRefilledByReturnedCallsOnly(node: Node, s: State, e: Event, id: nat)
    requires Inv(node, s) && Enabled(node, s, e) && id in s.owner
    ensures id in Step(node, s, e).owner
    ensures
      var now, next := s.owner[id], Step(node, s, e).owner[id];
      && (next.InPool? && next != now ==>
            e.Release? && RequestOf(s, e.r).Returned? && RequestOf(s, e.r).inst.serial == id
            && now == InRequest(e.r) && next == InPool(RequestOf(s, e.r).t))
      && (now.Dropped? ==> next.Dropped?)
  {
    if e.Acquire? {
      AcquireMovesOut(s, e.r, e.instantiates, id);
    } else if Moves(s, e) {
      HeldIsRecorded(s, e.r);
    } else if IsRequestEvent(e) {
      StillRequestStep(node, s, e);
    }
  }

  // ----- pacing and counting

  /** A generation that became active, and when. */
  datatype Activation = Activation(gen: Generation, at: nat)

  /** The generations that became active in the tenant, seen from outside: each change of the active one. */
  ghost function Activations(node: Node, s: State, es: seq<Event>, t: nat): seq<Activation>
    requires Legal(node, s, es)
    decreases |es|
  {
    if es == [] then []
    else
      var init := es[..|es| - 1];
      var before, after, past := Exec(node, s, init), Exec(node, s, es), Activations(node, s, init, t);
      if t < |after.tenants| && (t >= |before.tenants| || after.tenants[t].ctl.active != before.tenants[t].ctl.active)
      then past + [Activation(after.tenants[t].ctl.active, after.clock)]
      else past
  }

  /** A tenant's record of its past is what was seen. */
  predicate RecordIs(s: State, t: nat, past: seq<Activation>) {
    if t >= |s.tenants| then past == []
    else
      && |past| == |s.tenants[t].generations| == |s.tenants[t].swapTimes|
      && forall i :: 0 <= i < |past| ==>
           past[i] == Activation(s.tenants[t].generations[i], s.tenants[t].swapTimes[i])
  }

  /** One tenant's step in a visit, on its record. */
  lemma VisitRecordsOwn(node: Node, clock: nat, loop: Loop, ts: TenantState, pulled: Result<Loaded>)
    requires !loop.Idle? && loop.rest != [] && CargoSound(node, loop, ts)
    ensures
      var ts' := NextVisit(node, clock, loop, ts, pulled).0;
      if ts'.ctl.active != ts.ctl.active
      then ts'.generations == ts.generations + [ts'.ctl.active] && ts'.swapTimes == ts.swapTimes + [clock]
      else ts'.generations == ts.generations && ts'.swapTimes == ts.swapTimes
  {
    VisitFrame(node, clock, loop, ts, pulled);
  }

  lemma VisitRecords(node: Node, s: State, e: Event, t: nat, past: seq<Activation>)
    requires Inv(node, s) && Enabled(node, s, e) && IsVisit(s, e) && RecordIs(s, t, past)
    ensures
      var s' := Step(node, s, e);
      && |s'.tenants| == |s.tenants| && s'.clock == s.clock
      && if t < |s.tenants| && s'.tenants[t].ctl.active != s.tenants[t].ctl.active
         then RecordIs(s', t, past + [Activation(s'.tenants[t].ctl.active, s'.clock)])
         else RecordIs(s', t, past)
  {
    VisitIsLocal(node, s, e);
    VisitRecordsOwn(node, s.clock, s.loop, s.tenants[s.loop.rest[0]], Pull(node, s, e));
  }

  lemma OtherStepRecords(node: Node, s: State, e: Event, t: nat, past: seq<Activation>)
    requires Inv(node, s) && Enabled(node, s, e) && !IsVisit(s, e) && RecordIs(s, t, past)
    ensures
      var s' := Step(node, s, e);
      if t < |s'.tenants| && (t >= |s.tenants| || s'.tenants[t].ctl.active != s.tenants[t].ctl.active)
      then RecordIs(s', t, past + [Activation(s'.tenants[t].ctl.active, s'.clock)])
      else RecordIs(s', t, past)
  {
    StepKeeps(node, s, e);
    if IsRequestEvent(e) {
      RequestsLeaveReloadingAlone(node, s, e);
    } else {
      OtherStepShape(node, s, e);
      var s' := Step(node, s, e);
      if |s.tenants| <= t < |s'.tenants| {
        assert JustLoaded(s'.tenants[t], s'.clock) && GenerationsSound(node, s'.tenants[t]);
      }
    }
  }

  lemma {:induction false} RunRecords(node: Node, es: seq<Event>, t: nat)
    requires Legal(node, START, es)
    ensures RecordIs(Exec(node, START, es), t, Activations(node, START, es, t))
    decreases |es|
  {
    if es != [] {
      var init, e := es[..|es| - 1], es[|es| - 1];
      Reachable(node, init);
      RunRecords(node, init, t);
      var s, past := Exec(node, START, init), Activations(node, START, init, t);
      if IsVisit(s, e) {
        VisitRecords(node, s, e, t, past);
      } else {
        OtherStepRecords(node, s, e, t, past);
      }
    }
  }

  /**
   Changes of a tenant's active generation, the creation of its record included, are at least a debounce
   interval apart, although each pass reads the clock once; so a window holds at most one more than it holds
   intervals.
   */
  lemma SwapsAreSpaced(node: Node, es: seq<Event>, t: nat, i: nat, j: nat, width: nat)
    requires Legal(node, START, es) && i <= j < |Activations(node, START, es, t)|
    ensures
      var past := Activations(node, START, es, t);
      && (i < j ==> past[i].at + node.policy.debounce <= past[j].at)
      && (node.policy.debounce > 0 && past[j].at <= past[i].at + width ==>
            j - i + 1 <= width / node.policy.debounce + 1)
  {
    Reachable(node, es);
    RunRecords(node, es, t);
    var s := Exec(node, START, es);
    assert TimesOk(node.policy.debounce, s.clock, s.tenants[t], AtPhase(s.loop, t, s.loop.Stamping?));
    SpacedTimes(s.tenants[t].swapTimes, node.policy.debounce, i, j, width);
  }

  lemma SpacedTimes(times: seq<nat>, gap: nat, i: nat, j: nat, width: nat)
    requires Spaced(times, gap) && i <= j < |times|
    ensures i < j ==> times[i] + gap <= times[j]
    ensures gap > 0 && times[j] <= times[i] + width ==> j - i + 1 <= width / gap + 1
  {
    SpacedSpread(times, gap, i, j);
    if i < j {
      TimesMonotone(1, j - i, gap);
    }
    if gap > 0 && times[j] <= times[i] + width {
      SpacedWindow(times, gap, i, j, width);
    }
  }

  /**
   A tenant's failure counter is the number of its pulls that failed in the run since its last successful
   visit ended, or since its activation. In the last phase of a visit that swapped, the counter is zero
   already.
   */
  lemma FailureCountIsExact(node: Node, es: seq<Event>, t: nat)
    requires Legal(node, START, es) && t < |Exec(node, START, es).tenants|
    ensures
      var s := Exec(node, START, es);
      var failures, n := s.tenants[t].ctl.failures, FailedPulls(node, START, es, t);
      if AtPhase(s.loop, t, s.loop.Finishing?) then failures == n || failures == 0 else failures == n
  {
    RunCounts(node, es, t);
  }

  /** A tenant's invocation counter is the number of requests it has served to the end. */
  lemma InvocationsAreServedRequests(node: Node, es: seq<Event>, t: nat)
    requires Legal(node, START, es) && t < |Exec(node, START, es).tenants|
    ensures
      var s := Exec(node, START, es);
      s.tenants[t].invocations == |ServedBy(s, t)|
  {
    Reachable(node, es);
  }

  /**
   What a pull's outcome does at once: a failure counts one and keeps everything else, a contract
   violation ends the pass and keeps everything; no pull changes a generation, and no other tenant
   notices.
   */
  lemma PullsKeepGenerations(node: Node, s: State, e: Event)
    requires Inv(node, s) && Enabled(node, s, e) && e.PollPull?
    ensures
      var s', t, pulled := Step(node, s, e), s.loop.rest[0], Pull(node, s, e);
      && s'.tenants[t].generations == s.tenants[t].generations
      && s'.tenants[t].ctl == s.tenants[t].ctl.(failures := s'.tenants[t].ctl.failures)
      && s'.tenants[t].ctl.failures == s.tenants[t].ctl.failures + (if pulled.Err? then 1 else 0)
      && (s'.loop.Idle? <==> pulled.Ok? && EnsureContract(pulled.value).Err?)
      && (forall u :: 0 <= u < |s.tenants| && u != t ==> s'.tenants[u] == s.tenants[u])
  {
    VisitIsLocal(node, s, e);
  }

  // ----- draining

  /** No request in flight in the tenant carries another digest than the active one. */
  ghost predicate CaughtUp(s: State, t: nat)
    requires t < |s.tenants|
  {
    forall r :: r in s.requests && InFlight(s.requests[r], t) ==>
      s.requests[r].gen.digest == s.tenants[t].ctl.active.digest
  }

  predicate InFlight(q: Request, t: nat) {
    (q.Snapped? || Holding(q)) && q.t == t
  }

  predicate AcquiresFor(s: State, e: Event, t: nat) {
    e.Acquire? && InFlight(RequestOf(s, e.r), t)
  }

  /** Acquires on behalf of the tenant during a run. */
  ghost function Acquires(node: Node, s: State, es: seq<Event>, t: nat): nat
    requires Legal(node, s, es)
    decreases |es|
  {
    if es == [] then 0
    else
      var init, e := es[..|es| - 1], es[|es| - 1];
      Acquires(node, s, init, t)
      + if AcquiresFor(Exec(node, s, init), e, t) then 1 else 0
  }

  /** A request in flight after a step either just took its snapshot, or was in flight before with it. */
  lemma InFlightBefore(node: Node, s: State, e: Event, r: nat, t: nat)
    requires Wf(s) && Enabled(node, s, e) && InFlight(RequestOf(Step(node, s, e), r), t)
    ensures
      var q, q' := RequestOf(s, r), RequestOf(Step(node, s, e), r);
      if Snapshots(e, r) then t < |s.tenants| && q'.gen == s.tenants[t].ctl.active
      else InFlight(q, t) && q'.gen == q.gen
  {
    if !Snapshots(e, r) {
      GenerationKept(node, s, e, r);
    }
  }

  lemma StepStaysCaughtUp(node: Node, s: State, e: Event, t: nat)
    requires Wf(s) && Enabled(node, s, e) && t < |s.tenants| && CaughtUp(s, t)
    requires t < |Step(node, s, e).tenants|
    requires Step(node, s, e).tenants[t].ctl.active == s.tenants[t].ctl.active
    ensures CaughtUp(Step(node, s, e), t)
  {
    var s' := Step(node, s, e);
    forall r | r in s'.requests && InFlight(s'.requests[r], t)
      ensures s'.requests[r].gen.digest == s'.tenants[t].ctl.active.digest
    {
      InFlightBefore(node, s, e, r, t);
    }
  }

  /** A request in flight for a tenant that is caught up carries the active digest, and so does what it holds. */
  lemma CurrentDigest(node: Node, s: State, r: nat, t: nat)
    requires Inv(node, s) && InFlight(RequestOf(s, r), t) && t < |s.tenants| && CaughtUp(s, t)
    ensures
      var q, digest := RequestOf(s, r), s.tenants[t].ctl.active.digest;
      q.gen.loaded.digest == digest && (Holding(q) ==> q.inst.digest == digest)
  {
    var q, ts := s.requests[r], s.tenants[t];
    assert RequestServes(s, q);
    var k :| 0 <= k < |ts.generations| && ts.generations[k] == q.gen;
    assert GenerationsSound(node, ts);
    assert GenerationOk(node.host, ts.generations[k]);
  }

  /** Every other step leaves the tenant's queue alone. */
  lemma QueueUntouched(node: Node, s: State, e: Event, t: nat)
    requires Wf(s) && Enabled(node, s, e) && t < |s.tenants|
    requires (e.Acquire? || e.Release?) ==> RequestOf(s, e.r).t != t
    ensures t < |Step(node, s, e).tenants| && Step(node, s, e).tenants[t].pool == s.tenants[t].pool
  {
    StepGrows(node, s, e);
  }

  lemma AcquireStaleCameFrom(s: State, r: nat, instantiates: bool, t: nat, j: nat) returns (i: nat)
    requires Wf(s) && RequestOf(s, r).Snapped? && RequestOf(s, r).t == t
    requires j < |AcquireStep(s, r, instantiates).tenants[t].pool|
    ensures i < |s.tenants[t].pool| && s.tenants[t].pool[i] == AcquireStep(s, r, instantiates).tenants[t].pool[j]
    ensures i >= j + 1
  {
    var queue, digest := s.tenants[t].pool, RequestOf(s, r).gen.loaded.digest;
    AcquireDrains(queue, digest);
    i := |queue| - |AfterAcquire(queue, digest)| + j;
  }

  lemma ReleaseStaleCameFrom(s: State, r: nat, t: nat, j: nat)
    requires Wf(s) && RequestOf(s, r).Returned? && RequestOf(s, r).t == t
    requires j < |ReleaseStep(s, r).tenants[t].pool|
    requires ReleaseStep(s, r).tenants[t].pool[j].digest != RequestOf(s, r).inst.digest
    ensures j < |s.tenants[t].pool| && s.tenants[t].pool[j] == ReleaseStep(s, r).tenants[t].pool[j]
  {
  }

  /** A stale instance in the queue after a step was in it before, further back if the step was an acquire. */
  lemma StepStaleCameFrom(node: Node, s: State, e: Event, t: nat, j: nat) returns (i: nat)
    requires Inv(node, s) && Enabled(node, s, e) && t < |s.tenants| && CaughtUp(s, t)
    requires t < |Step(node, s, e).tenants| && j < |Step(node, s, e).tenants[t].pool|
    requires Step(node, s, e).tenants[t].pool[j].digest != s.tenants[t].ctl.active.digest
    ensures i < |s.tenants[t].pool| && s.tenants[t].pool[i] == Step(node, s, e).tenants[t].pool[j]
    ensures i >= j + if AcquiresFor(s, e, t) then 1 else 0
  {
    i := j;
    if AcquiresFor(s, e, t) {
      i := AcquireStaleCameFrom(s, e.r, e.instantiates, t, j);
    } else if e.Release? && RequestOf(s, e.r).t == t {
      CurrentDigest(node, s, e.r, t);
      ReleaseStaleCameFrom(s, e.r, t, j);
    } else {
      QueueUntouched(node, s, e, t);
    }
  }

  lemma SameGenerations(node: Node, was: TenantState, mid: TenantState, now: TenantState)
    requires Grown(was, mid) && Grown(mid, now) && now.generations == was.generations
    requires GenerationsSound(node, was) && GenerationsSound(node, mid) && GenerationsSound(node, now)
    ensures mid.generations == was.generations
    ensures mid.ctl.active == now.ctl.active == was.ctl.active
  {
  }

  /** No swap in the whole run means none in the part before the last event. */
  lemma NoSwapBefore(node: Node, s: State, es: seq<Event>, t: nat)
    requires Inv(node, s) && Legal(node, s, es) && t < |s.tenants| && es != []
    requires t < |Exec(node, s, es).tenants|
    requires Exec(node, s, es).tenants[t].generations == s.tenants[t].generations
    ensures
      var before := Exec(node, s, es[..|es| - 1]);
      && Inv(node, before) && t < |before.tenants|
      && before.tenants[t].generations == s.tenants[t].generations
      && before.tenants[t].ctl.active == Exec(node, s, es).tenants[t].ctl.active == s.tenants[t].ctl.active
  {
    var mid, e := Exec(node, s, es[..|es| - 1]), es[|es| - 1];
    RunGrows(node, s, es[..|es| - 1], t);
    RunKeeps(node, s, es[..|es| - 1]);
    StepNoSwap(node, s.tenants[t], mid, e, t);
  }

  lemma StepNoSwap(node: Node, was: TenantState, s: State, e: Event, t: nat)
    requires Inv(node, s) && Enabled(node, s, e) && t < |s.tenants|
    requires Grown(was, s.tenants[t]) && GenerationsSound(node, was)
    requires t < |Step(node, s, e).tenants| && Step(node, s, e).tenants[t].generations == was.generations
    ensures s.tenants[t].generations == was.generations
    ensures s.tenants[t].ctl.active == Step(node, s, e).tenants[t].ctl.active == was.ctl.active
  {
    StepGrows(node, s, e);
    StepKeepsSound(node, s, e);
    SameGenerations(node, was, s.tenants[t], Step(node, s, e).tenants[t]);
  }

  lemma {:induction false} RunStaysCaughtUp(node: Node, s: State, es: seq<Event>, t: nat)
    requires Inv(node, s) && Legal(node, s, es) && t < |s.tenants| && CaughtUp(s, t)
    requires t < |Exec(node, s, es).tenants|
    requires Exec(node, s, es).tenants[t].generations == s.tenants[t].generations
    ensures Exec(node, s, es).tenants[t].ctl.active == s.tenants[t].ctl.active
    ensures CaughtUp(Exec(node, s, es), t)
    decreases |es|
  {
    if es != [] {
      NoSwapBefore(node, s, es, t);
      RunStaysCaughtUp(node, s, es[..|es| - 1], t);
      StepStaysCaughtUp(node, Exec(node, s, es[..|es| - 1]), es[|es| - 1], t);
    }
  }

  /**
   The heart of draining: from a state where no request of an older generation is in flight, and as long
   as no swap happens, a stale instance found in the pool was there at the beginning, and every acquire
   since has brought it at least one place forward, whatever else interleaved.
   */
  lemma {:induction false} StaleCameFrom(node: Node, s: State, es: seq<Event>, t: nat, j: nat) returns (i: nat)
    requires Inv(node, s) && Legal(node, s, es) && t < |s.tenants| && CaughtUp(s, t)
    requires t < |Exec(node, s, es).tenants| && j < |Exec(node, s, es).tenants[t].pool|
    requires Exec(node, s, es).tenants[t].generations == s.tenants[t].generations
    requires Exec(node, s, es).tenants[t].pool[j].digest != s.tenants[t].ctl.active.digest
    ensures i < |s.tenants[t].pool| && s.tenants[t].pool[i] == Exec(node, s, es).tenants[t].pool[j]
    ensures i >= j + Acquires(node, s, es, t)
    decreases |es|
  {
    i := j;
    if es != [] {
      var init := es[..|es| - 1];
      NoSwapBefore(node, s, es, t);
      RunStaysCaughtUp(node, s, init, t);
      i := StepStaleCameFrom(node, Exec(node, s, init), es[|es| - 1], t, j);
      i := StaleCameFrom(node, s, init, t, i);
    }
  }

  /** An instance is still in the tenant's queue, or dropped. */
  predicate QueuedOrDropped(s: State, t: nat, p: Prepared)
    requires t < |s.tenants|
  {
    p in s.tenants[t].pool || (p.serial in s.owner && s.owner[p.serial].Dropped?)
  }

  /** An acquire drops what it passes over. */
  lemma AcquirePassesOver(s: State, r: nat, instantiates: bool, p: Prepared)
    requires Wf(s) && Owned(s) && RequestOf(s, r).Snapped?
    requires p in s.tenants[RequestOf(s, r).t].pool && p.digest != RequestOf(s, r).gen.loaded.digest
    ensures QueuedOrDropped(AcquireStep(s, r, instantiates), RequestOf(s, r).t, p)
  {
    var t, digest := RequestOf(s, r).t, RequestOf(s, r).gen.loaded.digest;
    var queue := s.tenants[t].pool;
    var k := StalePrefix(queue, digest);
    var i :| 0 <= i < |queue| && queue[i] == p;
    PooledIsRecorded(s, t, i);
    if i < k {
      assert p.serial in Serials(queue, k);
      assert k < |queue| ==> queue[k].serial != p.serial;
    } else {
      assert AfterAcquire(queue, digest)[i - k - 1] == p;
    }
  }

  lemma StepQueuesOrDrops(node: Node, s: State, e: Event, t: nat, p: Prepared)
    requires Inv(node, s) && Enabled(node, s, e) && t < |s.tenants| && CaughtUp(s, t)
    requires t < |Step(node, s, e).tenants|
    requires p.digest != s.tenants[t].ctl.active.digest && QueuedOrDropped(s, t, p)
    ensures QueuedOrDropped(Step(node, s, e), t, p)
  {
    if p !in s.tenants[t].pool {
      PoolsAreRefilledByReturnedCallsOnly(node, s, e, p.serial);
    } else if AcquiresFor(s, e, t) {
      CurrentDigest(node, s, e.r, t);
      AcquirePassesOver(s, e.r, e.instantiates, p);
    } else if e.Release? && RequestOf(s, e.r).t == t {
      assert p in AfterRelease(s.tenants[t].pool, s.tenants[t].cap, RequestOf(s, e.r).inst);
    } else {
      QueueUntouched(node, s, e, t);
    }
  }

  lemma {:induction false} RunQueuesOrDrops(node: Node, s: State, es: seq<Event>, t: nat, p: Prepared)
    requires Inv(node, s) && Legal(node, s, es) && t < |s.tenants| && CaughtUp(s, t)
    requires t < |Exec(node, s, es).tenants|
    requires Exec(node, s, es).tenants[t].generations == s.tenants[t].generations
    requires p.digest != s.tenants[t].ctl.active.digest && QueuedOrDropped(s, t, p)
    ensures QueuedOrDropped(Exec(node, s, es), t, p)
    decreases |es|
  {
    if es != [] {
      var init := es[..|es| - 1];
      NoSwapBefore(node, s, es, t);
      RunStaysCaughtUp(node, s, init, t);
      RunQueuesOrDrops(node, s, init, t, p);
      StepQueuesOrDrops(node, Exec(node, s, init), es[|es| - 1], t, p);
    }
  }

  /**
   Bounded drain: with no request of an older generation in flight and no further swap, the stale instance
   at place `i` of the pool is dropped within `i + 1` acquires, whatever else interleaves.
   */
  lemma StaleInstanceIsDropped(node: Node, s: State, es: seq<Event>, t: nat, i: nat)
    requires Inv(node, s) && Legal(node, s, es) && t < |s.tenants| && CaughtUp(s, t)
    requires t < |Exec(node, s, es).tenants|
    requires Exec(node, s, es).tenants[t].generations == s.tenants[t].generations
    requires i < |s.tenants[t].pool| && s.tenants[t].pool[i].digest != s.tenants[t].ctl.active.digest
    requires Acquires(node, s, es, t) >= i + 1
    ensures
      var s', p := Exec(node, s, es), s.tenants[t].pool[i];
      p !in s'.tenants[t].pool && p.serial in s'.owner && s'.owner[p.serial].Dropped?
  {
    var p, now := s.tenants[t].pool[i], Exec(node, s, es).tenants[t].pool;
    RunQueuesOrDrops(node, s, es, t, p);
    if p in now {
      var j :| 0 <= j < |now| && now[j] == p;
      var k := StaleCameFrom(node, s, es, t, j);
      assert false;
    }
  }

  /** The places where stale instances can be shrink by one with every acquire. */
  lemma RunDrains(node: Node, s: State, es: seq<Event>, t: nat, bound: int)
    requires Inv(node, s) && Legal(node, s, es) && t < |s.tenants| && CaughtUp(s, t)
    requires t < |Exec(node, s, es).tenants|
    requires Exec(node, s, es).tenants[t].generations == s.tenants[t].generations
    requires StaleOnlyBefore(s.tenants[t].pool, s.tenants[t].ctl.active.digest, bound)
    ensures
      var s' := Exec(node, s, es);
      && s'.tenants[t].ctl.active == s.tenants[t].ctl.active && CaughtUp(s', t)
      && StaleOnlyBefore(s'.tenants[t].pool, s'.tenants[t].ctl.active.digest, bound - Acquires(node, s, es, t))
  {
    RunStaysCaughtUp(node, s, es, t);
    var digest, now := s.tenants[t].ctl.active.digest, Exec(node, s, es).tenants[t].pool;
    forall j | 0 <= j < |now| && j >= bound - Acquires(node, s, es, t) ensures now[j].digest == digest {
      if now[j].digest != digest {
        var i := StaleCameFrom(node, s, es, t, j);
      }
    }
  }

  /** After as many acquires as the pool has places, no stale instance is left in it. */
  lemma PoolIsDrainedAfterCapacityAcquires(node: Node, s: State, es: seq<Event>, t: nat)
    requires Inv(node, s) && Legal(node, s, es) && t < |s.tenants| && CaughtUp(s, t)
    requires t < |Exec(node, s, es).tenants|
    requires Exec(node, s, es).tenants[t].generations == s.tenants[t].generations
    requires Acquires(node, s, es, t) >= s.tenants[t].cap
    ensures
      var ts := Exec(node, s, es).tenants[t];
      forall j :: 0 <= j < |ts.pool| ==> ts.pool[j].digest == ts.ctl.active.digest
  {
    assert PoolServes(s.tenants[t]);
    RunDrains(node, s, es, t, s.tenants[t].cap);
  }
}
