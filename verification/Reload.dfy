/**
 What one reload pass does to one tenant, and the pass as a fold over the tenants
 (`HotReloadPolicy` in `src/registry/store.rs`, `swap` and `poll_once` in `src/runtime.rs`).
 */
module Reload {
  import opened Base
  import opened Digests
  import opened Disk
  import opened Distribution
  import opened Loader
  import Store
  import opened Tenancy

  datatype HotReloadPolicy = HotReloadPolicy(debounce: nat, maxFailedPolls: nat) {
    predicate ShouldReload(prev: Option<string>, next: string) {
      match prev
      case Some(p) => p != next
      case None => true
    }

    /** Time since the last swap saturates at zero. */
    predicate Debounced(now: nat, lastSwap: nat) {
      (if now >= lastSwap then now - lastSwap else 0) < debounce
    }
  }

  /** The fixed surroundings: foreign code, reload policy, process id, and the engine's room for instances. */
  datatype Node = Node(host: Host, policy: HotReloadPolicy, pid: nat, capacity: nat)

  /** `ActiveComponent`: what a tenant runs from one swap to the next. */
  datatype Generation = Generation(loaded: Loaded, compiled: Component, digest: string, activatedAt: nat)

  /** The part of a tenant that reloading reads and writes. */
  datatype Control = Control(active: Generation, failures: nat, lastSwap: nat)

  function MakeGeneration(host: Host, loaded: Loaded, at: nat): Result<Generation> {
    var compiled :- Compile(host, loaded.bytes);
    Ok(Generation(loaded, compiled, loaded.digest, at))
  }

  /** Everything a generation promises: digest of its bytes, compiled from them, contract satisfied. */
  predicate GenerationOk(host: Host, g: Generation) {
    && WellLoaded(host, g.loaded)
    && g.digest == g.loaded.digest
    && ContractHolds(g.loaded.exports)
    && host.compiles(g.loaded.bytes)
    && g.compiled == Component(g.loaded.bytes)
  }

  predicate Pinned(source: ComponentSource) {
    source.Oci? && source.pin.Some?
  }

  predicate RespectsPin(source: ComponentSource, digest: string) {
    Pinned(source) ==> digest == source.pin.value
  }

  // ----- one load

  /** The artifact of a source: pulled from the registry, or read from a file if it is there. */
  function Artifact(node: Node, disk: Disk, source: ComponentSource, answer: Answer, fault: Store.Fault,
                    file: Option<Blob>): (Result<Loaded>, Disk)
  {
    match source
    case Oci(reference, pin) => PullSpec(node.host, disk, node.pid, reference, pin, answer, fault)
    case File(path) =>
      (if file.None? then Err(InvalidComponent) else FromBytes(node.host, path, file.value), disk)
  }

  /** The first generation of an artifact that satisfies the contract. */
  function FirstGeneration(host: Host, artifact: Result<Loaded>, at: nat): Result<Generation> {
    var loaded :- artifact;
    var _ :- EnsureContract(loaded);
    MakeGeneration(host, loaded, at)
  }

  /**
   What loading a tenant comes to: its id, its limits and its egress bridge are checked before anything is
   fetched, then the artifact has to satisfy the contract and to compile.
   */
  function LoadSpec(node: Node, disk: Disk, cfg: TenantConfig, bridged: bool, v: Visit, file: Option<Blob>)
    : (Result<Generation>, Disk)
  {
    if NewTenantId(cfg.name).Err? then (Err(Error.Config), disk)
    else if cfg.limits.Validate().Err? then (Err(LimitExceeded), disk)
    else if !bridged then (Err(Error.Config), disk)
    else
      var (artifact, disk') := Artifact(node, disk, cfg.component, v.answer, v.fault, file);
      (FirstGeneration(node.host, artifact, v.compiledAt), disk')
  }

  lemma ArtifactMeaning(node: Node, disk: Disk, source: ComponentSource, answer: Answer, fault: Store.Fault,
                        file: Option<Blob>)
    ensures
      var (r, disk') := Artifact(node, disk, source, answer, fault, file);
      && (r.Err? ==> IsPullError(r.error))
      && (DiskOk(node.host, disk) ==>
            && DiskOk(node.host, disk')
            && (r.Ok? ==> WellLoaded(node.host, r.value) && RespectsPin(source, r.value.digest)))
  {
    if source.Oci? {
      var (resolved, disk') := Resolve(node.host, disk, node.pid, answer, fault);
      PullErrors(node.host, disk, node.pid, source.reference, source.pin, answer, fault);
      if DiskOk(node.host, disk) {
        ResolveKeepsDisk(node.host, disk, node.pid, answer, fault);
        PulledIsAuthentic(node.host, disk', source.reference, source.pin, resolved);
      }
    }
  }

  lemma FirstGenerationMeaning(host: Host, source: ComponentSource, artifact: Result<Loaded>, at: nat)
    requires artifact.Err? ==> IsPullError(artifact.error)
    ensures
      var r := FirstGeneration(host, artifact, at);
      && (r.Err? ==> r.error !in {Error.Config, LimitExceeded})
      && (r.Ok? && WellLoaded(host, artifact.value) && RespectsPin(source, artifact.value.digest) ==>
            GenerationOk(host, r.value) && RespectsPin(source, r.value.digest))
  {
  }

  /**
   A load fails with a configuration or limit error only for the tenant's id, its limits or the egress
   bridge, and then nothing was fetched; under the store's invariant it yields a sound generation that
   respects the pin.
   */
  lemma LoadMeaning(node: Node, disk: Disk, cfg: TenantConfig, bridged: bool, v: Visit, file: Option<Blob>)
    ensures
      var (r, disk') := LoadSpec(node, disk, cfg, bridged, v, file);
      && (r.Err? && r.error in {Error.Config, LimitExceeded} <==> !(LoadableIdAndLimits(cfg) && bridged))
      && (!(LoadableIdAndLimits(cfg) && bridged) ==> r.Err? && disk' == disk)
      && (DiskOk(node.host, disk) ==> DiskOk(node.host, disk'))
      && (DiskOk(node.host, disk) && r.Ok? ==>
            GenerationOk(node.host, r.value) && RespectsPin(cfg.component, r.value.digest))
  {
    var artifact := Artifact(node, disk, cfg.component, v.answer, v.fault, file).0;
    ArtifactMeaning(node, disk, cfg.component, v.answer, v.fault, file);
    FirstGenerationMeaning(node.host, cfg.component, artifact, v.compiledAt);
  }

  /** An artifact comes from a pull, or from the bytes of a file that is there; a file leaves the store alone. */
  lemma ArtifactOf(node: Node, disk: Disk, source: ComponentSource, answer: Answer, fault: Store.Fault,
                   file: Option<Blob>)
    ensures
      var (r, disk') := Artifact(node, disk, source, answer, fault, file);
      match source
      case Oci(reference, pin) =>
        (r, disk') == PullSpec(node.host, disk, node.pid, reference, pin, answer, fault)
      case File(path) =>
        && disk' == disk
        && r == (match file
                 case None => Err(InvalidComponent)
                 case Some(bytes) => RecordOf(node.host, path, DigestOf(node.host, bytes), bytes, None))
  {
  }

  /**
   A load succeeds if and only if the tenant may be loaded at all, the egress bridge could be built, the
   artifact is there, serves guests and compiles; then the tenant begins with the generation of that artifact.
   */
  lemma LoadSucceedsIff(node: Node, disk: Disk, cfg: TenantConfig, bridged: bool, v: Visit, file: Option<Blob>)
    ensures
      var r := LoadSpec(node, disk, cfg, bridged, v, file).0;
      var artifact := Artifact(node, disk, cfg.component, v.answer, v.fault, file).0;
      && (r.Ok? <==>
            && MayBeLoaded(cfg) && bridged
            && artifact.Ok? && ServesGuests(artifact.value.exports) && node.host.compiles(artifact.value.bytes))
      && (r.Ok? ==>
            r.value == Generation(artifact.value, Component(artifact.value.bytes), artifact.value.digest, v.compiledAt))
      && (MayBeLoaded(cfg) && bridged && r.Err? ==>
            r.error == if artifact.Err? then artifact.error
                       else if !ServesGuests(artifact.value.exports) then Contract
                       else Wasm)
  {
    LoadableMeaning(cfg);
    var artifact := Artifact(node, disk, cfg.component, v.answer, v.fault, file).0;
    if artifact.Ok? {
      ContractMeaning(artifact.value);
    }
  }

  // ----- one visit

  /** What the outside world contributes to one visit, clock readings included. */
  datatype Visit = Visit(answer: Answer, fault: Store.Fault, compiledAt: nat, stampedAt: nat)

  datatype Tracked = Tracked(source: ComponentSource, ctl: Control)

  predicate Skipped(node: Node, now: nat, t: Tracked) {
    t.source.File? || node.policy.Debounced(now, t.ctl.lastSwap)
  }

  /** What becomes of a tenant once its pull has an outcome. */
  function Settle(node: Node, ctl: Control, pulled: Result<Loaded>, compiledAt: nat, stampedAt: nat)
    : (Control, Result<Unit>)
  {
    if pulled.Err? then (ctl.(failures := ctl.failures + 1), Ok(Unit))
    else if EnsureContract(pulled.value).Err? then (ctl, Err(Contract))
    else if !node.policy.ShouldReload(Some(ctl.active.digest), pulled.value.digest) then
      (ctl.(failures := 0), Ok(Unit))
    else match MakeGeneration(node.host, pulled.value, compiledAt)
      case Err(e) => (ctl, Err(e))
      case Ok(g) => (Control(g, 0, stampedAt), Ok(Unit))
  }

  function VisitSpec(node: Node, now: nat, disk: Disk, t: Tracked, v: Visit): (Control, Disk, Result<Unit>) {
    if Skipped(node, now, t) then (t.ctl, disk, Ok(Unit))
    else
      var (pulled, disk') :=
        PullSpec(node.host, disk, node.pid, t.source.reference, t.source.pin, v.answer, v.fault);
      var (ctl, verdict) := Settle(node, t.ctl, pulled, v.compiledAt, v.stampedAt);
      (ctl, disk', verdict)
  }

  /** One tenant's turn, whatever its pull came back with. */
  datatype Turn = Turn(pulled: Result<Loaded>, compiledAt: nat, stampedAt: nat)

  function TurnSpec(node: Node, now: nat, t: Tracked, turn: Turn): (Control, Result<Unit>) {
    if Skipped(node, now, t) then (t.ctl, Ok(Unit))
    else Settle(node, t.ctl, turn.pulled, turn.compiledAt, turn.stampedAt)
  }

  /** The tenant's component comes from a registry and its last swap is at least the debounce interval ago. */
  predicate Due(node: Node, now: nat, t: Tracked) {
    t.source.Oci? && (node.policy.debounce == 0 || t.ctl.lastSwap + node.policy.debounce <= now)
  }

  lemma DueMeaning(node: Node, now: nat, t: Tracked)
    ensures Due(node, now, t) <==> !Skipped(node, now, t)
  {
  }

  /**
   What a turn comes to, case by case. Not due: nothing. Pull failed: one more failure, same generation.
   Contract violated or not compilable: an error, nothing changed. Otherwise the failures are cleared, and the
   tenant runs what was pulled: on its old generation if that has the digest, on a new one if not.
   */
  lemma TurnMeaning(node: Node, now: nat, t: Tracked, turn: Turn)
    ensures
      var (ctl, verdict) := TurnSpec(node, now, t, turn);
      if !Due(node, now, t) then ctl == t.ctl && verdict == Ok(Unit)
      else match turn.pulled
        case Err(_) => ctl == t.ctl.(failures := t.ctl.failures + 1) && verdict == Ok(Unit)
        case Ok(l) =>
          if !ServesGuests(l.exports) then ctl == t.ctl && verdict == Err(Contract)
          else if l.digest == t.ctl.active.digest then ctl == t.ctl.(failures := 0) && verdict == Ok(Unit)
          else if !node.host.compiles(l.bytes) then ctl == t.ctl && verdict == Err(Wasm)
          else
            && verdict == Ok(Unit)
            && ctl == Control(Generation(l, Component(l.bytes), l.digest, turn.compiledAt), 0, turn.stampedAt)
  {
    DueMeaning(node, now, t);
    if turn.pulled.Ok? {
      ContractMeaning(turn.pulled.value);
    }
  }

  /** A visit does that with the outcome of its own pull; a visit that is not due touches nothing. */
  lemma VisitMeaning(node: Node, now: nat, disk: Disk, t: Tracked, v: Visit)
    ensures
      var (ctl, disk', verdict) := VisitSpec(node, now, disk, t, v);
      if !Due(node, now, t) then ctl == t.ctl && disk' == disk && verdict == Ok(Unit)
      else
        var (pulled, pulledInto) :=
          PullSpec(node.host, disk, node.pid, t.source.reference, t.source.pin, v.answer, v.fault);
        && disk' == pulledInto
        && (ctl, verdict) == TurnSpec(node, now, t, Turn(pulled, v.compiledAt, v.stampedAt))
  {
    DueMeaning(node, now, t);
  }

  /** A visit is the turn with the outcome of its own pull. */
  lemma VisitIsTurn(node: Node, now: nat, disk: Disk, t: Tracked, v: Visit)
    requires t.source.Oci?
    ensures
      var pulled := PullSpec(node.host, disk, node.pid, t.source.reference, t.source.pin, v.answer, v.fault).0;
      var visited := VisitSpec(node, now, disk, t, v);
      (visited.0, visited.2) == TurnSpec(node, now, t, Turn(pulled, v.compiledAt, v.stampedAt))
  {
  }

  /** Under the store's invariant, a visit installs only sound generations, and never moves a pinned tenant. */
  lemma VisitKeepsTenantsSound(node: Node, now: nat, disk: Disk, t: Tracked, v: Visit)
    requires DiskOk(node.host, disk)
    requires GenerationOk(node.host, t.ctl.active) && RespectsPin(t.source, t.ctl.active.digest)
    ensures
      var (ctl, disk', verdict) := VisitSpec(node, now, disk, t, v);
      && DiskOk(node.host, disk')
      && GenerationOk(node.host, ctl.active) && RespectsPin(t.source, ctl.active.digest)
      && (Pinned(t.source) ==> ctl.active == t.ctl.active)
  {
    if !Skipped(node, now, t) {
      var (resolved, disk') := Resolve(node.host, disk, node.pid, v.answer, v.fault);
      ResolveKeepsDisk(node.host, disk, node.pid, v.answer, v.fault);
      PulledIsAuthentic(node.host, disk', t.source.reference, t.source.pin, resolved);
    }
  }

  /** Two records that differ only in their count settle alike: both counts go up by one, stay, or clear. */
  lemma SettleIgnoresCount(node: Node, ctl: Control, pulled: Result<Loaded>, compiledAt: nat, stampedAt: nat,
                           failures: nat)
    ensures
      var (a, verdict1) := Settle(node, ctl, pulled, compiledAt, stampedAt);
      var (b, verdict2) := Settle(node, ctl.(failures := failures), pulled, compiledAt, stampedAt);
      && verdict1 == verdict2 && a.active == b.active && a.lastSwap == b.lastSwap
      && (a.failures - ctl.failures == b.failures - failures || a.failures == b.failures == 0)
  {
  }

  /**
   Exhausting the failure budget stops nothing: whatever a tenant's count and whatever the budget, a visit
   pulls, swaps and fails exactly as it would with any other.
   */
  lemma ParkedTenantsAreStillPolled(node: Node, now: nat, disk: Disk, t: Tracked, v: Visit, failures: nat, budget: nat)
    ensures
      var generous := node.(policy := node.policy.(maxFailedPolls := budget));
      var fresher := t.(ctl := t.ctl.(failures := failures));
      var (parked, disk1, verdict1) := VisitSpec(node, now, disk, t, v);
      var (ctl, disk2, verdict2) := VisitSpec(generous, now, disk, fresher, v);
      && disk1 == disk2 && verdict1 == verdict2
      && parked.active == ctl.active && parked.lastSwap == ctl.lastSwap
      && (parked.failures - t.ctl.failures == ctl.failures - failures || parked.failures == ctl.failures == 0)
  {
    if !Skipped(node, now, t) {
      var pulled := PullSpec(node.host, disk, node.pid, t.source.reference, t.source.pin, v.answer, v.fault).0;
      SettleIgnoresCount(node, t.ctl, pulled, v.compiledAt, v.stampedAt, failures);
    }
  }

  // ----- a whole pass

  /** The directory when the visit at position `i` begins, if every earlier visit went through. */
  function DiskBefore(node: Node, now: nat, disk: Disk, ts: seq<Tracked>, vs: seq<Visit>, i: nat): Disk
    requires i <= |ts| == |vs|
  {
    if i == 0 then disk
    else VisitSpec(node, now, DiskBefore(node, now, disk, ts, vs, i - 1), ts[i - 1], vs[i - 1]).1
  }

  function VisitAt(node: Node, now: nat, disk: Disk, ts: seq<Tracked>, vs: seq<Visit>, i: nat)
    : (Control, Disk, Result<Unit>)
    requires i < |ts| == |vs|
  {
    VisitSpec(node, now, DiskBefore(node, now, disk, ts, vs, i), ts[i], vs[i])
  }

  /**
   The meaning of a pass that ended after visiting `k` tenants without an error: those took their own
   step, the next one (if any) hit the error and is as it was, and so is everything after it.
   */
  ghost predicate PassOutcome(node: Node, now: nat, disk: Disk, ts: seq<Tracked>, vs: seq<Visit>,
                              k: nat, after: seq<Control>, diskAfter: Disk, r: Result<Unit>)
  {
    && |vs| == |ts| == |after| && k <= |ts|
    && (forall i :: 0 <= i < k ==>
          VisitAt(node, now, disk, ts, vs, i).2.Ok? && after[i] == VisitAt(node, now, disk, ts, vs, i).0)
    && (forall i :: k <= i < |ts| ==> after[i] == ts[i].ctl)
    && (if k == |ts| then r == Ok(Unit) && diskAfter == DiskBefore(node, now, disk, ts, vs, k)
        else r.Err? && VisitAt(node, now, disk, ts, vs, k).2 == r
             && diskAfter == VisitAt(node, now, disk, ts, vs, k).1)
  }

  /** The first `k` visits of a pass are done, and none was an error. */
  ghost predicate PassPrefix(node: Node, now: nat, disk: Disk, ts: seq<Tracked>, vs: seq<Visit>,
                             k: nat, sofar: seq<Control>, diskSofar: Disk)
  {
    && |vs| == |ts| == |sofar| && k <= |ts|
    && (forall i :: 0 <= i < k ==>
          VisitAt(node, now, disk, ts, vs, i).2.Ok? && sofar[i] == VisitAt(node, now, disk, ts, vs, i).0)
    && (forall i :: k <= i < |ts| ==> sofar[i] == ts[i].ctl)
    && diskSofar == DiskBefore(node, now, disk, ts, vs, k)
  }

  lemma VisitErrorKeepsControl(node: Node, now: nat, disk: Disk, t: Tracked, v: Visit)
    requires VisitSpec(node, now, disk, t, v).2.Err?
    ensures VisitSpec(node, now, disk, t, v).0 == t.ctl
  {
  }

  lemma PrefixGrows(node: Node, now: nat, disk: Disk, ts: seq<Tracked>, vs: seq<Visit>,
                    k: nat, sofar: seq<Control>, diskSofar: Disk)
    requires PassPrefix(node, now, disk, ts, vs, k, sofar, diskSofar) && k < |ts|
    requires VisitAt(node, now, disk, ts, vs, k).2.Ok?
    ensures
      var (ctl, diskNext, _) := VisitAt(node, now, disk, ts, vs, k);
      PassPrefix(node, now, disk, ts, vs, k + 1, sofar[k := ctl], diskNext)
  {
    var next := sofar[k := VisitAt(node, now, disk, ts, vs, k).0];
    assert DiskBefore(node, now, disk, ts, vs, k + 1) == VisitAt(node, now, disk, ts, vs, k).1;
    assert forall i :: 0 <= i < k + 1 ==> next[i] == if i == k then VisitAt(node, now, disk, ts, vs, k).0 else sofar[i];
  }

  lemma PassBegins(node: Node, now: nat, disk: Disk, ts: seq<Tracked>, vs: seq<Visit>, start: seq<Control>)
    requires |vs| == |ts| == |start| && forall i :: 0 <= i < |ts| ==> start[i] == ts[i].ctl
    ensures PassPrefix(node, now, disk, ts, vs, 0, start, disk)
  {
  }

  lemma PassEnds(node: Node, now: nat, disk: Disk, ts: seq<Tracked>, vs: seq<Visit>,
                 sofar: seq<Control>, diskSofar: Disk)
    requires PassPrefix(node, now, disk, ts, vs, |ts|, sofar, diskSofar)
    ensures PassOutcome(node, now, disk, ts, vs, |ts|, sofar, diskSofar, Ok(Unit))
  {
  }

  /** A pass is ended by the first visit that is an error. */
  lemma PassAborts(node: Node, now: nat, disk: Disk, ts: seq<Tracked>, vs: seq<Visit>, k: nat, after: seq<Control>)
    returns (diskAfter: Disk, r: Result<Unit>)
    requires |vs| == |ts| == |after| && k < |ts| && VisitAt(node, now, disk, ts, vs, k).2.Err?
    requires forall i :: 0 <= i < k ==>
      VisitAt(node, now, disk, ts, vs, i).2.Ok? && after[i] == VisitAt(node, now, disk, ts, vs, i).0
    requires forall i :: k <= i < |ts| ==> after[i] == ts[i].ctl
    ensures PassOutcome(node, now, disk, ts, vs, k, after, diskAfter, r)
  {
    var visited := VisitAt(node, now, disk, ts, vs, k);
    diskAfter, r := visited.1, visited.2;
  }

  /** One more visit extends the prefix, or ends the pass. */
  lemma PassPrefixStep(node: Node, now: nat, disk: Disk, ts: seq<Tracked>, vs: seq<Visit>,
                       k: nat, sofar: seq<Control>, diskSofar: Disk, visited: (Control, Disk, Result<Unit>))
    requires PassPrefix(node, now, disk, ts, vs, k, sofar, diskSofar) && k < |ts|
    requires visited == VisitSpec(node, now, diskSofar, ts[k], vs[k])
    ensures visited.2.Ok? ==> PassPrefix(node, now, disk, ts, vs, k + 1, sofar[k := visited.0], visited.1)
    ensures visited.2.Err? ==>
      PassOutcome(node, now, disk, ts, vs, k, sofar[k := visited.0], visited.1, visited.2)
  {
    assert VisitAt(node, now, disk, ts, vs, k) == visited;
    if visited.2.Ok? {
      PrefixGrows(node, now, disk, ts, vs, k, sofar, diskSofar);
    } else {
      VisitErrorKeepsControl(node, now, diskSofar, ts[k], vs[k]);
    }
  }

  /** The outcome of a pass is determined: the prefix ends at the first error. */
  lemma PassOutcomeUnique(node: Node, now: nat, disk: Disk, ts: seq<Tracked>, vs: seq<Visit>,
                          k: nat, a: seq<Control>, d: Disk, r: Result<Unit>,
                          k': nat, a': seq<Control>, d': Disk, r': Result<Unit>)
    requires PassOutcome(node, now, disk, ts, vs, k, a, d, r)
    requires PassOutcome(node, now, disk, ts, vs, k', a', d', r')
    ensures k == k' && a == a' && d == d' && r == r'
  {
    assert !(k < k') && !(k' < k);
    assert forall i :: 0 <= i < |a| ==> a[i] == a'[i];
  }

  /** What the pull of the tenant at position `i` comes back with. */
  function PullAt(node: Node, now: nat, disk: Disk, ts: seq<Tracked>, vs: seq<Visit>, i: nat): Result<Loaded>
    requires i < |ts| == |vs| && ts[i].source.Oci?
  {
    PullSpec(node.host, DiskBefore(node, now, disk, ts, vs, i), node.pid, ts[i].source.reference,
             ts[i].source.pin, vs[i].answer, vs[i].fault).0
  }

  lemma DueVisit(node: Node, now: nat, disk: Disk, ts: seq<Tracked>, vs: seq<Visit>, i: nat)
    requires i < |ts| == |vs| && Due(node, now, ts[i])
    ensures
      var visited := VisitAt(node, now, disk, ts, vs, i);
      (visited.0, visited.2) ==
        TurnSpec(node, now, ts[i], Turn(PullAt(node, now, disk, ts, vs, i), vs[i].compiledAt, vs[i].stampedAt))
  {
    VisitMeaning(node, now, DiskBefore(node, now, disk, ts, vs, i), ts[i], vs[i]);
  }

  lemma DueTurn(node: Node, now: nat, t: Tracked, l: Loaded, v: Visit)
    requires Due(node, now, t) && ServesGuests(l.exports) && node.host.compiles(l.bytes)
    ensures
      var (ctl, verdict) := TurnSpec(node, now, t, Turn(Ok(l), v.compiledAt, v.stampedAt));
      && verdict == Ok(Unit) && ctl.active.digest == l.digest && ctl.failures == 0
      && (l.digest != t.ctl.active.digest ==>
            ctl == Control(Generation(l, Component(l.bytes), l.digest, v.compiledAt), 0, v.stampedAt))
  {
    TurnMeaning(node, now, t, Turn(Ok(l), v.compiledAt, v.stampedAt));
  }

  /**
   In a pass, a tenant that is due and whose pull yields a component that serves guests and compiles runs
   the pulled digest afterwards, on a new generation if the digest is new, unless an earlier tenant's error
   ended the pass first.
   */
  lemma DueTenantRunsWhatItPulled(node: Node, now: nat, disk: Disk, ts: seq<Tracked>, vs: seq<Visit>, k: nat,
                                  after: seq<Control>, diskAfter: Disk, r: Result<Unit>, i: nat)
    requires PassOutcome(node, now, disk, ts, vs, k, after, diskAfter, r) && i < |ts| && i <= k
    requires ts[i].source.Oci? && (node.policy.debounce == 0 || ts[i].ctl.lastSwap + node.policy.debounce <= now)
    requires
      var pulled := PullAt(node, now, disk, ts, vs, i);
      pulled.Ok? && ServesGuests(pulled.value.exports) && node.host.compiles(pulled.value.bytes)
    ensures
      var l := PullAt(node, now, disk, ts, vs, i).value;
      && i < k && after[i].active.digest == l.digest && after[i].failures == 0
      && (l.digest != ts[i].ctl.active.digest ==>
            after[i] == Control(Generation(l, Component(l.bytes), l.digest, vs[i].compiledAt), 0, vs[i].stampedAt))
  {
    DueVisit(node, now, disk, ts, vs, i);
    DueTurn(node, now, ts[i], PullAt(node, now, disk, ts, vs, i).value, vs[i]);
  }

  // ----- a pass as turns

  predicate AllTook(node: Node, now: nat, ts: seq<Tracked>, turns: seq<Turn>, after: seq<Control>) {
    && |after| == |ts| == |turns|
    && forall i :: 0 <= i < |ts| ==> TurnSpec(node, now, ts[i], turns[i]) == (after[i], Ok(Unit))
  }

  predicate LastAborted(node: Node, now: nat, ts: seq<Tracked>, turns: seq<Turn>, after: seq<Control>) {
    && |after| == |ts| && 0 < |turns| <= |ts|
    && var k := |turns| - 1;
       && (forall i :: 0 <= i < k ==> TurnSpec(node, now, ts[i], turns[i]) == (after[i], Ok(Unit)))
       && TurnSpec(node, now, ts[k], turns[k]).1.Err?
       && (forall i :: k <= i < |ts| ==> after[i] == ts[i].ctl)
  }

  /** Every tenant took its turn, or the last of the turns was an error that changed nothing and ended the pass. */
  predicate TurnsEnd(node: Node, now: nat, ts: seq<Tracked>, turns: seq<Turn>, after: seq<Control>) {
    AllTook(node, now, ts, turns, after) || LastAborted(node, now, ts, turns, after)
  }

  /** The turns pulled, at their times, what visits one after the other would have pulled. */
  ghost predicate PulledInOrder(node: Node, now: nat, disk: Disk, ts: seq<Tracked>, vs: seq<Visit>, turns: seq<Turn>) {
    && |turns| <= |ts| == |vs|
    && forall i :: 0 <= i < |turns| && !Skipped(node, now, ts[i]) ==>
         && vs[i].compiledAt == turns[i].compiledAt && vs[i].stampedAt == turns[i].stampedAt
         && turns[i].pulled == PullSpec(node.host, DiskBefore(node, now, disk, ts, vs, i), node.pid,
                                        ts[i].source.reference, ts[i].source.pin, vs[i].answer, vs[i].fault).0
  }

  lemma TurnIsVisit(node: Node, now: nat, disk: Disk, ts: seq<Tracked>, vs: seq<Visit>, turns: seq<Turn>, i: nat)
    requires PulledInOrder(node, now, disk, ts, vs, turns) && i < |turns|
    ensures
      var visited := VisitAt(node, now, disk, ts, vs, i);
      TurnSpec(node, now, ts[i], turns[i]) == (visited.0, visited.2)
  {
    if !Skipped(node, now, ts[i]) {
      VisitIsTurn(node, now, DiskBefore(node, now, disk, ts, vs, i), ts[i], vs[i]);
    }
  }

  lemma TurnsAreVisits(node: Node, now: nat, disk: Disk, ts: seq<Tracked>, vs: seq<Visit>, turns: seq<Turn>,
                       k: nat, after: seq<Control>)
    requires PulledInOrder(node, now, disk, ts, vs, turns) && k <= |turns| && |after| == |ts|
    requires forall i :: 0 <= i < k ==> TurnSpec(node, now, ts[i], turns[i]) == (after[i], Ok(Unit))
    ensures forall i :: 0 <= i < k ==>
      VisitAt(node, now, disk, ts, vs, i).2.Ok? && after[i] == VisitAt(node, now, disk, ts, vs, i).0
  {
    forall i | 0 <= i < k
      ensures VisitAt(node, now, disk, ts, vs, i).2.Ok? && after[i] == VisitAt(node, now, disk, ts, vs, i).0
    {
      TurnIsVisit(node, now, disk, ts, vs, turns, i);
    }
  }

  /** Turns that pulled in order, and all went through, have the outcome of the visits. */
  lemma AllTurnsOutcome(node: Node, now: nat, disk: Disk, ts: seq<Tracked>, vs: seq<Visit>, turns: seq<Turn>,
                        after: seq<Control>)
    requires PulledInOrder(node, now, disk, ts, vs, turns) && AllTook(node, now, ts, turns, after)
    ensures PassOutcome(node, now, disk, ts, vs, |ts|, after, DiskBefore(node, now, disk, ts, vs, |ts|), Ok(Unit))
  {
    TurnsAreVisits(node, now, disk, ts, vs, turns, |ts|, after);
    PassEnds(node, now, disk, ts, vs, after, DiskBefore(node, now, disk, ts, vs, |ts|));
  }

  /** So do those of which the last was an error. */
  lemma AbortedTurnsOutcome(node: Node, now: nat, disk: Disk, ts: seq<Tracked>, vs: seq<Visit>, turns: seq<Turn>,
                            k: nat, after: seq<Control>)
    returns (diskAfter: Disk, r: Result<Unit>)
    requires PulledInOrder(node, now, disk, ts, vs, turns) && k + 1 == |turns| && |after| == |ts|
    requires forall i :: 0 <= i < k ==> TurnSpec(node, now, ts[i], turns[i]) == (after[i], Ok(Unit))
    requires TurnSpec(node, now, ts[k], turns[k]).1.Err?
    requires forall i :: k <= i < |ts| ==> after[i] == ts[i].ctl
    ensures PassOutcome(node, now, disk, ts, vs, k, after, diskAfter, r)
  {
    TurnsAreVisits(node, now, disk, ts, vs, turns, k, after);
    TurnIsVisit(node, now, disk, ts, vs, turns, k);
    diskAfter, r := PassAborts(node, now, disk, ts, vs, k, after);
  }

  /** In both cases the turns come to what the visits come to. */
  lemma TurnsOutcome(node: Node, now: nat, disk: Disk, ts: seq<Tracked>, vs: seq<Visit>, turns: seq<Turn>,
                     after: seq<Control>)
    returns (k: nat, diskAfter: Disk, r: Result<Unit>)
    requires PulledInOrder(node, now, disk, ts, vs, turns) && TurnsEnd(node, now, ts, turns, after)
    ensures PassOutcome(node, now, disk, ts, vs, k, after, diskAfter, r)
  {
    if AllTook(node, now, ts, turns, after) {
      AllTurnsOutcome(node, now, disk, ts, vs, turns, after);
      k, diskAfter, r := |ts|, DiskBefore(node, now, disk, ts, vs, |ts|), Ok(Unit);
    } else {
      k := |turns| - 1;
      diskAfter, r := AbortedTurnsOutcome(node, now, disk, ts, vs, turns, k, after);
    }
  }
}
