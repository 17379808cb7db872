/** The runtime facade as it runs sequentially (`src/runtime.rs`, `invoke` in `src/runtime/invoke.rs`). */
module Runtime {
  import opened Base
  import Digests
  import opened Disk
  import opened Distribution
  import Linker
  import opened Loader
  import opened Pool
  import opened Reload
  import opened Sandbox
  import opened Tenancy

  class Tenant {
    const source: ComponentSource
    const sandbox: Sandbox
    const pool: InstancePool
    var active: Generation
    var failures: nat
    var invocations: nat
    var lastSwap: nat

    constructor (source: ComponentSource, sandbox: Sandbox, pool: InstancePool, active: Generation, now: nat)
      ensures this.source == source && this.sandbox == sandbox && this.pool == pool
      ensures Ctl() == Control(active, 0, now) && invocations == 0
    {
      this.source := source;
      this.sandbox := sandbox;
      this.pool := pool;
      this.active := active;
      this.failures := 0;
      this.invocations := 0;
      this.lastSwap := now;
    }

    function Ctl(): Control
      reads this`active, this`failures, this`lastSwap
    {
      Control(active, failures, lastSwap)
    }
  }

  function Tracks(order: seq<Tenant>): (r: seq<Tracked>)
    reads order
    ensures |r| == |order|
    ensures forall i :: 0 <= i < |order| ==> r[i] == Tracked(order[i].source, order[i].Ctl())
  {
    seq(|order|, i requires 0 <= i < |order| reads order => Tracked(order[i].source, order[i].Ctl()))
  }

  function Controls(order: seq<Tenant>): (r: seq<Control>)
    reads order
    ensures |r| == |order|
    ensures forall i :: 0 <= i < |order| ==> r[i] == order[i].Ctl()
  {
    seq(|order|, i requires 0 <= i < |order| reads order => order[i].Ctl())
  }

  /** What the outside world contributes to a pass, by position. */
  function Visits(order: seq<Tenant>, visit: nat -> Visit): (r: seq<Visit>)
    ensures |r| == |order| && forall i :: 0 <= i < |order| ==> r[i] == visit(i)
  {
    seq(|order|, i requires 0 <= i < |order| => visit(i))
  }

  class Runtime {
    const policy: HotReloadPolicy
    const registry: Registry
    const capacity: nat
    var tenants: map<string, Tenant>

    constructor (policy: HotReloadPolicy, registry: Registry, capacity: nat)
      ensures this.policy == policy && this.registry == registry && this.capacity == capacity
      ensures tenants == map[] && Valid()
    {
      this.policy := policy;
      this.capacity := capacity;
      this.registry := registry;
      this.tenants := map[];
    }

    function TheNode(): Node {
      Node(registry.oci.store.host, policy, registry.oci.store.pid, capacity)
    }

    /** Ids are served by different tenant objects, each with a pool and a scratch filesystem of its own. */
    ghost predicate Valid()
      reads this
    {
      forall a, b :: a in tenants && b in tenants && a != b ==>
        && tenants[a] != tenants[b] && tenants[a].pool != tenants[b].pool
        && tenants[a].sandbox.scratch != tenants[b].sandbox.scratch
    }

    /** Every tenant once, in no particular order. */
    method SnapshotTenants() returns (order: seq<Tenant>)
      requires Valid()
      ensures forall t :: t in order <==> t in tenants.Values
      ensures forall i, j :: 0 <= i < j < |order| ==> order[i] != order[j]
    {
      order := [];
      var left := tenants.Keys;
      while left != {}
        invariant left <= tenants.Keys
        invariant forall t :: t in order ==> exists id :: id in tenants && id !in left && tenants[id] == t
        invariant forall id :: id in tenants && id !in left ==> tenants[id] in order
        invariant forall i, j :: 0 <= i < j < |order| ==> order[i] != order[j]
      {
        var id :| id in left;
        assert tenants[id] !in order;
        order := order + [tenants[id]];
        left := left - {id};
      }
    }

    /** Compiles first, so that a component that does not compile leaves the tenant as it was. */
    method Swap(tenant: Tenant, loaded: Loaded, compiledAt: nat, stampedAt: nat) returns (r: Result<Unit>)
      modifies tenant`active, tenant`lastSwap, tenant`failures
      ensures
        if registry.oci.store.host.compiles(loaded.bytes) then
          && r == Ok(Unit)
          && tenant.Ctl() ==
             Control(Generation(loaded, Component(loaded.bytes), loaded.digest, compiledAt), 0, stampedAt)
        else r == Err(Wasm) && tenant.Ctl() == old(tenant.Ctl())
    {
      var compiled := Compile(registry.oci.store.host, loaded.bytes);
      if compiled.Err? {
        return Err(compiled.error);
      }
      tenant.active := Generation(loaded, compiled.value, loaded.digest, compiledAt);
      tenant.lastSwap := stampedAt;
      tenant.failures := 0;
      return Ok(Unit);
    }

    /** One tenant's turn in a pass. */
    method VisitTenant(tenant: Tenant, now: nat, v: Visit) returns (r: Result<Unit>)
      modifies tenant`active, tenant`lastSwap, tenant`failures, registry.oci.store`disk
      ensures (tenant.Ctl(), registry.oci.store.disk, r) ==
        VisitSpec(TheNode(), now, old(registry.oci.store.disk), old(Tracked(tenant.source, tenant.Ctl())), v)
    {
      if tenant.source.File? {
        return Ok(Unit);
      }
      if policy.Debounced(now, tenant.lastSwap) {
        return Ok(Unit);
      }
      var pulled := registry.Pull(tenant.source.reference, tenant.source.pin, v.answer, v.fault);
      match pulled
      case Ok(loaded) =>
        var checked := EnsureContract(loaded);
        if checked.Err? {
          return checked;
        }
        if policy.ShouldReload(Some(tenant.active.digest), loaded.digest) {
          var swapped := Swap(tenant, loaded, v.compiledAt, v.stampedAt);
          if swapped.Err? {
            return swapped;
          }
        }
        tenant.failures := 0;
        return Ok(Unit);
      case Err(_) =>
        tenant.failures := tenant.failures + 1;
        return Ok(Unit);
    }

    /** The turn of the tenant at position `k` of a snapshot; the others keep theirs. */
    method VisitPosition(order: seq<Tenant>, k: nat, tenant: Tenant, now: nat, v: Visit) returns (r: Result<Unit>)
      requires forall i, j :: 0 <= i < j < |order| ==> order[i] != order[j]
      requires k < |order| && order[k] == tenant
      modifies tenant`active, tenant`lastSwap, tenant`failures, registry.oci.store`disk
      ensures
        var visited := VisitSpec(TheNode(), now, old(registry.oci.store.disk), old(Tracks(order))[k], v);
        && r == visited.2 && registry.oci.store.disk == visited.1
        && Controls(order) == old(Controls(order))[k := visited.0]
    {
      ghost var before := Controls(order);
      r := VisitTenant(tenant, now, v);
      assert Controls(order) == before[k := tenant.Ctl()];
    }

    /** The loop of a pass over the tenants of a snapshot. */
    method PollTenants(order: seq<Tenant>, now: nat, visit: nat -> Visit) returns (r: Result<Unit>, k: nat)
      requires forall i, j :: 0 <= i < j < |order| ==> order[i] != order[j]
      modifies (set t | t in order)`active, (set t | t in order)`lastSwap, (set t | t in order)`failures
      modifies registry.oci.store`disk
      ensures PassOutcome(TheNode(), now, old(registry.oci.store.disk), old(Tracks(order)), Visits(order, visit),
                          k, Controls(order), registry.oci.store.disk, r)
    {
      ghost var vs := Visits(order, visit);
      ghost var ts := Tracks(order);
      ghost var disk := registry.oci.store.disk;
      k := 0;
      PassBegins(TheNode(), now, disk, ts, vs, Controls(order));
      while k < |order|
        invariant k <= |order|
        invariant PassPrefix(TheNode(), now, disk, ts, vs, k, Controls(order), registry.oci.store.disk)
      {
        ghost var before, diskBefore := Controls(order), registry.oci.store.disk;
        assert Tracks(order)[k] == ts[k];
        var visited := VisitPosition(order, k, order[k], now, visit(k));
        PassPrefixStep(TheNode(), now, disk, ts, vs, k, before, diskBefore,
                       VisitSpec(TheNode(), now, diskBefore, ts[k], vs[k]));
        if visited.Err? {
          return visited, k;
        }
        k := k + 1;
      }
      PassEnds(TheNode(), now, disk, ts, vs, Controls(order), registry.oci.store.disk);
      return Ok(Unit), k;
    }

    /**
     One reload pass. The outcome is that of the fold over the snapshot `ts`: up to some position every
     tenant took its own step, an error of the next one ends the pass, and nothing after it changed.
     */
    method PollOnce(now: nat, visit: nat -> Visit)
      returns (r: Result<Unit>, order: seq<Tenant>, k: nat, ts: seq<Tracked>)
      requires Valid()
      modifies tenants.Values`active, tenants.Values`lastSwap, tenants.Values`failures, registry.oci.store`disk
      ensures forall t :: t in order <==> t in tenants.Values
      ensures forall i, j :: 0 <= i < j < |order| ==> order[i] != order[j]
      ensures |ts| == |order| && forall id, i :: id in tenants && 0 <= i < |order| && order[i] == tenants[id] ==>
        ts[i] == Tracked(tenants[id].source, old(tenants[id].Ctl()))
      ensures PassOutcome(TheNode(), now, old(registry.oci.store.disk), ts, Visits(order, visit),
                          k, Controls(order), registry.oci.store.disk, r)
    {
      order := SnapshotTenants();
      ts := Tracks(order);
      r, k := PollTenants(order, now, visit);
    }

    /** The artifact of a new tenant. */
    method FetchArtifact(source: ComponentSource, v: Visit, file: Option<Digests.Blob>) returns (r: Result<Loaded>)
      modifies registry.oci.store`disk
      ensures (r, registry.oci.store.disk) ==
        Artifact(TheNode(), old(registry.oci.store.disk), source, v.answer, v.fault, file)
    {
      match source
      case Oci(reference, pin) =>
        r := registry.Pull(reference, pin, v.answer, v.fault);
      case File(path) =>
        if file.None? {
          return Err(InvalidComponent);
        }
        r := FromBytes(registry.oci.store.host, path, file.value);
    }

    /** Everything about a new tenant that can fail: its id, its sandbox, its bridge and its first generation. */
    method PrepareTenant(cfg: TenantConfig, bridged: bool, v: Visit, file: Option<Digests.Blob>)
      returns (r: Result<Generation>, sandbox: Option<Sandbox>)
      requires cfg.limits.memfsQuotaBytes < TWO_64
      modifies registry.oci.store`disk
      ensures (r, registry.oci.store.disk) ==
        LoadSpec(TheNode(), old(registry.oci.store.disk), cfg, bridged, v, file)
      ensures r.Ok? ==>
        && sandbox.Some? && fresh(sandbox.value.scratch) && sandbox.value.tenant == cfg.name
        && sandbox.value.limits == cfg.limits && sandbox.value.config == cfg.config
        && sandbox.value.scratch.files == map[] && sandbox.value.scratch.quota == cfg.limits.memfsQuotaBytes
    {
      sandbox := None;
      var id := NewTenantId(cfg.name);
      if id.Err? {
        return Err(id.error), sandbox;
      }
      var made := NewSandbox(id.value, cfg.limits, cfg.config);
      if made.Err? {
        return Err(made.error), sandbox;
      }
      sandbox := Some(made.value);
      if !bridged {
        return Err(Error.Config), sandbox;
      }
      var loaded := FetchArtifact(cfg.component, v, file);
      if loaded.Err? {
        return Err(loaded.error), sandbox;
      }
      var checked := EnsureContract(loaded.value);
      if checked.Err? {
        return Err(checked.error), sandbox;
      }
      r := MakeGeneration(registry.oci.store.host, loaded.value, v.compiledAt);
    }

    /** The tenant's record is made and put under its name. */
    method Register(cfg: TenantConfig, sandbox: Sandbox, active: Generation, now: nat)
      requires Valid() && forall id :: id in tenants ==> tenants[id].sandbox.scratch != sandbox.scratch
      modifies this`tenants
      ensures Valid() && cfg.name in tenants
      ensures
        var t := tenants[cfg.name];
        && tenants == old(tenants)[cfg.name := t] && fresh(t) && fresh(t.pool)
        && t.source == cfg.component && t.sandbox == sandbox
        && t.pool.queue == [] && t.pool.cap == Max(cfg.limits.maxInstances, 1)
        && t.Ctl() == Control(active, 0, now) && t.invocations == 0
    {
      var pool := new InstancePool(cfg.limits.maxInstances);
      var tenant := new Tenant(cfg.component, sandbox, pool, active, now);
      tenants := tenants[cfg.name := tenant];
    }

    /**
     Registers a tenant with its first generation, or changes no tenant. `bridged` says whether the egress
     bridge could be built. With it, a validated configuration cannot fail on the tenant's id or limits.
     */
    method LoadTenant(cfg: TenantConfig, bridged: bool, v: Visit, file: Option<Digests.Blob>) returns (r: Result<Unit>)
      requires Valid() && cfg.limits.memfsQuotaBytes < TWO_64
      modifies this`tenants, registry.oci.store`disk
      ensures Valid()
      ensures
        var (gen, disk) := LoadSpec(TheNode(), old(registry.oci.store.disk), cfg, bridged, v, file);
        && registry.oci.store.disk == disk
        && (match gen
            case Err(e) => r == Err(e) && tenants == old(tenants)
            case Ok(g) =>
              && r.Ok? && cfg.name in tenants
              && var t := tenants[cfg.name];
                 && tenants == old(tenants)[cfg.name := t] && fresh(t) && fresh(t.pool) && fresh(t.sandbox.scratch)
                 && t.source == cfg.component && t.sandbox.tenant == cfg.name && t.sandbox.limits == cfg.limits
                 && t.sandbox.config == cfg.config && t.sandbox.scratch.files == map[]
                 && t.sandbox.scratch.quota == cfg.limits.memfsQuotaBytes
                 && t.pool.queue == [] && t.pool.cap == Max(cfg.limits.maxInstances, 1)
                 && t.Ctl() == Control(g, 0, v.stampedAt) && t.invocations == 0)
      ensures r.Err? && MayBeLoaded(cfg) && bridged ==> r.error !in {Error.Config, LimitExceeded}
      ensures DiskOk(TheNode().host, old(registry.oci.store.disk)) ==>
        && DiskOk(TheNode().host, registry.oci.store.disk)
        && (r.Ok? ==>
              && GenerationOk(TheNode().host, tenants[cfg.name].active)
              && RespectsPin(cfg.component, tenants[cfg.name].active.digest))
    {
      LoadMeaning(TheNode(), registry.oci.store.disk, cfg, bridged, v, file);
      LoadableMeaning(cfg);
      var active, sandbox := PrepareTenant(cfg, bridged, v, file);
      if active.Err? {
        return Err(active.error);
      }
      Register(cfg, sandbox.value, active.value, v.stampedAt);
      return Ok(Unit);
    }

    /**
     One request: unknown tenants are refused, others serve from their own pool and sandbox, and only a
     request that was served is counted. Reloading state is not touched. `hosted` is the outcome of building
     the host context, which happens before the pool is looked at.
     */
    method Invoke(id: string, converts: bool, hosted: Result<Unit>, instantiates: bool, call: CallOutcome,
                  serial: nat)
      returns (r: Result<Prepared>)
      modifies if id in tenants then {tenants[id].pool} else {}
      modifies if id in tenants then {tenants[id]} else {}
      ensures id !in tenants ==> r == Err(TenantNotFound)
      ensures id in tenants ==>
        var t := tenants[id];
        var built := Prepared(t.active.loaded.digest, Linker.NewHostCtx(t.sandbox), t.active.compiled, serial);
        var ready := if converts then hosted else Err(Http);
        && (r, t.pool.queue) == Serve(old(tenants[id].pool.queue), t.pool.cap, built, ready, instantiates, call)
        && t.invocations == old(tenants[id].invocations) + (if r.Ok? then 1 else 0)
        && t.Ctl() == old(tenants[id].Ctl())
    {
      if id !in tenants {
        return Err(TenantNotFound);
      }
      var tenant := tenants[id];
      var active := tenant.active;
      if !converts {
        return Err(Http);
      }
      if hosted.Err? {
        return Err(hosted.error);
      }
      var prepared := tenant.pool.Acquire(active.compiled, active.loaded, Linker.NewHostCtx(tenant.sandbox),
                                          instantiates, serial);
      if prepared.Err? {
        return prepared;
      }
      match call
      case Traps => return Err(Wasm);
      case TimesOut => return Err(LimitExceeded);
      case Returns =>
        tenant.pool.Release(prepared.value);
        tenant.invocations := tenant.invocations + 1;
        return prepared;
    }
  }
}
