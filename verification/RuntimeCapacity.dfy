/** How many instances may be alive: bounded by the engine, not by the tenant (`src/runtime/engine.rs`). */
module RuntimeCapacity {
  import opened Base
  import Digests
  import Disk
  import Pool
  import opened Reload
  import opened RuntimeInvariant
  import opened RuntimeOwnership
  import opened RuntimeProtocol
  import opened RuntimeRefinement
  import opened RuntimeSafety
  import Sandbox
  import Tenancy

  // ----- the engine's bound

  lemma SubsetSize(a: set<nat>, b: set<nat>)
    requires a <= b
    ensures |a| <= |b|
  {
    assert b == a + (b - a);
  }

  lemma DropAlive(owner: map<nat, Place>, ids: set<nat>)
    ensures Alive(Drop(owner, ids)) == Alive(owner) - ids
  {
  }

  lemma MoveAlive(owner: map<nat, Place>, id: nat, r: nat)
    ensures Alive(owner[id := InRequest(r)]) == Alive(owner) + {id}
  {
  }

  lemma ReuseKeepsRoom(s: State, r: nat, instantiates: bool)
    requires Wf(s) && Owned(s) && RequestOf(s, r).Snapped?
    requires
      var q := RequestOf(s, r);
      Pool.StalePrefix(s.tenants[q.t].pool, q.gen.loaded.digest) < |s.tenants[q.t].pool|
    ensures |Alive(AcquireStep(s, r, instantiates).owner)| <= |Alive(s.owner)|
  {
    var q := s.requests[r];
    var pool := s.tenants[q.t].pool;
    var k := Pool.StalePrefix(pool, q.gen.loaded.digest);
    DropAlive(s.owner, Serials(pool, k));
    MoveAlive(Drop(s.owner, Serials(pool, k)), pool[k].serial, r);
    PooledIsRecorded(s, q.t, k);
    SubsetSize(Alive(AcquireStep(s, r, instantiates).owner), Alive(s.owner));
  }

  lemma BuildKeepsRoom(node: Node, s: State, r: nat, instantiates: bool)
    requires Wf(s) && RequestOf(s, r).Snapped? && |Alive(s.owner)| <= node.capacity
    requires
      var q := RequestOf(s, r);
      && Pool.StalePrefix(s.tenants[q.t].pool, q.gen.loaded.digest) == |s.tenants[q.t].pool|
      && (instantiates ==> HasRoom(node, s, q.t, q.gen.loaded.digest))
    ensures |Alive(AcquireStep(s, r, instantiates).owner)| <= node.capacity
  {
    var pool := s.tenants[s.requests[r].t].pool;
    var dropped := Drop(s.owner, Serials(pool, |pool|));
    DropAlive(s.owner, Serials(pool, |pool|));
    SubsetSize(Alive(dropped), Alive(s.owner));
    MoveAlive(dropped, s.nextSerial, r);
  }

  /** An acquire builds only where there is room. */
  lemma AcquireKeepsRoom(node: Node, s: State, r: nat, instantiates: bool)
    requires Wf(s) && Owned(s) && RequestOf(s, r).Snapped? && |Alive(s.owner)| <= node.capacity
    requires instantiates ==> HasRoom(node, s, s.requests[r].t, s.requests[r].gen.loaded.digest)
    ensures |Alive(AcquireStep(s, r, instantiates).owner)| <= node.capacity
  {
    var q := s.requests[r];
    if Pool.StalePrefix(s.tenants[q.t].pool, q.gen.loaded.digest) < |s.tenants[q.t].pool| {
      ReuseKeepsRoom(s, r, instantiates);
    } else {
      BuildKeepsRoom(node, s, r, instantiates);
    }
  }

  lemma StepKeepsRoom(node: Node, s: State, e: Event)
    requires Wf(s) && Enabled(node, s, e) && Owned(s) && |Alive(s.owner)| <= node.capacity
    ensures |Alive(Step(node, s, e).owner)| <= node.capacity
  {
    if e.Acquire? {
      AcquireKeepsRoom(node, s, e.r, e.instantiates);
    } else if Moves(s, e) {
      HeldIsRecorded(s, e.r);
      SubsetSize(Alive(Step(node, s, e).owner), Alive(s.owner));
    } else if IsRequestEvent(e) {
      StillRequestStep(node, s, e);
    } else if IsVisit(s, e) {
      VisitIsLocal(node, s, e);
    } else {
      OtherStepShape(node, s, e);
    }
  }

  /** In every run, the instances of all tenants together stay within the engine's capacity. */
  lemma {:induction false} EngineBoundsInstances(node: Node, es: seq<Event>)
    requires Legal(node, START, es)
    ensures |Alive(Exec(node, START, es).owner)| <= node.capacity
    decreases |es|
  {
    if es == [] {
      assert Alive(map[]) == {};
    } else {
      var init := es[..|es| - 1];
      EngineBoundsInstances(node, init);
      Reachable(node, init);
      StepKeepsRoom(node, Exec(node, START, init), es[|es| - 1]);
    }
  }

  // ----- the instances of one tenant

  predicate BelongsTo(s: State, place: Place, t: nat) {
    match place
    case InPool(u) => u == t
    case InRequest(r) => r in s.requests && Holding(s.requests[r]) && s.requests[r].t == t
    case Dropped => false
  }

  /** The instances of the tenant that are alive, idle in its pool or held by its requests. */
  function AliveOf(s: State, t: nat): set<nat> {
    set i | i in s.owner && BelongsTo(s, s.owner[i], t)
  }

  /** Requests of the tenant that hold an instance. */
  function Live(s: State, t: nat): set<nat> {
    set r | r in s.requests && Holding(s.requests[r]) && s.requests[r].t == t
  }

  lemma {:induction false} BeyondAll(ids: set<nat>) returns (beyond: nat)
    ensures forall i :: i in ids ==> i < beyond
  {
    beyond := 0;
    if ids != {} {
      var i :| i in ids;
      var b := BeyondAll(ids - {i});
      beyond := Max(b, i + 1);
      assert forall j :: j in ids ==> j == i || j in ids - {i};
    }
  }

  predicate SameCaps(s: State, s': State) {
    |s'.tenants| == |s.tenants| && forall t :: 0 <= t < |s.tenants| ==> s'.tenants[t].cap == s.tenants[t].cap
  }

  lemma LiveGrows(s: State, snapped: State, s': State, r: nat, t: nat)
    requires t < |s.tenants| && r !in s.requests
    requires snapped == PutRequest(s, r, Snapped(t, s.tenants[t].ctl.active)) && AcquiredAs(snapped, s', r, true)
    ensures Live(s', t) == Live(s, t) + {r} && s'.routes == s.routes && SameCaps(s, s')
  {
    assert s'.requests == s.requests[r := s'.requests[r]] && Holding(s'.requests[r]);
  }

  /** Different requests hold different instances. */
  lemma {:induction false} HeldInstances(s: State, t: nat, rs: set<nat>)
    requires Owned(s) && rs <= Live(s, t)
    ensures (set r | r in rs :: s.requests[r].inst.serial) <= AliveOf(s, t)
    ensures |set r | r in rs :: s.requests[r].inst.serial| == |rs|
  {
    if rs != {} {
      var r :| r in rs;
      HeldInstances(s, t, rs - {r});
      forall q | q in rs
        ensures
          var id := s.requests[q].inst.serial;
          id in s.owner && s.owner[id] == InRequest(q)
      {
        HeldIsRecorded(s, q);
      }
      var rest := set q | q in rs - {r} :: s.requests[q].inst.serial;
      assert (set q | q in rs :: s.requests[q].inst.serial) == rest + {s.requests[r].inst.serial};
    }
  }

  lemma LiveAreAlive(s: State, t: nat)
    requires Owned(s)
    ensures |Live(s, t)| <= |AliveOf(s, t)| <= |Alive(s.owner)|
  {
    HeldInstances(s, t, Live(s, t));
    SubsetSize(set r | r in Live(s, t) :: s.requests[r].inst.serial, AliveOf(s, t));
    SubsetSize(AliveOf(s, t), Alive(s.owner));
  }

  /** With room in the engine, one more instance of any tenant can be acquired. */
  lemma RoomForOne(node: Node, s: State, t: nat, digest: string)
    requires t < |s.tenants| && |Alive(s.owner)| < node.capacity
    ensures HasRoom(node, s, t, digest)
  {
    var k := Pool.StalePrefix(s.tenants[t].pool, digest);
    DropAlive(s.owner, Serials(s.tenants[t].pool, k));
    SubsetSize(Alive(Drop(s.owner, Serials(s.tenants[t].pool, k))), Alive(s.owner));
  }

  lemma AcquireAddsOne(s: State, r: nat, instantiates: bool)
    requires Wf(s) && RequestOf(s, r).Snapped?
    ensures |Alive(AcquireStep(s, r, instantiates).owner)| <= |Alive(s.owner)| + 1
  {
    var q := s.requests[r];
    var pool := s.tenants[q.t].pool;
    var k := Pool.StalePrefix(pool, q.gen.loaded.digest);
    DropAlive(s.owner, Serials(pool, k));
    var added := if k < |pool| then pool[k].serial else s.nextSerial;
    SubsetSize(Alive(AcquireStep(s, r, instantiates).owner), Alive(s.owner) + {added});
  }

  /** One more request arrives and is given an instance, pooled or new. */
  lemma OneMoreLeads(node: Node, from: State, es: seq<Event>, s: State, id: string)
    returns (es': seq<Event>, s': State)
    requires Leads(node, from, es, s) && id in s.routes && |Alive(s.owner)| < node.capacity
    ensures Leads(node, from, es', s') && s'.routes == s.routes && SameCaps(s, s')
    ensures |Alive(s'.owner)| <= |Alive(s.owner)| + 1
    ensures |Live(s', s.routes[id])| == |Live(s, s.routes[id])| + 1
  {
    var r := BeyondAll(s.requests.Keys);
    var snapped;
    es', snapped := ArriveLeads(node, from, es, s, r, id);
    RoomForOne(node, snapped, s.routes[id], snapped.requests[r].gen.loaded.digest);
    es', s' := AcquireLeads(node, from, es', snapped, r, true);
    LiveGrows(s, snapped, s', r, s.routes[id]);
    AcquireAddsOne(snapped, r, true);
  }

  lemma {:induction false} ManyLead(node: Node, from: State, es: seq<Event>, s: State, id: string, n: nat)
    returns (es': seq<Event>, s': State)
    requires Leads(node, from, es, s) && id in s.routes && |Alive(s.owner)| + n <= node.capacity
    ensures Leads(node, from, es', s') && s'.routes == s.routes && SameCaps(s, s')
    ensures |Alive(s'.owner)| <= |Alive(s.owner)| + n
    ensures |Live(s', s.routes[id])| == |Live(s, s.routes[id])| + n
  {
    es', s' := es, s;
    if n > 0 {
      es', s' := ManyLead(node, from, es, s, id, n - 1);
      es', s' := OneMoreLeads(node, from, es', s', id);
    }
  }

  /**
   A tenant's capacity does not bound its live instances: from every reachable state in which it is
   registered, requests of that tenant alone can take up whatever room the engine has left. Its pool keeps
   to the capacity all the same.
   */
  lemma OneTenantCanTakeAllRoom(node: Node, past: seq<Event>, id: string, n: nat)
    returns (es: seq<Event>, s: State)
    requires Legal(node, START, past) && id in Exec(node, START, past).routes
    requires |Alive(Exec(node, START, past).owner)| + n <= node.capacity
    ensures Leads(node, START, es, s)
    ensures
      var before := Exec(node, START, past);
      var t := before.routes[id];
      && t < |s.tenants| && |Live(s, t)| == |Live(before, t)| + n
      && |s.tenants[t].pool| <= s.tenants[t].cap
  {
    var before := Exec(node, START, past);
    es, s := ManyLead(node, START, past, before, id, n);
    Reachable(node, es);
    assert PoolServes(s.tenants[before.routes[id]]);
  }

  // ----- when a tenant's capacity is a bound after all

  lemma WithinCapacity(node: Node, es: seq<Event>, t: nat)
    requires Legal(node, START, es)
    ensures |AliveOf(Exec(node, START, es), t)| <= node.capacity
  {
    Reachable(node, es);
    EngineBoundsInstances(node, es);
    LiveAreAlive(Exec(node, START, es), t);
  }

  lemma LoadedFirst(node: Node, cfg: Tenancy.TenantConfig, v: Visit, file: Option<Digests.Blob>, scratch: Sandbox.MemFs)
    returns (es: seq<Event>, s: State)
    requires LoadSpec(node, Disk.EMPTY, cfg, true, v, file).0.Ok?
    ensures Leads(node, START, es, s) && cfg.name in s.routes && s.routes[cfg.name] == 0
    ensures |s.tenants| == 1 && s.tenants[0].cap == Max(cfg.limits.maxInstances, 1) && Alive(s.owner) == {}
  {
    es, s := LoadIsRun(node, START, cfg, true, v.(compiledAt := 0), file, scratch);
  }

  /** A run that loads the tenant first and then gives its requests one instance more than its capacity. */
  lemma OverCapacityRun(node: Node, cfg: Tenancy.TenantConfig, v: Visit, file: Option<Digests.Blob>,
                        scratch: Sandbox.MemFs)
    returns (es: seq<Event>, s: State)
    requires LoadSpec(node, Disk.EMPTY, cfg, true, v, file).0.Ok?
    requires node.capacity > Max(cfg.limits.maxInstances, 1)
    ensures Leads(node, START, es, s)
    ensures |s.tenants| > 0 && s.tenants[0].cap == Max(cfg.limits.maxInstances, 1) && |AliveOf(s, 0)| > s.tenants[0].cap
  {
    var loaded;
    es, loaded := LoadedFirst(node, cfg, v, file, scratch);
    es, s := ManyLead(node, START, es, loaded, cfg.name, Max(cfg.limits.maxInstances, 1) + 1);
    Reachable(node, es);
    LiveAreAlive(s, 0);
  }

  lemma AllWithinCapacity(node: Node)
    ensures forall es: seq<Event>, t: nat :: Legal(node, START, es) ==>
      |AliveOf(Exec(node, START, es), t)| <= node.capacity
  {
    forall es: seq<Event>, t: nat | Legal(node, START, es)
      ensures |AliveOf(Exec(node, START, es), t)| <= node.capacity
    {
      WithinCapacity(node, es, t);
    }
  }

  /**
   For a tenant that can be loaded at all: the instances of tenants with its capacity stay within that
   capacity in every run, idle or live, if and only if the engine has no more room than that. Validation
   clamps a tenant's capacity to the engine's, so this means that the two are equal.
   */
  lemma CapacityBoundsInstancesIff(node: Node, cfg: Tenancy.TenantConfig, v: Visit, file: Option<Digests.Blob>,
                                   scratch: Sandbox.MemFs)
    requires LoadSpec(node, Disk.EMPTY, cfg, true, v, file).0.Ok?
    ensures
      var cap := Max(cfg.limits.maxInstances, 1);
      (forall es: seq<Event>, t: nat ::
         Legal(node, START, es) && t < |Exec(node, START, es).tenants| && Exec(node, START, es).tenants[t].cap == cap
         ==> |AliveOf(Exec(node, START, es), t)| <= cap)
      <==> node.capacity <= cap
  {
    if node.capacity <= Max(cfg.limits.maxInstances, 1) {
      AllWithinCapacity(node);
    } else {
      var es, s := OverCapacityRun(node, cfg, v, file, scratch);
      assert |AliveOf(Exec(node, START, es), 0)| > Max(cfg.limits.maxInstances, 1);
    }
  }
}
