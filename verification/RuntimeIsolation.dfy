/** Tenants are kept apart: by name, and by scratch space. */
module RuntimeIsolation {
  import opened Reload
  import opened RuntimeInvariant
  import opened RuntimeProtocol
  import RuntimeSafety

  /** Routes lead to the tenants they name, and no two tenants share a scratch filesystem. */
  ghost predicate Apart(s: State)
    requires Wf(s)
  {
    && (forall id :: id in s.routes ==> s.tenants[s.routes[id]].sandbox.tenant == id)
    && (forall t, u :: 0 <= t < u < |s.tenants| ==>
          s.tenants[t].sandbox.scratch != s.tenants[u].sandbox.scratch)
  }

  /** A load adds at most one tenant, under its configured name and with a scratch space of its own. */
  lemma LoadShape(node: Node, s: State, e: Event)
    requires Wf(s) && Enabled(node, s, e) && e.LoadDone?
    ensures
      var s' := Step(node, s, e);
      || (s'.tenants == s.tenants && s'.routes == s.routes)
      || (|s'.tenants| == |s.tenants| + 1 && s.tenants <= s'.tenants
          && s'.routes == s.routes[s.fetch.task.cfg.name := |s.tenants|]
          && s'.tenants[|s.tenants|].sandbox.tenant == s.fetch.task.cfg.name
          && s'.tenants[|s.tenants|].sandbox.scratch == e.scratch)
  {
  }

  lemma LoadKeepsApart(node: Node, s: State, e: Event)
    requires Wf(s) && Enabled(node, s, e) && Apart(s) && e.LoadDone?
    requires Wf(Step(node, s, e))
    ensures Apart(Step(node, s, e))
  {
    LoadShape(node, s, e);
  }

  lemma RoutesStay(node: Node, s: State, e: Event)
    requires Wf(s) && Enabled(node, s, e) && !e.LoadDone?
    ensures Step(node, s, e).routes == s.routes && |Step(node, s, e).tenants| == |s.tenants|
  {
    if IsRequestEvent(e) {
      RequestsLeaveReloadingAlone(node, s, e);
    }
  }

  lemma {:induction false} RunKeepsApart(node: Node, es: seq<Event>)
    requires Legal(node, START, es)
    ensures Apart(Exec(node, START, es))
    decreases |es|
  {
    if es != [] {
      var init, e := es[..|es| - 1], es[|es| - 1];
      RunKeepsApart(node, init);
      var s := Exec(node, START, init);
      if e.LoadDone? {
        StepKeepsWf(node, s, e);
        LoadKeepsApart(node, s, e);
      } else {
        RoutesStay(node, s, e);
        StepGrows(node, s, e);
      }
    }
  }

  /** The name of the tenant a request is in. */
  function TenantName(s: State, r: nat): string {
    var q := RequestOf(s, r);
    if !q.Gone? && q.t < |s.tenants| then s.tenants[q.t].sandbox.tenant else ""
  }

  lemma LookupFindsNamed(node: Node, s: State, e: Event)
    requires Wf(s) && Enabled(node, s, e) && Apart(s) && e.Lookup?
    requires !RequestOf(Step(node, s, e), e.r).Gone?
    ensures TenantName(Step(node, s, e), e.r) == e.id
  {
  }

  lemma TenantKeptByActor(node: Node, s: State, e: Event)
    requires Wf(s) && Enabled(node, s, e) && IsRequestEvent(e) && !e.Lookup?
    requires !RequestOf(Step(node, s, e), e.r).Gone?
    ensures !RequestOf(s, e.r).Gone? && RequestOf(s, e.r).t == RequestOf(Step(node, s, e), e.r).t
  {
  }

  /** A request stays with its tenant until it is gone. */
  lemma TenantKept(node: Node, s: State, e: Event, r: nat)
    requires Wf(s) && Enabled(node, s, e) && !RequestOf(Step(node, s, e), r).Gone?
    requires !(e.Lookup? && e.r == r)
    ensures !RequestOf(s, r).Gone? && RequestOf(s, r).t == RequestOf(Step(node, s, e), r).t
  {
    if IsRequestEvent(e) && e.r == r {
      TenantKeptByActor(node, s, e);
    } else {
      RuntimeSafety.OtherRequestsStay(node, s, e, r);
    }
  }

  lemma NameStays(node: Node, s: State, e: Event, r: nat)
    requires Wf(s) && Enabled(node, s, e) && !RequestOf(Step(node, s, e), r).Gone?
    requires !(e.Lookup? && e.r == r)
    ensures !RequestOf(s, r).Gone? && TenantName(Step(node, s, e), r) == TenantName(s, r)
  {
    TenantKept(node, s, e, r);
    StepGrows(node, s, e);
  }

  lemma LookupAtEnd(node: Node, es: seq<Event>)
    requires Legal(node, START, es) && es != [] && es[|es| - 1].Lookup?
    requires !RequestOf(Exec(node, START, es), es[|es| - 1].r).Gone?
    ensures TenantName(Exec(node, START, es), es[|es| - 1].r) == es[|es| - 1].id
  {
    RunKeepsApart(node, es[..|es| - 1]);
    LookupFindsNamed(node, Exec(node, START, es[..|es| - 1]), es[|es| - 1]);
  }

  lemma NameStaysAtEnd(node: Node, es: seq<Event>, r: nat)
    requires Legal(node, START, es) && es != [] && !RequestOf(Exec(node, START, es), r).Gone?
    requires !(es[|es| - 1].Lookup? && es[|es| - 1].r == r)
    ensures
      var before := Exec(node, START, es[..|es| - 1]);
      !RequestOf(before, r).Gone? && TenantName(Exec(node, START, es), r) == TenantName(before, r)
  {
    NameStays(node, Exec(node, START, es[..|es| - 1]), es[|es| - 1], r);
  }

  /** A request not yet gone was looked up under the name of the tenant it is in. */
  lemma {:induction false} LookedUpByName(node: Node, es: seq<Event>, r: nat) returns (i: nat)
    requires Legal(node, START, es) && !RequestOf(Exec(node, START, es), r).Gone?
    ensures i < |es| && es[i].Lookup? && es[i].r == r && es[i].id == TenantName(Exec(node, START, es), r)
    decreases |es|
  {
    if es[|es| - 1].Lookup? && es[|es| - 1].r == r {
      LookupAtEnd(node, es);
      i := |es| - 1;
    } else {
      NameStaysAtEnd(node, es, r);
      i := LookedUpByName(node, es[..|es| - 1], r);
    }
  }

  /**
   In every interleaving, a request that reached an instance reached one of the tenant it asked for: the
   instance carries that tenant's name, sees that tenant's configuration and limits, reads and writes that
   tenant's scratch space, and no other tenant's.
   */
  lemma RequestsStayInTheirTenant(node: Node, es: seq<Event>, r: nat)
    requires Legal(node, START, es)
    requires
      var q := RequestOf(Exec(node, START, es), r);
      !q.Gone? && !q.Found? && !q.Snapped?
    ensures
      var s := Exec(node, START, es);
      var q := RequestOf(s, r);
      && q.t < |s.tenants| && q.inst.ctx.tenant == s.tenants[q.t].sandbox.tenant
      && q.inst.ctx.config == s.tenants[q.t].sandbox.config
      && q.inst.ctx.sandbox.limits == s.tenants[q.t].sandbox.limits
      && (exists i :: 0 <= i < |es| && es[i] == Lookup(r, q.inst.ctx.tenant))
      && (forall u :: 0 <= u < |s.tenants| ==>
            (q.inst.ctx.sandbox.scratch == s.tenants[u].sandbox.scratch <==> u == q.t))
  {
    RuntimeSafety.Reachable(node, es);
    var s := Exec(node, START, es);
    assert RequestServes(s, s.requests[r]);
    RunKeepsApart(node, es);
    var i := LookedUpByName(node, es, r);
    assert es[i] == Lookup(r, s.requests[r].inst.ctx.tenant);
  }
}
