/** Every instance ever built is in exactly one place. */
module RuntimeOwnership {
  import opened Pool
  import opened Reload
  import opened RuntimeInvariant
  import opened RuntimeProtocol

  function SerialSet(queue: seq<Prepared>): set<nat> {
    Serials(queue, |queue|)
  }

  /** No serial occurs twice in a queue. */
  predicate DistinctSerials(queue: seq<Prepared>) {
    forall i, j :: 0 <= i < j < |queue| ==> queue[i].serial != queue[j].serial
  }

  /** The instances really in a pool or a request. */
  function Contents(s: State, place: Place): set<nat> {
    match place
    case InPool(t) => if t < |s.tenants| then SerialSet(s.tenants[t].pool) else {}
    case InRequest(r) =>
      if r in s.requests && Holding(s.requests[r]) then {s.requests[r].inst.serial} else {}
    case Dropped => {}
  }

  /** The instances recorded at a place. */
  function RecordedAt(owner: map<nat, Place>, place: Place): set<nat> {
    set id | id in owner && owner[id] == place
  }

  /**
   The record covers exactly the instances built so far, every pool and every request contains exactly
   the instances recorded there, and no pool holds an instance twice.
   */
  ghost predicate Owned(s: State) {
    && (forall id: nat :: id in s.owner <==> id < s.nextSerial)
    && (forall p: Place :: !p.Dropped? ==> Contents(s, p) == RecordedAt(s.owner, p))
    && (forall t :: 0 <= t < |s.tenants| ==> DistinctSerials(s.tenants[t].pool))
  }

  /** A step that touches neither pools, nor the record, nor what any request holds. */
  lemma UntouchedKeepsOwned(s: State, s': State)
    requires Owned(s) && s'.owner == s.owner && s'.nextSerial == s.nextSerial
    requires |s.tenants| <= |s'.tenants|
    requires forall t :: 0 <= t < |s.tenants| ==> s'.tenants[t].pool == s.tenants[t].pool
    requires forall t :: |s.tenants| <= t < |s'.tenants| ==> s'.tenants[t].pool == []
    requires forall r :: Contents(s', InRequest(r)) == Contents(s, InRequest(r))
    ensures Owned(s')
  {
    forall p: Place | !p.Dropped? ensures Contents(s', p) == RecordedAt(s'.owner, p) {
      assert Contents(s, p) == RecordedAt(s.owner, p);
    }
  }

  // ----- how the record changes

  lemma DropRecord(owner: map<nat, Place>, ids: set<nat>, p: Place)
    requires !p.Dropped?
    ensures RecordedAt(Drop(owner, ids), p) == RecordedAt(owner, p) - ids
  {
  }

  lemma MoveRecord(owner: map<nat, Place>, id: nat, to: Place, p: Place)
    ensures RecordedAt(owner[id := to], p) ==
      if p == to then RecordedAt(owner, p) + {id} else RecordedAt(owner, p) - {id}
  {
  }

  // ----- the steps that move instances

  /** Taking the `k`-th instance out of a queue leaves the later ones; the earlier ones are dropped. */
  lemma SplitSerials(queue: seq<Prepared>, k: nat)
    requires DistinctSerials(queue) && k < |queue|
    ensures SerialSet(queue[k + 1..]) == SerialSet(queue) - Serials(queue, k) - {queue[k].serial}
    ensures queue[k].serial in SerialSet(queue) && queue[k].serial !in Serials(queue, k)
    ensures Serials(queue, k) <= SerialSet(queue)
    ensures DistinctSerials(queue[k + 1..])
  {
    var rest := queue[k + 1..];
    assert forall j :: 0 <= j < |rest| ==> rest[j] == queue[k + 1 + j];
    forall id | id in SerialSet(queue) - Serials(queue, k) - {queue[k].serial} ensures id in SerialSet(rest) {
      var j :| 0 <= j < |queue| && queue[j].serial == id;
      assert rest[j - k - 1].serial == id;
    }
  }

  lemma AppendSerial(queue: seq<Prepared>, p: Prepared)
    requires DistinctSerials(queue) && p.serial !in SerialSet(queue)
    ensures SerialSet(queue + [p]) == SerialSet(queue) + {p.serial}
    ensures DistinctSerials(queue + [p])
  {
    var longer := queue + [p];
    forall id | id in SerialSet(queue) + {p.serial} ensures id in SerialSet(longer) {
      if id == p.serial {
        assert longer[|queue|].serial == id;
      } else {
        var j :| 0 <= j < |queue| && queue[j].serial == id;
        assert longer[j].serial == id;
      }
    }
    forall i | 0 <= i < |queue| ensures longer[i].serial != p.serial {
      assert queue[i].serial in SerialSet(queue);
    }
  }

  /** Recorded places exclude each other. */
  lemma PlacesDisjoint(s: State, p: Place, q: Place)
    requires Owned(s) && p != q && !p.Dropped? && !q.Dropped?
    ensures Contents(s, p) !! Contents(s, q)
    ensures forall id :: id in Contents(s, p) ==> id < s.nextSerial
  {
    assert Contents(s, p) == RecordedAt(s.owner, p) && Contents(s, q) == RecordedAt(s.owner, q);
  }

  /** A request takes an instance out of a queue. */
  lemma ReuseKeepsRecord(s: State, r: nat, p: Place)
    requires Wf(s) && Owned(s) && RequestOf(s, r).Snapped? && !p.Dropped?
    requires
      var q := RequestOf(s, r);
      StalePrefix(s.tenants[q.t].pool, q.gen.loaded.digest) < |s.tenants[q.t].pool|
    ensures
      var s' := AcquireStep(s, r, true);
      Contents(s', p) == RecordedAt(s'.owner, p)
  {
    var s' := AcquireStep(s, r, true);
    var q := RequestOf(s, r);
    var queue := s.tenants[q.t].pool;
    var k := StalePrefix(queue, q.gen.loaded.digest);
    SplitSerials(queue, k);
    var dropped := Drop(s.owner, Serials(queue, k));
    DropRecord(s.owner, Serials(queue, k), p);
    MoveRecord(dropped, queue[k].serial, InRequest(r), p);
    assert Contents(s, p) == RecordedAt(s.owner, p);
    if p != InPool(q.t) {
      PlacesDisjoint(s, p, InPool(q.t));
    }
  }

  /** A request finds no match: the whole queue is dropped, and a new instance may be built. */
  lemma BuildKeepsRecord(s: State, r: nat, instantiates: bool, p: Place)
    requires Wf(s) && Owned(s) && RequestOf(s, r).Snapped? && !p.Dropped?
    requires
      var q := RequestOf(s, r);
      StalePrefix(s.tenants[q.t].pool, q.gen.loaded.digest) == |s.tenants[q.t].pool|
    ensures
      var s' := AcquireStep(s, r, instantiates);
      Contents(s', p) == RecordedAt(s'.owner, p)
  {
    var s' := AcquireStep(s, r, instantiates);
    var q := RequestOf(s, r);
    var queue := s.tenants[q.t].pool;
    var dropped := Drop(s.owner, SerialSet(queue));
    DropRecord(s.owner, SerialSet(queue), p);
    MoveRecord(dropped, s.nextSerial, InRequest(r), p);
    assert Contents(s, p) == RecordedAt(s.owner, p);
    if p != InPool(q.t) {
      PlacesDisjoint(s, p, InPool(q.t));
    }
  }

  lemma AcquireMoves(s: State, r: nat, instantiates: bool)
    requires Wf(s) && Owned(s) && RequestOf(s, r).Snapped?
    ensures Owned(AcquireStep(s, r, instantiates))
  {
    var s' := AcquireStep(s, r, instantiates);
    var q := RequestOf(s, r);
    var queue := s.tenants[q.t].pool;
    var k := StalePrefix(queue, q.gen.loaded.digest);
    if k < |queue| {
      SplitSerials(queue, k);
      assert Contents(s, InPool(q.t)) == RecordedAt(s.owner, InPool(q.t));
      assert queue[k].serial in Contents(s, InPool(q.t));
      assert s' == AcquireStep(s, r, true);
    }
    forall p: Place | !p.Dropped? ensures Contents(s', p) == RecordedAt(s'.owner, p) {
      if k < |queue| {
        ReuseKeepsRecord(s, r, p);
      } else {
        BuildKeepsRecord(s, r, instantiates, p);
      }
    }
  }

  lemma ReleaseMoves(s: State, r: nat)
    requires Wf(s) && Owned(s) && RequestOf(s, r).Returned?
    ensures Owned(ReleaseStep(s, r))
  {
    var s' := ReleaseStep(s, r);
    var q := RequestOf(s, r);
    var queue := s.tenants[q.t].pool;
    var room := |queue| < s.tenants[q.t].cap;
    PlacesDisjoint(s, InRequest(r), InPool(q.t));
    assert q.inst.serial in Contents(s, InRequest(r));
    assert Contents(s, InRequest(r)) == RecordedAt(s.owner, InRequest(r));
    if room {
      AppendSerial(queue, q.inst);
    }
    forall p: Place | !p.Dropped? ensures Contents(s', p) == RecordedAt(s'.owner, p) {
      MoveRecord(s.owner, q.inst.serial, if room then InPool(q.t) else Dropped, p);
      assert Contents(s, p) == RecordedAt(s.owner, p);
      if p != InRequest(r) {
        PlacesDisjoint(s, p, InRequest(r));
      }
    }
  }

  lemma AbortMoves(s: State, r: nat)
    requires Wf(s) && Owned(s) && Holding(RequestOf(s, r))
    ensures Owned(AbortStep(s, r))
  {
    var s' := AbortStep(s, r);
    var q := RequestOf(s, r);
    assert q.inst.serial in Contents(s, InRequest(r));
    assert Contents(s, InRequest(r)) == RecordedAt(s.owner, InRequest(r));
    forall p: Place | !p.Dropped? ensures Contents(s', p) == RecordedAt(s'.owner, p) {
      MoveRecord(s.owner, q.inst.serial, Dropped, p);
      assert Contents(s, p) == RecordedAt(s.owner, p);
      if p != InRequest(r) {
        PlacesDisjoint(s, p, InRequest(r));
      }
    }
  }

  /** Steps that move no instance. */
  predicate Moves(s: State, e: Event) {
    e.Acquire? || e.Release? || (e.Abort? && Holding(RequestOf(s, e.r)))
  }

  lemma StillRequestStep(node: Node, s: State, e: Event)
    requires Wf(s) && Enabled(node, s, e) && !Moves(s, e) && IsRequestEvent(e)
    ensures
      var s' := Step(node, s, e);
      && s'.owner == s.owner && s'.nextSerial == s.nextSerial
      && (forall t :: 0 <= t < |s.tenants| ==> s'.tenants[t].pool == s.tenants[t].pool)
      && Contents(s', InRequest(e.r)) == Contents(s, InRequest(e.r))
  {
  }

  lemma StillRequestKeepsOwned(node: Node, s: State, e: Event)
    requires Wf(s) && Enabled(node, s, e) && Owned(s) && !Moves(s, e) && IsRequestEvent(e)
    ensures Owned(Step(node, s, e))
  {
    var s' := Step(node, s, e);
    RequestsLeaveReloadingAlone(node, s, e);
    RequestStepIsLocal(node, s, e);
    StillRequestStep(node, s, e);
    forall r ensures Contents(s', InRequest(r)) == Contents(s, InRequest(r)) {
      if r != e.r {
        assert r in s'.requests <==> r in s.requests;
      }
    }
    UntouchedKeepsOwned(s, s');
  }

  lemma OtherKeepsOwned(node: Node, s: State, e: Event)
    requires Wf(s) && Enabled(node, s, e) && Owned(s) && !IsRequestEvent(e)
    ensures Owned(Step(node, s, e))
  {
    var s' := Step(node, s, e);
    if IsVisit(s, e) {
      VisitIsLocal(node, s, e);
      VisitFrame(node, s.clock, s.loop, s.tenants[s.loop.rest[0]], Pull(node, s, e));
    } else {
      OtherStepShape(node, s, e);
    }
    UntouchedKeepsOwned(s, s');
  }

  lemma StepKeepsOwned(node: Node, s: State, e: Event)
    requires Wf(s) && Enabled(node, s, e) && Owned(s)
    ensures Owned(Step(node, s, e))
  {
    if e.Acquire? {
      AcquireMoves(s, e.r, e.instantiates);
    } else if e.Release? {
      ReleaseMoves(s, e.r);
    } else if Moves(s, e) {
      AbortMoves(s, e.r);
    } else if IsRequestEvent(e) {
      StillRequestKeepsOwned(node, s, e);
    } else {
      OtherKeepsOwned(node, s, e);
    }
  }
}
