/**
 Every pass of the reload loop, whatever interleaves with it, is a fold over the tenants it set out to
 visit (`poll_once` in `src/runtime.rs`).
 */
module RuntimePasses {
  import opened Base
  import opened Disk
  import opened Loader
  import opened Reload
  import opened RuntimeInvariant
  import opened RuntimeProtocol

  // ----- one tenant's turn

  /** The turn pulled something that is to replace what the tenant ran, and it compiled. */
  predicate Replaces(node: Node, now: nat, t: Tracked, turn: Turn) {
    && !Skipped(node, now, t) && turn.pulled.Ok? && EnsureContract(turn.pulled.value).Ok?
    && node.policy.ShouldReload(Some(t.ctl.active.digest), turn.pulled.value.digest)
    && MakeGeneration(node.host, turn.pulled.value, turn.compiledAt).Ok?
  }

  /** How far the turn of a tenant has come that was `t` when it began, and now has the control record `ctl`. */
  predicate MidTurn(node: Node, now: nat, t: Tracked, loop: Loop, ctl: Control, turn: Turn) {
    match loop
    case Idle => false
    case Scanning(_, _) => ctl == t.ctl
    case Pulling(_, _) => !Skipped(node, now, t) && ctl == t.ctl
    case Pulled(_, _, loaded) =>
      !Skipped(node, now, t) && ctl == t.ctl && turn.pulled == Ok(loaded) && EnsureContract(loaded).Ok?
    case Ready(_, _, gen) =>
      && Replaces(node, now, t, turn) && ctl == t.ctl
      && MakeGeneration(node.host, turn.pulled.value, turn.compiledAt) == Ok(gen)
    case Stamping(_, _) =>
      && Replaces(node, now, t, turn)
      && ctl == t.ctl.(active := MakeGeneration(node.host, turn.pulled.value, turn.compiledAt).value)
    case Clearing(_, _) =>
      && Replaces(node, now, t, turn)
      && ctl == Control(MakeGeneration(node.host, turn.pulled.value, turn.compiledAt).value, t.ctl.failures,
                        turn.stampedAt)
    case Finishing(_, _) =>
      TurnSpec(node, now, t, turn) == (ctl.(failures := 0), Ok(Unit))
  }

  /** What a turn has learnt after the loop's next step. */
  function Learnt(clock: nat, loop: Loop, pulled: Result<Loaded>, turn: Turn): Turn {
    match loop
    case Pulling(_, _) => Turn(pulled, 0, 0)
    case Pulled(_, _, _) => turn.(compiledAt := clock)
    case Stamping(_, _) => turn.(stampedAt := clock)
    case _ => turn
  }

  /** A step of a turn brings it further, ends it as specified, or ends the pass with its error. */
  lemma TurnProgress(node: Node, clock: nat, loop: Loop, t: Tracked, ts: TenantState, pulled: Result<Loaded>,
                     turn: Turn)
    requires !loop.Idle? && loop.rest != [] && ts.source == t.source
    requires MidTurn(node, loop.now, t, loop, ts.ctl, turn)
    ensures
      var (ts', loop') := NextVisit(node, clock, loop, ts, pulled);
      var turn' := Learnt(clock, loop, pulled, turn);
      if loop'.Idle? then ts'.ctl == t.ctl && TurnSpec(node, loop.now, t, turn').1.Err?
      else if loop' == Onward(loop) then TurnSpec(node, loop.now, t, turn') == (ts'.ctl, Ok(Unit))
      else loop'.rest == loop.rest && loop'.now == loop.now && MidTurn(node, loop.now, t, loop', ts'.ctl, turn')
  {
    assert |Onward(loop).rest| < |loop.rest|;
  }

  /** The turns that a run has finished, in order, and what the latest turn has learnt. */
  ghost function TurnsOf(node: Node, s: State, es: seq<Event>): (seq<Turn>, Turn)
    requires Legal(node, s, es)
    decreases |es|
  {
    if es == [] then ([], Turn(Err(Io), 0, 0))
    else
      var init, e := es[..|es| - 1], es[|es| - 1];
      var before, (turns, turn) := Exec(node, s, init), TurnsOf(node, s, init);
      if !IsVisit(before, e) then (turns, turn)
      else
        var learnt := Learnt(before.clock, before.loop, Pull(node, before, e), turn);
        var loop := Exec(node, s, es).loop;
        (if loop.Idle? || loop == Onward(before.loop) then turns + [learnt] else turns, learnt)
  }

  // ----- the pass

  function AllTracked(s: State, order: seq<nat>): (r: seq<Tracked>)
    requires forall i :: 0 <= i < |order| ==> order[i] < |s.tenants|
    ensures |r| == |order| && forall i :: 0 <= i < |order| ==> r[i] == TrackedAt(s, order[i])
  {
    seq(|order|, i requires 0 <= i < |order| => TrackedAt(s, order[i]))
  }

  function AllControls(s: State, order: seq<nat>): (r: seq<Control>)
    requires forall i :: 0 <= i < |order| ==> order[i] < |s.tenants|
    ensures |r| == |order| && forall i :: 0 <= i < |order| ==> r[i] == s.tenants[order[i]].ctl
  {
    seq(|order|, i requires 0 <= i < |order| => s.tenants[order[i]].ctl)
  }


  /** The pass from `s0` over `order`: the first `k` tenants have taken their turns, those after the next none. */
  ghost predicate Taken(node: Node, s0: State, now: nat, order: seq<nat>, turns: seq<Turn>, k: nat, s: State) {
    && k <= |order| && k <= |turns| && |s0.tenants| <= |s.tenants|
    && (forall t :: 0 <= t < |s0.tenants| ==> s.tenants[t].source == s0.tenants[t].source)
    && (forall i :: 0 <= i < |order| ==> order[i] < |s0.tenants|)
    && (forall i :: 0 <= i < k ==>
          TurnSpec(node, now, TrackedAt(s0, order[i]), turns[i]) == (s.tenants[order[i]].ctl, Ok(Unit)))
    && (forall i :: k < i < |order| ==> s.tenants[order[i]].ctl == s0.tenants[order[i]].ctl)
  }

  /** The pass is under way; `turn` is what its current turn has learnt. */
  ghost predicate Passing(node: Node, s0: State, now: nat, order: seq<nat>, turns: seq<Turn>, turn: Turn, s: State) {
    && Taken(node, s0, now, order, turns, |turns|, s)
    && !s.loop.Idle? && s.loop.now == now && s.loop.rest == order[|turns|..]
    && (|turns| < |order| ==>
          MidTurn(node, now, TrackedAt(s0, order[|turns|]), s.loop, s.tenants[order[|turns|]].ctl, turn))
  }

  /**
   The pass is over: every tenant took its turn, or the turn of the last of `turns` was an error, which left
   that tenant and all later ones as they were.
   */
  ghost predicate Passed(node: Node, s0: State, now: nat, order: seq<nat>, turns: seq<Turn>, s: State) {
    || (|turns| == |order| && Taken(node, s0, now, order, turns, |order|, s))
    || (0 < |turns| <= |order| && Taken(node, s0, now, order, turns, |turns| - 1, s)
        && var k := |turns| - 1;
           && TurnSpec(node, now, TrackedAt(s0, order[k]), turns[k]).1.Err?
           && s.tenants[order[k]].ctl == s0.tenants[order[k]].ctl)
  }

  /** Steps outside of visits change no control record, and end a pass only when nothing is left to visit. */
  lemma QuietStepShape(node: Node, s: State, e: Event)
    requires Wf(s) && Enabled(node, s, e) && !IsVisit(s, e) && !e.PollStart?
    ensures
      var s' := Step(node, s, e);
      && |s.tenants| <= |s'.tenants|
      && (forall t :: 0 <= t < |s.tenants| ==>
            s'.tenants[t].ctl == s.tenants[t].ctl && s'.tenants[t].source == s.tenants[t].source)
      && (s'.loop == s.loop || (s'.loop.Idle? && s.loop.Scanning? && s.loop.rest == []))
  {
    if IsRequestEvent(e) {
      RequestsLeaveReloadingAlone(node, s, e);
    } else {
      OtherStepShape(node, s, e);
    }
  }

  /** What a pass has come to, seen from the state it began in. */
  ghost predicate PassIs(node: Node, s0: State, now: nat, order: seq<nat>, turns: seq<Turn>, turn: Turn, s: State) {
    if s.loop.Idle? then Passed(node, s0, now, order, turns, s)
    else Passing(node, s0, now, order, turns, turn, s)
  }

  lemma QuietStepKeepsPass(node: Node, s0: State, now: nat, order: seq<nat>, turns: seq<Turn>, turn: Turn,
                           s: State, s': State)
    requires PassIs(node, s0, now, order, turns, turn, s) && |s.tenants| <= |s'.tenants|
    requires forall t :: 0 <= t < |s.tenants| ==>
      s'.tenants[t].ctl == s.tenants[t].ctl && s'.tenants[t].source == s.tenants[t].source
    requires s'.loop == s.loop || (s'.loop.Idle? && s.loop.Scanning? && s.loop.rest == [])
    ensures PassIs(node, s0, now, order, turns, turn, s')
  {
    if !s.loop.Idle? && s'.loop.Idle? {
      assert |turns| == |order|;
    }
  }

  /** The visited tenant's step, on the whole pass. */
  lemma VisitKeepsPass(node: Node, s0: State, now: nat, order: seq<nat>, turns: seq<Turn>, turn: Turn,
                       s: State, s': State, pulled: Result<Loaded>)
    requires Distinct(order) && Passing(node, s0, now, order, turns, turn, s) && s.loop.rest != []
    requires |s'.tenants| == |s.tenants|
    requires forall t :: 0 <= t < |s.tenants| && t != s.loop.rest[0] ==> s'.tenants[t] == s.tenants[t]
    requires s.loop.rest[0] < |s.tenants| && s'.tenants[s.loop.rest[0]].source == s.tenants[s.loop.rest[0]].source
    requires (s'.tenants[s.loop.rest[0]], s'.loop) ==
      NextVisit(node, s.clock, s.loop, s.tenants[s.loop.rest[0]], pulled)
    ensures
      var turn' := Learnt(s.clock, s.loop, pulled, turn);
      var turns' := if s'.loop.Idle? || s'.loop == Onward(s.loop) then turns + [turn'] else turns;
      PassIs(node, s0, now, order, turns', turn', s')
  {
    var k := |turns|;
    var t := order[k];
    assert s.loop.rest[0] == t;
    TurnProgress(node, s.clock, s.loop, TrackedAt(s0, t), s.tenants[t], pulled, turn);
    OthersKeepTurns(node, s0, now, order, turns, s, s', t);
    if s'.loop.Idle? || s'.loop == Onward(s.loop) {
      TurnEnds(node, s0, now, order, turns, Learnt(s.clock, s.loop, pulled, turn), s');
      assert order[k..][1..] == order[k + 1..];
    }
  }

  lemma OthersKeepTurns(node: Node, s0: State, now: nat, order: seq<nat>, turns: seq<Turn>, s: State, s': State, t: nat)
    requires Distinct(order) && |turns| < |order| && Taken(node, s0, now, order, turns, |turns|, s)
    requires t == order[|turns|] && |s'.tenants| == |s.tenants| && s'.tenants[t].source == s.tenants[t].source
    requires forall u :: 0 <= u < |s.tenants| && u != t ==> s'.tenants[u] == s.tenants[u]
    ensures Taken(node, s0, now, order, turns, |turns|, s')
  {
    assert forall i :: 0 <= i < |order| && i != |turns| ==> s'.tenants[order[i]] == s.tenants[order[i]];
  }

  /** The turn of the next tenant has ended: as specified, or with an error and the tenant as it was. */
  lemma TurnEnds(node: Node, s0: State, now: nat, order: seq<nat>, turns: seq<Turn>, turn: Turn, s: State)
    requires |turns| < |order| && Taken(node, s0, now, order, turns, |turns|, s)
    ensures
      var k := |turns|;
      TurnSpec(node, now, TrackedAt(s0, order[k]), turn) == (s.tenants[order[k]].ctl, Ok(Unit)) ==>
        Taken(node, s0, now, order, turns + [turn], k + 1, s)
        && (k + 1 < |order| ==> s.tenants[order[k + 1]].ctl == s0.tenants[order[k + 1]].ctl)
    ensures
      var k := |turns|;
      (TurnSpec(node, now, TrackedAt(s0, order[k]), turn).1.Err?
       && s.tenants[order[k]].ctl == s0.tenants[order[k]].ctl) ==> Passed(node, s0, now, order, turns + [turn], s)
  {
    var more := turns + [turn];
    assert Taken(node, s0, now, order, more, |turns|, s);
  }

  /**
   Whatever interleaves with a pass, and whatever the registry answers to it: at every point the tenants
   before the current one have taken their own independent turns, in order, each with the outcome of its own
   pull and the clock readings of the run; the later ones are untouched; and when the pass is over, either
   every tenant took its turn or the first error ended the pass, leaving its tenant and all later ones as
   they were.
   */
  lemma {:induction false} EveryPassIsFold(node: Node, s: State, order: seq<nat>, es: seq<Event>)
    requires Wf(s) && s.loop.Scanning? && s.loop.rest == order && Legal(node, s, es)
    requires forall i :: 0 <= i < |es| ==> !es[i].PollStart?
    ensures
      var (turns, turn) := TurnsOf(node, s, es);
      PassIs(node, s, s.loop.now, order, turns, turn, Exec(node, s, es))
    decreases |es|
  {
    if es != [] {
      var init, e := es[..|es| - 1], es[|es| - 1];
      EveryPassIsFold(node, s, order, init);
      PassStepKeeps(node, s, order, TurnsOf(node, s, init).0, TurnsOf(node, s, init).1, Exec(node, s, init), e);
    }
  }

  /** One step of a run, on the pass it belongs to. */
  lemma PassStepKeeps(node: Node, s0: State, order: seq<nat>, turns: seq<Turn>, turn: Turn, s: State, e: Event)
    requires Wf(s) && Enabled(node, s, e) && !e.PollStart? && Distinct(order) && s0.loop.Scanning?
    requires PassIs(node, s0, s0.loop.now, order, turns, turn, s)
    ensures
      var s' := Step(node, s, e);
      if !IsVisit(s, e) then PassIs(node, s0, s0.loop.now, order, turns, turn, s')
      else
        var turn' := Learnt(s.clock, s.loop, Pull(node, s, e), turn);
        var turns' := if s'.loop.Idle? || s'.loop == Onward(s.loop) then turns + [turn'] else turns;
        PassIs(node, s0, s0.loop.now, order, turns', turn', s')
  {
    if IsVisit(s, e) {
      VisitIsLocal(node, s, e);
      VisitFrame(node, s.clock, s.loop, s.tenants[s.loop.rest[0]], Pull(node, s, e));
      VisitKeepsPass(node, s0, s0.loop.now, order, turns, turn, s, Step(node, s, e), Pull(node, s, e));
    } else {
      QuietStepShape(node, s, e);
      QuietStepKeepsPass(node, s0, s0.loop.now, order, turns, turn, s, Step(node, s, e));
    }
  }

  // ----- passes whose pulls are the sequential ones

  lemma PassedEndsTurns(node: Node, s0: State, order: seq<nat>, turns: seq<Turn>, s: State)
    requires s0.loop.Scanning? && Passed(node, s0, s0.loop.now, order, turns, s)
    ensures forall i :: 0 <= i < |order| ==> order[i] < |s0.tenants| && order[i] < |s.tenants|
    ensures TurnsEnd(node, s0.loop.now, AllTracked(s0, order), turns, AllControls(s, order))
  {
  }

  /**
   A finished pass of any run in which the pulls came back with what the sequential ones would have has the
   outcome of the sequential `PollOnce`, whatever else went on.
   */
  lemma PassIsSequential(node: Node, s: State, order: seq<nat>, es: seq<Event>, vs: seq<Visit>)
    returns (k: nat, disk: Disk, r: Result<Unit>)
    requires Wf(s) && s.loop.Scanning? && s.loop.rest == order && Legal(node, s, es)
    requires forall i :: 0 <= i < |es| ==> !es[i].PollStart?
    requires Exec(node, s, es).loop.Idle?
    requires PulledInOrder(node, s.loop.now, s.store.disk, AllTracked(s, order), vs, TurnsOf(node, s, es).0)
    ensures forall i :: 0 <= i < |order| ==> order[i] < |Exec(node, s, es).tenants|
    ensures PassOutcome(node, s.loop.now, s.store.disk, AllTracked(s, order), vs, k,
                        AllControls(Exec(node, s, es), order), disk, r)
  {
    EveryPassIsFold(node, s, order, es);
    PassedEndsTurns(node, s, order, TurnsOf(node, s, es).0, Exec(node, s, es));
    k, disk, r := TurnsOutcome(node, s.loop.now, s.store.disk, AllTracked(s, order), vs, TurnsOf(node, s, es).0,
                               AllControls(Exec(node, s, es), order));
  }
}
