/** The per-tenant pool of prepared instances (`src/runtime/invoke.rs`). */
module Pool {
  import opened Base
  import Linker
  import opened Loader

  /** An instance ready to serve one request; `serial` tells instances apart. */
  datatype Prepared = Prepared(digest: string, ctx: Linker.HostCtx, guest: Component, serial: nat)

  /** Number of stale instances at the front of the queue. */
  function StalePrefix(queue: seq<Prepared>, digest: string): (k: nat)
    ensures k <= |queue|
    ensures forall j :: 0 <= j < k ==> queue[j].digest != digest
    ensures k < |queue| ==> queue[k].digest == digest
  {
    if queue == [] || queue[0].digest == digest then 0 else 1 + StalePrefix(queue[1..], digest)
  }

  /** The queue after an acquire: everything up to and including the first match is gone. */
  function AfterAcquire(queue: seq<Prepared>, digest: string): seq<Prepared> {
    var k := StalePrefix(queue, digest);
    if k < |queue| then queue[k + 1..] else []
  }

  function AfterRelease(queue: seq<Prepared>, cap: nat, p: Prepared): seq<Prepared> {
    if |queue| < cap then queue + [p] else queue
  }

  /** How the call of a guest ends: in time, in an error, or not in time. */
  datatype CallOutcome = Returns | Traps | TimesOut

  /**
   A request to a known tenant: the instance that serves it, or the error, and the queue it leaves.
   `ready` says whether the request converts and a host context is built; `built` is the instance that
   would be built for it.
   */
  function Serve(queue: seq<Prepared>, cap: nat, built: Prepared, ready: Result<Unit>, instantiates: bool,
                 call: CallOutcome): (Result<Prepared>, seq<Prepared>)
  {
    var k, rest := StalePrefix(queue, built.digest), AfterAcquire(queue, built.digest);
    if ready.Err? then (Err(ready.error), queue)
    else if k == |queue| && !instantiates then (Err(Wasm), rest)
    else
      var inst := if k < |queue| then queue[k] else built;
      match call
      case Returns => (Ok(inst), AfterRelease(rest, cap, inst))
      case Traps => (Err(Wasm), rest)
      case TimesOut => (Err(LimitExceeded), rest)
  }

  class InstancePool {
    var queue: seq<Prepared>
    const cap: nat

    constructor (cap: nat)
      ensures queue == [] && this.cap == Max(cap, 1)
    {
      this.queue := [];
      this.cap := Max(cap, 1);
    }

    /**
     The first matching instance, or a fresh one if there is none; the stale instances before it are
     dropped and the rest keeps its order. The lock is held throughout, instantiation included, so a
     failed instantiation still leaves the queue empty.
     */
    method Acquire(compiled: Component, loaded: Loaded, ctx: Linker.HostCtx, instantiates: bool, serial: nat)
      returns (r: Result<Prepared>)
      modifies this`queue
      ensures queue == AfterAcquire(old(queue), loaded.digest)
      ensures
        var k := StalePrefix(old(queue), loaded.digest);
        if k < |old(queue)| then r == Ok(old(queue)[k]) && old(queue) == old(queue[..k]) + [r.value] + queue
        else
          queue == [] && r == (if instantiates then Ok(Prepared(loaded.digest, ctx, compiled, serial)) else Err(Wasm))
      ensures r.Ok? ==> r.value.digest == loaded.digest
    {
      ghost var before := queue;
      ghost var k := 0;
      while queue != []
        invariant k <= |before| && queue == before[k..]
        invariant forall j :: 0 <= j < k ==> before[j].digest != loaded.digest
        decreases |queue|
      {
        var p := queue[0];
        queue := queue[1..];
        if p.digest == loaded.digest {
          assert StalePrefix(before, loaded.digest) == k;
          return Ok(p);
        }
        k := k + 1;
      }
      assert StalePrefix(before, loaded.digest) == k;
      if !instantiates {
        return Err(Wasm);
      }
      return Ok(Prepared(loaded.digest, ctx, compiled, serial));
    }

    method Release(p: Prepared)
      modifies this`queue
      ensures queue == AfterRelease(old(queue), cap, p)
      ensures |old(queue)| <= cap ==> |queue| <= cap
    {
      if |queue| < cap {
        queue := queue + [p];
      }
    }
  }

  // ----- draining

  /** Instances of other digests occur only among the first `bound` places. */
  predicate StaleOnlyBefore(queue: seq<Prepared>, digest: string, bound: int) {
    forall j :: 0 <= j < |queue| && j >= bound ==> queue[j].digest == digest
  }

  /** What an acquire leaves is the end of the queue, and each instance in it has come at least one place forward. */
  lemma AcquireDrains(queue: seq<Prepared>, digest: string)
    ensures
      var rest := AfterAcquire(queue, digest);
      && |rest| <= |queue| && rest == queue[|queue| - |rest|..]
      && (queue != [] ==> |rest| < |queue|)
      && (forall bound :: StaleOnlyBefore(queue, digest, bound) ==> StaleOnlyBefore(rest, digest, bound - 1))
  {
    var k := StalePrefix(queue, digest);
    var rest := AfterAcquire(queue, digest);
    if k < |queue| {
      assert |queue| - |rest| == k + 1;
    }
    forall bound | StaleOnlyBefore(queue, digest, bound) ensures StaleOnlyBefore(rest, digest, bound - 1) {
      forall j | 0 <= j < |rest| && j >= bound - 1 ensures rest[j].digest == digest {
        assert rest[j] == queue[k + 1 + j];
      }
    }
  }

  // ----- serving

  /** The first instance of the digest is at position `j`. */
  predicate FirstMatch(queue: seq<Prepared>, digest: string, j: nat) {
    j < |queue| && queue[j].digest == digest && forall i :: 0 <= i < j ==> queue[i].digest != digest
  }

  lemma FirstMatchIsStalePrefix(queue: seq<Prepared>, digest: string, j: nat)
    requires FirstMatch(queue, digest, j)
    ensures StalePrefix(queue, digest) == j
  {
    var k := StalePrefix(queue, digest);
    assert !(k < j) && !(j < k);
  }

  /**
   What serving comes to, by the first queued instance of the wanted digest. If there is one it serves, the
   instances before it are gone, those after it keep their order, and it goes behind them if its call
   returned and there is room. If there is none, the whole queue is gone and only a new instance can serve.
   */
  lemma ServeMeaning(queue: seq<Prepared>, cap: nat, built: Prepared, ready: Result<Unit>, instantiates: bool,
                     call: CallOutcome)
    ensures
      var (served, rest) := Serve(queue, cap, built, ready, instantiates, call);
      && (ready.Err? ==> served == Err(ready.error) && rest == queue)
      && (ready.Ok? ==> forall j: nat :: FirstMatch(queue, built.digest, j) ==>
            && (served.Ok? <==> call.Returns?) && (served.Ok? ==> served.value == queue[j])
            && rest == queue[j + 1..] + (if call.Returns? && |queue| - j - 1 < cap then [queue[j]] else []))
      && (ready.Ok? && (forall j :: 0 <= j < |queue| ==> queue[j].digest != built.digest) ==>
            && (served.Ok? <==> instantiates && call.Returns?) && (served.Ok? ==> served.value == built)
            && rest == (if served.Ok? && cap > 0 then [built] else []))
      && (ready.Ok? && !instantiates && (forall j :: 0 <= j < |queue| ==> queue[j].digest != built.digest) ==>
            served == Err(Wasm))
      && (ready.Ok? && (instantiates || exists j :: 0 <= j < |queue| && queue[j].digest == built.digest) ==>
            match call
            case Returns => served.Ok?
            case Traps => served == Err(Wasm)
            case TimesOut => served == Err(LimitExceeded))
      && (|queue| <= cap ==> |rest| <= cap)
  {
    forall j: nat | FirstMatch(queue, built.digest, j) ensures StalePrefix(queue, built.digest) == j {
      FirstMatchIsStalePrefix(queue, built.digest, j);
    }
  }
}
