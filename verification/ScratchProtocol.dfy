/**
 `MemFs` at the level of its atomic steps: a mutex guards the file map, the usage counter is a separate
 atomic that anyone may read at any time. Any number of threads take the lock in any order.
 */
module ScratchProtocol {
  import opened Base
  import opened Digests
  import opened Sandbox

  datatype Call = Put(path: Path, bytes: Blob) | Take(path: Path)

  /** How far the thread that holds the lock has come. */
  datatype Progress =
    | Started(call: Call)
    | Counted(path: Path, bytes: Blob)
    | Taken(len: nat)

  datatype Holder = Holder(thread: nat, progress: Progress)

  datatype State = State(files: map<Path, Blob>, quota: nat, used: nat, lock: Option<Holder>)

  datatype Event = Lock(thread: nat, call: Call) | Proceed(thread: nat)

  /** A put reaches the lock only with a valid path; a buffer is never longer than `isize::MAX`. */
  predicate Enabled(s: State, e: Event) {
    match e
    case Lock(_, call) =>
      s.lock.None? && (call.Put? ==> ValidPath(call.path) && |call.bytes| < TWO_63)
    case Proceed(t) => s.lock.Some? && s.lock.value.thread == t
  }

  function Step(s: State, e: Event): State
    requires Enabled(s, e)
  {
    match e
    case Lock(t, call) => s.(lock := Some(Holder(t, Started(call))))
    case Proceed(t) =>
      match s.lock.value.progress
      case Started(Put(path, bytes)) =>
        var prev := LengthAt(s.files, path);
        if Rejects(s.used, s.quota, prev, |bytes|) then s.(lock := None)
        else s.(used := Accounted(s.used, prev, |bytes|), lock := Some(Holder(t, Counted(path, bytes))))
      case Counted(path, bytes) => s.(files := s.files[path := bytes], lock := None)
      case Started(Take(path)) =>
        if path !in s.files then s.(lock := None)
        else s.(files := s.files - {path}, lock := Some(Holder(t, Taken(|s.files[path]|))))
      case Taken(len) => s.(used := U64(s.used - len), lock := None)
  }

  predicate Legal(s: State, es: seq<Event>)
    decreases |es|, 0
  {
    es == [] || (
      var init := es[..|es| - 1];
      Legal(s, init) && Enabled(Exec(s, init), es[|es| - 1]))
  }

  function Exec(s: State, es: seq<Event>): State
    requires Legal(s, es)
    decreases |es|, 1
  {
    if es == [] then s else Step(Exec(s, es[..|es| - 1]), es[|es| - 1])
  }

  function Start(quota: nat): State {
    State(map[], quota, 0, None)
  }

  /** What the counter has that the files have not: the lock holder's unfinished business. */
  function Pending(s: State): int {
    if s.lock.None? then 0
    else match s.lock.value.progress
      case Started(_) => 0
      case Counted(path, bytes) => |bytes| - LengthAt(s.files, path)
      case Taken(len) => len
  }

  /** Every put in progress fits the signed arithmetic. */
  predicate LockFits(s: State) {
    s.lock.Some? && s.lock.value.progress.Started? && s.lock.value.progress.call.Put? ==>
      Fits(s.quota, |s.lock.value.progress.call.bytes|)
  }

  predicate AllFit(quota: nat, es: seq<Event>) {
    forall i :: 0 <= i < |es| && es[i].Lock? && es[i].call.Put? ==> Fits(quota, |es[i].call.bytes|)
  }

  /** The counter is the files plus the pending difference, and never above the quota. */
  ghost predicate Exact(s: State) {
    s.used == Total(s.files) + Pending(s) && s.used <= s.quota
  }

  /** The counter after an accepted put, exactly; and when it is accepted. */
  lemma CountingIsExact(s: State, path: Path, bytes: Blob)
    requires s.used == Total(s.files) <= s.quota && Fits(s.quota, |bytes|)
    ensures
      var prev := LengthAt(s.files, path);
      && prev <= s.used
      && (Rejects(s.used, s.quota, prev, |bytes|) <==> s.used - prev + |bytes| > s.quota)
      && Accounted(s.used, prev, |bytes|) == s.used - prev + |bytes|
  {
    var prev := LengthAt(s.files, path);
    TotalPut(s.files, path, bytes);
    RepresentableIsExact(s.used, s.quota, prev, |bytes|);
    AccountingIsModular(s.used, prev, |bytes|);
  }

  lemma SubtractingIsExact(used: nat, len: nat)
    requires len <= used < TWO_64
    ensures U64(used - len) == used - len
  {
  }

  lemma StepKeepsExact(s: State, e: Event)
    requires Enabled(s, e) && Exact(s) && s.quota < TWO_64
    requires LockFits(s)
    ensures Exact(Step(s, e))
  {
    if e.Proceed? {
      match s.lock.value.progress
      case Started(Put(path, bytes)) => CountingIsExact(s, path, bytes);
      case Counted(path, bytes) => TotalPut(s.files, path, bytes);
      case Started(Take(path)) => if path in s.files { TotalRemove(s.files, path); }
      case Taken(len) => SubtractingIsExact(s.used, len);
    }
  }

  lemma {:induction false} RunKeepsExact(quota: nat, es: seq<Event>)
    requires quota < TWO_64 && Legal(Start(quota), es) && AllFit(quota, es)
    ensures Exact(Exec(Start(quota), es)) && LockFits(Exec(Start(quota), es))
    ensures Exec(Start(quota), es).quota == quota
    decreases |es|
  {
    if es == [] {
      assert Lengths(map[]) == map[];
    } else {
      RunKeepsExact(quota, es[..|es| - 1]);
      StepKeepsExact(Exec(Start(quota), es[..|es| - 1]), es[|es| - 1]);
    }
  }

  /**
   At every atomic step of any number of threads, as long as the files written fit the arithmetic: usage
   is within the quota; it equals the bytes held whenever the lock is free, and otherwise differs by the
   holder's pending difference; no subtraction from the counter wraps; a put that does not grow its file
   is never refused; and any other is refused exactly when the files would exceed the quota.
   */
  lemma UsageIsExactInEveryRun(quota: nat, es: seq<Event>)
    requires quota < TWO_64 && Legal(Start(quota), es) && AllFit(quota, es)
    ensures
      var s := Exec(Start(quota), es);
      && s.used <= quota
      && (s.lock.None? ==> s.used == Total(s.files))
      && s.used == Total(s.files) + Pending(s)
      && (s.lock.Some? ==>
            match s.lock.value.progress
            case Started(Put(path, bytes)) =>
              && LengthAt(s.files, path) <= s.used
              && (|bytes| <= LengthAt(s.files, path) ==>
                    Step(s, Proceed(s.lock.value.thread)).lock.Some?)
              && (Rejects(s.used, quota, LengthAt(s.files, path), |bytes|) <==>
                    Total(s.files[path := bytes]) > quota)
            case Taken(len) => len <= s.used
            case _ => true)
  {
    RunKeepsExact(quota, es);
    var s := Exec(Start(quota), es);
    if s.lock.Some? && s.lock.value.progress.Started? && s.lock.value.progress.call.Put? {
      var call := s.lock.value.progress.call;
      TotalPut(s.files, call.path, call.bytes);
      CountingIsExact(s, call.path, call.bytes);
    }
  }

  lemma OneMore(s: State, es: seq<Event>, e: Event)
    requires Legal(s, es) && Enabled(Exec(s, es), e)
    ensures Legal(s, es + [e]) && Exec(s, es + [e]) == Step(Exec(s, es), e)
  {
    assert (es + [e])[..|es|] == es;
  }

  // ----- when counting is exact in every run

  /** Every put of the run is of at most `limit` bytes. */
  predicate PutsWithin(limit: nat, es: seq<Event>) {
    forall i :: 0 <= i < |es| && es[i].Lock? && es[i].call.Put? ==> |es[i].call.bytes| <= limit
  }

  ghost predicate AlwaysExact(quota: nat, limit: nat) {
    forall es: seq<Event> :: Legal(Start(quota), es) && PutsWithin(limit, es) ==> Exact(Exec(Start(quota), es))
  }

  /** A put begins and is counted; it is not refused. */
  lemma CountedPut(from: State, es: seq<Event>, limit: nat, path: Path, bytes: Blob)
    returns (es': seq<Event>)
    requires Legal(from, es) && PutsWithin(limit, es) && |bytes| <= limit
    requires Exec(from, es).lock.None? && ValidPath(path) && |bytes| < TWO_63
    requires
      var s := Exec(from, es);
      !Rejects(s.used, s.quota, LengthAt(s.files, path), |bytes|)
    ensures Legal(from, es') && PutsWithin(limit, es')
    ensures
      var s := Exec(from, es);
      Exec(from, es') == s.(used := Accounted(s.used, LengthAt(s.files, path), |bytes|),
                            lock := Some(Holder(0, Counted(path, bytes))))
  {
    var e0, e1 := Lock(0, Put(path, bytes)), Proceed(0);
    OneMore(from, es, e0);
    OneMore(from, es + [e0], e1);
    es' := es + [e0] + [e1];
  }

  /** A file name longer than `n` characters. */
  function LongName(n: nat): (path: Path)
    ensures ValidPath(path) && |path| == n + 1
  {
    seq(n + 1, _ => 'f')
  }

  /** The run stored `goal` bytes in files of at most `limit` bytes, with names of at most `longest` characters. */
  ghost predicate Filled(quota: nat, limit: nat, es: seq<Event>, goal: nat, longest: nat) {
    && Legal(Start(quota), es) && PutsWithin(limit, es)
    && var s := Exec(Start(quota), es);
       s.used == goal && s.quota == quota && s.lock.None? && forall p :: p in s.files ==> |p| <= longest
  }

  lemma FillOne(quota: nat, limit: nat, es: seq<Event>, before: nat, longest: nat, len: nat)
    returns (es': seq<Event>)
    requires Filled(quota, limit, es, before, longest) && 0 < len <= limit && before + len <= quota < TWO_63
    ensures Filled(quota, limit, es', before + len, longest + 1)
  {
    var path, bytes: Blob := LongName(longest), seq(len, _ => 0);
    assert path !in Exec(Start(quota), es).files;
    var counted := CountedPut(Start(quota), es, limit, path, bytes);
    OneMore(Start(quota), counted, Proceed(0));
    es' := counted + [Proceed(0)];
  }

  /** Files of at most `limit` bytes fill any part of the quota. */
  lemma {:induction false} Fill(quota: nat, limit: nat, goal: nat) returns (es: seq<Event>, longest: nat)
    requires goal <= quota < TWO_63 && limit > 0
    ensures Filled(quota, limit, es, goal, longest)
    decreases goal
  {
    es, longest := [], 0;
    if goal > 0 {
      var before := if goal > limit then goal - limit else 0;
      es, longest := Fill(quota, limit, before);
      es := FillOne(quota, limit, es, before, longest, goal - before);
      longest := longest + 1;
    }
  }

  /** With the quota filled, one more file whose length overflows the test is let in. */
  lemma OverfilledRun(quota: nat, limit: nat) returns (es: seq<Event>)
    requires quota < TWO_63 && 0 < limit < TWO_63 && !Fits(quota, limit)
    ensures Legal(Start(quota), es) && PutsWithin(limit, es) && Exec(Start(quota), es).used > quota
    ensures Exec(Start(quota), es).quota == quota
  {
    var longest;
    es, longest := Fill(quota, limit, quota);
    var path, bytes: Blob := LongName(longest), seq(limit, _ => 0);
    assert path !in Exec(Start(quota), es).files;
    es := CountedPut(Start(quota), es, limit, path, bytes);
  }

  /**
   Counting is exact in all runs with files of at most `limit` bytes if and only if the quota and one such
   file together fit the signed arithmetic.
   */
  lemma AlwaysExactIff(quota: nat, limit: nat)
    requires quota < TWO_63 && 0 < limit < TWO_63
    ensures AlwaysExact(quota, limit) <==> Fits(quota, limit)
  {
    if Fits(quota, limit) {
      forall es: seq<Event> | Legal(Start(quota), es) && PutsWithin(limit, es)
        ensures Exact(Exec(Start(quota), es))
      {
        RunKeepsExact(quota, es);
      }
    } else {
      var es := OverfilledRun(quota, limit);
    }
  }

  // ----- without any assumption

  ghost predicate AgreesUpToWidth(s: State) {
    s.used == U64(Total(s.files) + Pending(s)) && Total(s.files) + Pending(s) >= 0
  }

  lemma TakingIsModular(total: nat, len: nat)
    ensures U64(U64(total + len) - len) == U64(total)
  {
  }

  lemma StepAgreesUpToWidth(s: State, e: Event)
    requires Enabled(s, e) && AgreesUpToWidth(s)
    ensures AgreesUpToWidth(Step(s, e))
  {
    if e.Proceed? {
      match s.lock.value.progress
      case Started(Put(path, bytes)) =>
        TotalPut(s.files, path, bytes);
        AccountingIsModular(Total(s.files), LengthAt(s.files, path), |bytes|);
      case Counted(path, bytes) => TotalPut(s.files, path, bytes);
      case Started(Take(path)) => if path in s.files { TotalRemove(s.files, path); }
      case Taken(len) => TakingIsModular(Total(s.files), len);
    }
  }

  /** With no assumption on lengths, the counter still agrees with the files modulo 2^64. */
  lemma {:induction false} RunAgreesUpToWidth(quota: nat, es: seq<Event>)
    requires Legal(Start(quota), es)
    ensures AgreesUpToWidth(Exec(Start(quota), es))
    decreases |es|
  {
    if es == [] {
      assert Lengths(map[]) == map[];
    } else {
      RunAgreesUpToWidth(quota, es[..|es| - 1]);
      StepAgreesUpToWidth(Exec(Start(quota), es[..|es| - 1]), es[|es| - 1]);
    }
  }

  predicate Nothing(s: State) {
    && s.used == 0
    && (forall p :: p in s.files ==> s.files[p] == [])
    && (s.lock.Some? ==>
          match s.lock.value.progress
          case Started(Put(_, bytes)) => |bytes| < TWO_63
          case Started(Take(_)) => true
          case Counted(_, bytes) => bytes == []
          case Taken(len) => len == 0)
  }

  /** A quota of 2^63 bytes or more turns negative in the test, and no run ever stores a byte under it. */
  lemma {:induction false} HugeQuotaStoresNothing(quota: nat, es: seq<Event>)
    requires TWO_63 <= quota < TWO_64 && Legal(Start(quota), es)
    ensures Nothing(Exec(Start(quota), es)) && Exec(Start(quota), es).quota == quota
    decreases |es|
  {
    if es != [] {
      HugeQuotaStoresNothing(quota, es[..|es| - 1]);
    }
  }

  /**
   The sequential write is one critical section of the protocol: taking the lock and proceeding until it
   is free again gives the files and counter that `MemFs.Write` promises, and reports the same outcome.
   */
  lemma WriteIsCriticalSection(s: State, thread: nat, path: Path, bytes: Blob)
    requires s.lock.None? && ValidPath(path) && |bytes| < TWO_63
    ensures
      var refused := Rejects(s.used, s.quota, LengthAt(s.files, path), |bytes|);
      var es := [Lock(thread, Put(path, bytes)), Proceed(thread)] + (if refused then [] else [Proceed(thread)]);
      && Legal(s, es)
      && Exec(s, es) == if refused then s
                        else s.(files := s.files[path := bytes],
                                used := Accounted(s.used, LengthAt(s.files, path), |bytes|))
  {
    var e0, e1 := Lock(thread, Put(path, bytes)), Proceed(thread);
    assert [] + [e0] == [e0] && [e0] + [e1] == [e0, e1] && [e0, e1] + [] == [e0, e1] && [e0, e1] + [e1] == [e0, e1, e1];
    OneMore(s, [], e0);
    OneMore(s, [e0], e1);
    if !Rejects(s.used, s.quota, LengthAt(s.files, path), |bytes|) {
      OneMore(s, [e0, e1], e1);
    }
  }

  /** So is the sequential `Remove`. */
  lemma RemoveIsCriticalSection(s: State, thread: nat, path: Path)
    requires s.lock.None?
    ensures
      var es := [Lock(thread, Take(path)), Proceed(thread)] + (if path in s.files then [Proceed(thread)] else []);
      && Legal(s, es)
      && Exec(s, es) == if path !in s.files then s
                        else s.(files := s.files - {path}, used := U64(s.used - |s.files[path]|))
  {
    var e0, e1 := Lock(thread, Take(path)), Proceed(thread);
    assert [] + [e0] == [e0] && [e0] + [e1] == [e0, e1] && [e0, e1] + [] == [e0, e1] && [e0, e1] + [e1] == [e0, e1, e1];
    OneMore(s, [], e0);
    OneMore(s, [e0], e1);
    if path in s.files {
      OneMore(s, [e0, e1], e1);
    }
  }
}
