/**
 The write-temp / sync / rename protocol of `ContentStore::put`, run step by step by any number of
 writers that share one directory, may stop at any step, and may lose power.

 `pidOf` gives the process a writer runs in; the temporary name depends on nothing else. A writer that
 stops and begins again stands for a restarted process that received the same process id.
 */
module StoreProtocol {
  import opened Digests
  import opened Disk

  datatype Phase =
    | Idle
    | Absent(blob: Blob)
    | Writing(blob: Blob, inode: nat, done: nat)
    | Synced(blob: Blob)

  datatype State = State(disk: Disk, writers: map<nat, Phase>)

  datatype Event =
    | BeginPut(w: nat, blob: Blob)
    | CreateTemp(w: nat)
    | WriteSome(w: nat, upto: nat)
    | SyncTemp(w: nat)
    | Publish(w: nat)
    | LoseRace(w: nat)
    | Stop(w: nat)
    | PowerLoss(after: Disk)

  function PhaseOf(s: State, w: nat): Phase {
    if w in s.writers then s.writers[w] else Idle
  }

  /**
   What a power loss leaves: directory updates that never reached the disk are undone, unsynced contents
   are arbitrary, temporary entries are arbitrary, and synced contents stay.
   */
  ghost predicate Survives(before: Disk, after: Disk) {
    forall n :: n in after.names && !IsTemp(n) ==>
      n in before.names && (FileAt(before, n).synced ==> FileAt(after, n) == FileAt(before, n))
  }

  ghost predicate Enabled(host: Host, pidOf: nat -> nat, s: State, e: Event) {
    match e
    case BeginPut(w, _) => PhaseOf(s, w).Idle?
    case CreateTemp(w) => PhaseOf(s, w).Absent?
    case WriteSome(w, upto) =>
      var p := PhaseOf(s, w);
      p.Writing? && p.inode in s.disk.inodes && p.done < upto <= |p.blob|
    case SyncTemp(w) =>
      var p := PhaseOf(s, w);
      p.Writing? && p.inode in s.disk.inodes && p.done == |p.blob|
    case Publish(w) => PhaseOf(s, w).Synced? && TmpName(pidOf(w)) in s.disk.names
    case LoseRace(w) =>
      var p := PhaseOf(s, w);
      p.Synced? && HexName(host, p.blob) in s.disk.names
    case Stop(_) => true
    case PowerLoss(after) => Survives(s.disk, after)
  }

  function Step(host: Host, pidOf: nat -> nat, s: State, e: Event): State
    requires Enabled(host, pidOf, s, e)
  {
    match e
    case BeginPut(w, blob) =>
      if HexName(host, blob) in s.disk.names then s
      else s.(writers := s.writers[w := Absent(blob)])
    case CreateTemp(w) =>
      var tmp := TmpName(pidOf(w));
      var disk := Create(s.disk, tmp);
      State(disk, s.writers[w := Writing(PhaseOf(s, w).blob, disk.names[tmp], 0)])
    case WriteSome(w, upto) =>
      var p := PhaseOf(s, w);
      State(WriteAt(s.disk, p.inode, p.done, p.blob[p.done..upto]), s.writers[w := p.(done := upto)])
    case SyncTemp(w) =>
      var p := PhaseOf(s, w);
      State(Sync(s.disk, p.inode), s.writers[w := Synced(p.blob)])
    case Publish(w) =>
      State(Rename(s.disk, TmpName(pidOf(w)), HexName(host, PhaseOf(s, w).blob)), s.writers[w := Idle])
    case LoseRace(w) => s.(writers := s.writers[w := Idle])
    case Stop(w) => s.(writers := s.writers[w := Idle])
    case PowerLoss(after) => State(after, map[])
  }

  ghost predicate Legal(host: Host, pidOf: nat -> nat, s: State, es: seq<Event>)
    decreases |es|, 0
  {
    es == [] || (
      var init := es[..|es| - 1];
      Legal(host, pidOf, s, init) && Enabled(host, pidOf, Exec(host, pidOf, s, init), es[|es| - 1]))
  }

  ghost function Exec(host: Host, pidOf: nat -> nat, s: State, es: seq<Event>): State
    requires Legal(host, pidOf, s, es)
    decreases |es|, 1
  {
    if es == [] then s
    else Step(host, pidOf, Exec(host, pidOf, s, es[..|es| - 1]), es[|es| - 1])
  }

  ghost predicate Injective(pidOf: nat -> nat) {
    forall v, w :: pidOf(v) == pidOf(w) ==> v == w
  }

  /** Every writer is a process of its own. */
  const ONE_EACH: nat -> nat := w => w

  /** No other put of the writer's process is in flight. */
  ghost predicate Alone(pidOf: nat -> nat, s: State, w: nat) {
    forall v :: v in s.writers && v != w && !s.writers[v].Idle? ==> pidOf(v) != pidOf(w)
  }

  /** No process has two puts in flight. */
  ghost predicate TakingTurns(pidOf: nat -> nat, s: State) {
    forall w :: w in s.writers && !s.writers[w].Idle? ==> Alone(pidOf, s, w)
  }

  /** At no point of the run does a process have two puts in flight. */
  ghost predicate TurnsTaken(host: Host, pidOf: nat -> nat, s: State, es: seq<Event>)
    requires Legal(host, pidOf, s, es)
    decreases |es|
  {
    TakingTurns(pidOf, Exec(host, pidOf, s, es)) && (es != [] ==> TurnsTaken(host, pidOf, s, es[..|es| - 1]))
  }

  // ----- the invariant

  ghost predicate WriterOk(s: State, tmp: string, p: Phase) {
    match p
    case Idle => true
    case Absent(_) => true
    case Writing(blob, inode, done) =>
      && tmp in s.disk.names && s.disk.names[tmp] == inode
      && done <= |blob| && FileAt(s.disk, tmp).content == blob[..done]
    case Synced(blob) =>
      tmp in s.disk.names && FileAt(s.disk, tmp) == File(blob, true)
  }

  ghost predicate Inv(host: Host, pidOf: nat -> nat, s: State) {
    && DiskOk(host, s.disk)
    && forall w :: w in s.writers ==> WriterOk(s, TmpName(pidOf(w)), s.writers[w])
  }

  lemma TempsDiffer(pidOf: nat -> nat, v: nat, w: nat)
    requires pidOf(v) != pidOf(w)
    ensures TmpName(pidOf(v)) != TmpName(pidOf(w))
  {
    if TmpName(pidOf(v)) == TmpName(pidOf(w)) {
      TmpNameInjective(pidOf(v), pidOf(w));
    }
  }

  /** Distinct temporary names keep the other writers' files out of every step. */
  lemma OthersUndisturbed(pidOf: nat -> nat, s: State, s': State, w: nat)
    requires Alone(pidOf, s, w)
    requires forall v :: v in s.writers ==> WriterOk(s, TmpName(pidOf(v)), s.writers[v])
    requires forall v :: v != w && v in s'.writers ==> v in s.writers && s'.writers[v] == s.writers[v]
    requires forall n :: n in s.disk.names && IsTemp(n) && n != TmpName(pidOf(w)) ==>
      n in s'.disk.names && s'.disk.names[n] == s.disk.names[n] && FileAt(s'.disk, n) == FileAt(s.disk, n)
    requires w in s'.writers ==> WriterOk(s', TmpName(pidOf(w)), s'.writers[w])
    ensures forall v :: v in s'.writers ==> WriterOk(s', TmpName(pidOf(v)), s'.writers[v])
  {
    forall v | v in s'.writers ensures WriterOk(s', TmpName(pidOf(v)), s'.writers[v]) {
      if v != w && !s.writers[v].Idle? {
        TempsDiffer(pidOf, v, w);
        assert WriterOk(s, TmpName(pidOf(v)), s.writers[v]);
      }
    }
  }

  /** A step that leaves the directory alone, on behalf of one writer. */
  lemma DirectoryUntouched(pidOf: nat -> nat, s: State, s': State, w: nat)
    requires s'.disk == s.disk
    requires forall v :: v != w && v in s'.writers ==> v in s.writers && s'.writers[v] == s.writers[v]
    requires w in s'.writers && s'.writers[w] != PhaseOf(s, w) ==> s'.writers[w].Idle? || s'.writers[w].Absent?
    requires forall v :: v in s.writers ==> WriterOk(s, TmpName(pidOf(v)), s.writers[v])
    ensures forall v :: v in s'.writers ==> WriterOk(s', TmpName(pidOf(v)), s'.writers[v])
  {
    forall v | v in s'.writers ensures WriterOk(s', TmpName(pidOf(v)), s'.writers[v]) {
      if v in s.writers {
        assert WriterOk(s, TmpName(pidOf(v)), s.writers[v]);
      }
    }
  }

  lemma WritingKeeps(host: Host, pidOf: nat -> nat, s: State, w: nat, upto: nat)
    requires TakingTurns(pidOf, s) && Inv(host, pidOf, s) && Enabled(host, pidOf, s, WriteSome(w, upto))
    ensures Inv(host, pidOf, Step(host, pidOf, s, WriteSome(w, upto)))
  {
    var s' := Step(host, pidOf, s, WriteSome(w, upto));
    var p, tmp := PhaseOf(s, w), TmpName(pidOf(w));
    assert WriterOk(s, tmp, p);
    assert p.blob[..p.done] + p.blob[p.done..upto] == p.blob[..upto];
    assert FileAt(s'.disk, tmp).content == p.blob[..upto];
    forall n | n in s'.disk.names && !IsTemp(n) ensures EntryOk(host, s'.disk, n) {
      assert EntryOk(host, s.disk, n);
    }
    OthersUndisturbed(pidOf, s, s', w);
  }

  lemma SyncKeeps(host: Host, pidOf: nat -> nat, s: State, w: nat)
    requires TakingTurns(pidOf, s) && Inv(host, pidOf, s) && Enabled(host, pidOf, s, SyncTemp(w))
    ensures Inv(host, pidOf, Step(host, pidOf, s, SyncTemp(w)))
  {
    var s' := Step(host, pidOf, s, SyncTemp(w));
    var p, tmp := PhaseOf(s, w), TmpName(pidOf(w));
    assert WriterOk(s, tmp, p);
    assert p.blob[..p.done] == p.blob;
    forall n | n in s'.disk.names && !IsTemp(n) ensures EntryOk(host, s'.disk, n) {
      assert EntryOk(host, s.disk, n);
    }
    OthersUndisturbed(pidOf, s, s', w);
  }

  lemma CreateKeeps(host: Host, pidOf: nat -> nat, s: State, w: nat)
    requires TakingTurns(pidOf, s) && Inv(host, pidOf, s) && Enabled(host, pidOf, s, CreateTemp(w))
    ensures Inv(host, pidOf, Step(host, pidOf, s, CreateTemp(w)))
  {
    var s' := Step(host, pidOf, s, CreateTemp(w));
    forall n | n in s'.disk.names && !IsTemp(n) ensures EntryOk(host, s'.disk, n) {
      assert EntryOk(host, s.disk, n);
    }
    OthersUndisturbed(pidOf, s, s', w);
  }

  lemma PublishKeeps(host: Host, pidOf: nat -> nat, s: State, w: nat)
    requires TakingTurns(pidOf, s) && Inv(host, pidOf, s) && Enabled(host, pidOf, s, Publish(w))
    ensures Inv(host, pidOf, Step(host, pidOf, s, Publish(w)))
  {
    var s' := Step(host, pidOf, s, Publish(w));
    var p, tmp := PhaseOf(s, w), TmpName(pidOf(w));
    assert WriterOk(s, tmp, p);
    BlobNamesAreNotTemporary(host, p.blob);
    forall n | n in s'.disk.names && !IsTemp(n) ensures EntryOk(host, s'.disk, n) {
      if n != HexName(host, p.blob) {
        assert EntryOk(host, s.disk, n);
      }
    }
    OthersUndisturbed(pidOf, s, s', w);
  }

  lemma StepKeeps(host: Host, pidOf: nat -> nat, s: State, e: Event)
    requires TakingTurns(pidOf, s) && Inv(host, pidOf, s) && Enabled(host, pidOf, s, e)
    ensures Inv(host, pidOf, Step(host, pidOf, s, e))
  {
    match e
    case BeginPut(w, _) => DirectoryUntouched(pidOf, s, Step(host, pidOf, s, e), w);
    case CreateTemp(w) => CreateKeeps(host, pidOf, s, w);
    case WriteSome(w, upto) => WritingKeeps(host, pidOf, s, w, upto);
    case SyncTemp(w) => SyncKeeps(host, pidOf, s, w);
    case Publish(w) => PublishKeeps(host, pidOf, s, w);
    case LoseRace(w) => DirectoryUntouched(pidOf, s, Step(host, pidOf, s, e), w);
    case Stop(w) => DirectoryUntouched(pidOf, s, Step(host, pidOf, s, e), w);
    case PowerLoss(after) =>
      forall n | n in after.names && !IsTemp(n) ensures EntryOk(host, after, n) {
        assert EntryOk(host, s.disk, n);
      }
  }

  /**
   Crash safety of whole runs: whatever the writers do and wherever they stop, as long as the writers of
   one process take turns, as tasks do that put one after the other.
   */
  lemma {:induction false} RunKeeps(host: Host, pidOf: nat -> nat, s: State, es: seq<Event>)
    requires Inv(host, pidOf, s) && Legal(host, pidOf, s, es) && TurnsTaken(host, pidOf, s, es)
    ensures Inv(host, pidOf, Exec(host, pidOf, s, es))
    decreases |es|
  {
    if es != [] {
      var init := es[..|es| - 1];
      RunKeeps(host, pidOf, s, init);
      assert TakingTurns(pidOf, Exec(host, pidOf, s, init));
      StepKeeps(host, pidOf, Exec(host, pidOf, s, init), es[|es| - 1]);
    }
  }

  /** With one writer in each process, turns are taken in every run. */
  lemma {:induction false} OneWriterEachTakesTurns(host: Host, pidOf: nat -> nat, s: State, es: seq<Event>)
    requires Injective(pidOf) && Legal(host, pidOf, s, es)
    ensures TurnsTaken(host, pidOf, s, es)
    decreases |es|
  {
    if es != [] {
      OneWriterEachTakesTurns(host, pidOf, s, es[..|es| - 1]);
    }
  }

  // ----- when the protocol is safe

  const START := State(EMPTY, map[])

  /** In every run from an empty directory, every published entry is complete, synced and named by its hash. */
  ghost predicate CrashSafe(host: Host, pidOf: nat -> nat) {
    forall es: seq<Event> :: Legal(host, pidOf, START, es) ==> DiskOk(host, Exec(host, pidOf, START, es).disk)
  }

  /** Extends a legal run by one enabled step. */
  lemma Extend(host: Host, pidOf: nat -> nat, from: State, es: seq<Event>, e: Event)
    returns (es': seq<Event>, s': State)
    requires Legal(host, pidOf, from, es) && Enabled(host, pidOf, Exec(host, pidOf, from, es), e)
    ensures es' == es + [e] && Legal(host, pidOf, from, es')
    ensures s' == Exec(host, pidOf, from, es') == Step(host, pidOf, Exec(host, pidOf, from, es), e)
  {
    es' := es + [e];
    assert es'[..|es'| - 1] == es;
    s' := Exec(host, pidOf, from, es');
  }

  /** The events are one put of the blob by the writer, from its beginning, up to some point or to its end. */
  ghost predicate OnePut(host: Host, pidOf: nat -> nat, from: State, es: seq<Event>, w: nat, blob: Blob)
    requires Legal(host, pidOf, from, es)
    decreases |es|
  {
    && es != []
    && var init, e := es[..|es| - 1], es[|es| - 1];
       if init == [] then e == BeginPut(w, blob)
       else
         && !e.PowerLoss? && e.w == w && !PhaseOf(Exec(host, pidOf, from, init), w).Idle?
         && OnePut(host, pidOf, from, init, w, blob)
  }

  /** Extends a put that is under way. */
  lemma ExtendPut(host: Host, pidOf: nat -> nat, from: State, es: seq<Event>, e: Event, w: nat, blob: Blob)
    returns (es': seq<Event>, s': State)
    requires Legal(host, pidOf, from, es) && OnePut(host, pidOf, from, es, w, blob)
    requires !PhaseOf(Exec(host, pidOf, from, es), w).Idle?
    requires Enabled(host, pidOf, Exec(host, pidOf, from, es), e) && !e.PowerLoss? && e.w == w
    ensures es' == es + [e] && Legal(host, pidOf, from, es') && OnePut(host, pidOf, from, es', w, blob)
    ensures s' == Exec(host, pidOf, from, es') == Step(host, pidOf, Exec(host, pidOf, from, es), e)
  {
    es', s' := Extend(host, pidOf, from, es, e);
    assert es'[..|es'| - 1] == es;
  }

  /**
   Two writers of one process: both find the blob absent, the first writes and syncs it, the second
   truncates the shared temporary file, and the first publishes the truncated file: an empty, unsynced
   file under the hash of a blob that is not empty.
   */
  lemma SharedProcessPublishesTruncatedFile(host: Host, pidOf: nat -> nat, v: nat, w: nat, blob: Blob)
    returns (es: seq<Event>)
    requires v != w && pidOf(v) == pidOf(w) && blob != []
    ensures Legal(host, pidOf, START, es)
    ensures
      var d := Exec(host, pidOf, START, es).disk;
      && !DiskOk(host, d)
      && HexName(host, blob) in d.names && FileAt(d, HexName(host, blob)) == File([], false)
  {
    var name, tmp := HexName(host, blob), TmpName(pidOf(v));
    BlobNamesAreNotTemporary(host, blob);
    var s := START;
    es := [];
    es, s := Extend(host, pidOf, START, es, BeginPut(v, blob));
    es, s := Extend(host, pidOf, START, es, CreateTemp(v));
    es, s := Extend(host, pidOf, START, es, WriteSome(v, |blob|));
    es, s := Extend(host, pidOf, START, es, SyncTemp(v));
    es, s := Extend(host, pidOf, START, es, BeginPut(w, blob));
    es, s := Extend(host, pidOf, START, es, CreateTemp(w));
    assert FileAt(s.disk, tmp) == File([], false);
    es, s := Extend(host, pidOf, START, es, Publish(v));
    assert name in s.disk.names && !EntryOk(host, s.disk, name);
  }

  /** The protocol is crash-safe exactly when no two writers run in one process. */
  lemma CrashSafeIffOneWriterPerProcess(host: Host, pidOf: nat -> nat)
    ensures CrashSafe(host, pidOf) <==> Injective(pidOf)
  {
    if Injective(pidOf) {
      forall es: seq<Event> | Legal(host, pidOf, START, es)
        ensures DiskOk(host, Exec(host, pidOf, START, es).disk)
      {
        OneWriterEachTakesTurns(host, pidOf, START, es);
        RunKeeps(host, pidOf, START, es);
      }
    } else {
      var v, w :| pidOf(v) == pidOf(w) && v != w;
      var es := SharedProcessPublishesTruncatedFile(host, pidOf, v, w, [0]);
    }
  }

  /** At any point of any run, what the cache hands out under a digest has that digest. */
  lemma CachedReadsAreAuthentic(host: Host, pidOf: nat -> nat, es: seq<Event>, digest: string)
    requires Legal(host, pidOf, START, es) && TurnsTaken(host, pidOf, START, es)
    ensures
      var found := Get(Exec(host, pidOf, START, es).disk, digest);
      found.Ok? ==> DigestOf(host, found.value) == digest
  {
    RunKeeps(host, pidOf, START, es);
    ReadsAreAuthentic(host, Exec(host, pidOf, START, es).disk, digest);
  }
}
