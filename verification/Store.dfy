/** The content-addressable store (`src/registry/store.rs`), used by one writer at a time. */
module Store {
  import opened Base
  import opened Digests
  import opened Disk
  import opened MapSum
  import P = StoreProtocol

  /** Which file operation of a `put` fails, if any. A failing write leaves a prefix behind. */
  datatype Fault = NoFault | CreateFails | WriteFails(kept: nat) | SyncFails | RenameFails

  function PutSpec(host: Host, disk: Disk, pid: nat, blob: Blob, fault: Fault): (Result<string>, Disk) {
    var name, tmp := HexName(host, blob), TmpName(pid);
    if name in disk.names then (Ok(DigestOf(host, blob)), disk)
    else if fault.CreateFails? then (Err(Io), disk)
    else
      var created := Create(disk, tmp);
      var inode := created.names[tmp];
      if fault.WriteFails? && fault.kept < |blob| then
        (Err(Io), if fault.kept == 0 then created else WriteAt(created, inode, 0, blob[..fault.kept]))
      else
        var written := if blob == [] then created else WriteAt(created, inode, 0, blob);
        if fault.WriteFails? || fault.SyncFails? then (Err(Io), written)
        else
          var synced := Sync(written, inode);
          if fault.RenameFails? then (Err(Io), synced)
          else (Ok(DigestOf(host, blob)), Rename(synced, tmp, name))
  }

  /** The blobs a reader can see, by file name. */
  function Published(disk: Disk): map<string, Blob> {
    map n | n in disk.names && !IsTemp(n) :: FileAt(disk, n).content
  }

  function Sizes(blobs: map<string, Blob>): map<string, nat> {
    map n | n in blobs :: |blobs[n]|
  }

  class ContentStore {
    const host: Host
    const pid: nat
    var disk: Disk

    constructor (host: Host, pid: nat, disk: Disk)
      ensures this.host == host && this.pid == pid && this.disk == disk
    {
      this.host := host;
      this.pid := pid;
      this.disk := disk;
    }

    /** Create, write, sync and rename, when the blob is not there yet. */
    method WriteBlob(name: string, blob: Blob, fault: Fault) returns (r: Result<string>)
      requires name == HexName(host, blob) && name !in disk.names
      modifies this`disk
      ensures (r, disk) == PutSpec(host, old(disk), pid, blob, fault)
    {
      var tmp := TmpName(pid);
      if fault.CreateFails? {
        return Err(Io);
      }
      disk := Create(disk, tmp);
      var inode := disk.names[tmp];
      var reached := if fault.WriteFails? && fault.kept < |blob| then fault.kept else |blob|;
      if reached > 0 {
        disk := WriteAt(disk, inode, 0, blob[..reached]);
      }
      assert blob[..|blob|] == blob;
      if fault.WriteFails? || fault.SyncFails? {
        return Err(Io);
      }
      disk := Sync(disk, inode);
      if fault.RenameFails? {
        return Err(Io);
      }
      disk := Rename(disk, tmp, name);
      return Ok(DigestOf(host, blob));
    }

    method Put(blob: Blob, fault: Fault) returns (r: Result<string>)
      modifies this`disk
      ensures (r, disk) == PutSpec(host, old(disk), pid, blob, fault)
      ensures DiskOk(host, old(disk)) ==> DiskOk(host, disk)
      ensures Published(disk) ==
        if r.Ok? && HexName(host, blob) !in Published(old(disk))
        then Published(old(disk))[HexName(host, blob) := blob] else Published(old(disk))
    {
      ghost var before := disk;
      DigestOfIsWellFormed(host, blob);
      var digest := DigestOf(host, blob);
      var name := SanitizeDigest(digest).value;
      if name in disk.names {
        r := Ok(digest);
      } else {
        r := WriteBlob(name, blob, fault);
      }
      PutPublishes(host, before, pid, blob, fault);
      if DiskOk(host, before) {
        PutKeepsDisk(host, before, pid, blob, fault);
      }
    }

    /** Bytes on disk; the directory is listed in no particular order. */
    method DiskUsage() returns (total: nat)
      ensures total == Sum(Sizes(Published(disk)))
    {
      total := 0;
      var entries := disk.names.Keys;
      ghost var sizes := Sizes(Published(disk));
      ghost var left := sizes;
      while entries != {}
        invariant entries <= disk.names.Keys
        invariant forall n :: n in left ==> n in entries && !IsTemp(n) && left[n] == |FileAt(disk, n).content|
        invariant forall n :: n in entries && !IsTemp(n) ==> n in left
        invariant total + Sum(left) == Sum(sizes)
      {
        var name :| name in entries;
        if !IsTemp(name) {
          SumSplit(left, name);
          total := total + |FileAt(disk, name).content|;
          left := left - {name};
        }
        entries := entries - {name};
      }
      assert left == map[];
    }
  }

  /** The two directories agree except perhaps on one temporary entry. */
  ghost predicate SameElsewhere(d: Disk, d': Disk, tmp: string) {
    forall n :: n != tmp ==>
      (n in d.names <==> n in d'.names) && (n in d.names ==> FileAt(d', n) == FileAt(d, n))
  }

  lemma CreateElsewhere(d: Disk, tmp: string)
    ensures SameElsewhere(d, Create(d, tmp), tmp)
  {
  }

  lemma InodeElsewhere(d: Disk, d': Disk, tmp: string)
    requires tmp in d.names && d'.names == d.names
    requires d'.inodes == d.inodes[d.names[tmp] := d'.inodes[d.names[tmp]]]
    ensures SameElsewhere(d, d', tmp)
  {
  }

  lemma ElsewherePublishes(d: Disk, d': Disk, tmp: string)
    requires SameElsewhere(d, d', tmp) && IsTemp(tmp)
    ensures Published(d') == Published(d)
  {
    assert Published(d').Keys == Published(d).Keys;
  }

  lemma RenamePublishes(d: Disk, tmp: string, name: string)
    requires tmp in d.names && IsTemp(tmp) && !IsTemp(name) && name !in d.names
    ensures Published(Rename(d, tmp, name)) == Published(d)[name := FileAt(d, tmp).content]
  {
    assert Published(Rename(d, tmp, name)).Keys == Published(d).Keys + {name};
  }

  /** The directory a successful put renames in: the temporary file holds the blob, nothing else changed. */
  lemma StagedBlob(disk: Disk, tmp: string, blob: Blob) returns (created: Disk, written: Disk, synced: Disk)
    ensures created == Create(disk, tmp)
    ensures written == if blob == [] then created else WriteAt(created, created.names[tmp], 0, blob)
    ensures synced == Sync(written, created.names[tmp])
    ensures SameElsewhere(disk, created, tmp)
    ensures SameElsewhere(disk, written, tmp)
    ensures SameElsewhere(disk, synced, tmp)
    ensures tmp in synced.names && FileAt(synced, tmp).content == blob
  {
    created := Create(disk, tmp);
    CreateElsewhere(disk, tmp);
    written := if blob == [] then created else WriteAt(created, created.names[tmp], 0, blob);
    InodeElsewhere(created, written, tmp);
    synced := Sync(written, created.names[tmp]);
    InodeElsewhere(created, synced, tmp);
  }

  /**
   What a put means to readers: success publishes the blob under its hash unless that name is taken,
   failure publishes nothing, and a put can only succeed or report an i/o error. A put that published
   leaves no temporary file behind.
   */
  lemma PutPublishes(host: Host, disk: Disk, pid: nat, blob: Blob, fault: Fault)
    ensures
      var (r, disk') := PutSpec(host, disk, pid, blob, fault);
      var name := HexName(host, blob);
      && (r == Ok(DigestOf(host, blob)) || r == Err(Io))
      && (r.Ok? <==> name in disk.names || fault.NoFault?)
      && Published(disk') ==
         (if r.Ok? && name !in Published(disk) then Published(disk)[name := blob] else Published(disk))
      && (r.Ok? && name !in disk.names ==> TmpName(pid) !in disk'.names)
  {
    BlobNamesAreNotTemporary(host, blob);
    var name, tmp := HexName(host, blob), TmpName(pid);
    if name !in disk.names && !fault.CreateFails? {
      if fault.WriteFails? && fault.kept < |blob| {
        var created, written, synced := StagedBlob(disk, tmp, blob[..fault.kept]);
        ElsewherePublishes(disk, written, tmp);
        assert fault.kept == 0 <==> blob[..fault.kept] == [];
      } else {
        var created, written, synced := StagedBlob(disk, tmp, blob);
        ElsewherePublishes(disk, written, tmp);
        ElsewherePublishes(disk, synced, tmp);
        RenamePublishes(synced, tmp, name);
      }
    }
  }

  /** A put of a blob not yet there begins with an empty temporary file. */
  lemma CreateRun(host: Host, pidOf: nat -> nat, from: P.State, w: nat, blob: Blob)
    returns (es: seq<P.Event>, s: P.State)
    requires P.PhaseOf(from, w).Idle? && HexName(host, blob) !in from.disk.names
    ensures P.Legal(host, pidOf, from, es) && P.OnePut(host, pidOf, from, es, w, blob)
    ensures s == P.Exec(host, pidOf, from, es) && s.disk == Create(from.disk, TmpName(pidOf(w)))
    ensures P.PhaseOf(s, w) == P.Writing(blob, s.disk.names[TmpName(pidOf(w))], 0)
  {
    es, s := P.Extend(host, pidOf, from, [], P.BeginPut(w, blob));
    es, s := P.ExtendPut(host, pidOf, from, es, P.CreateTemp(w), w, blob);
  }

  /** Then the first `upto` bytes are written. */
  lemma WriteRun(host: Host, pidOf: nat -> nat, from: P.State, w: nat, blob: Blob, upto: nat)
    returns (es: seq<P.Event>, s: P.State)
    requires P.PhaseOf(from, w).Idle? && HexName(host, blob) !in from.disk.names && upto <= |blob|
    ensures P.Legal(host, pidOf, from, es) && P.OnePut(host, pidOf, from, es, w, blob)
    ensures s == P.Exec(host, pidOf, from, es)
    ensures
      var created := Create(from.disk, TmpName(pidOf(w)));
      var inode := created.names[TmpName(pidOf(w))];
      && P.PhaseOf(s, w) == P.Writing(blob, inode, upto)
      && s.disk == if upto == 0 then created else WriteAt(created, inode, 0, blob[..upto])
  {
    es, s := CreateRun(host, pidOf, from, w, blob);
    if upto > 0 {
      es, s := P.ExtendPut(host, pidOf, from, es, P.WriteSome(w, upto), w, blob);
    }
  }

  /** A put stops short: its writer is done, its leftovers stay. */
  lemma StopRun(host: Host, pidOf: nat -> nat, from: P.State, es: seq<P.Event>, s: P.State, w: nat, blob: Blob)
    returns (es': seq<P.Event>)
    requires P.Legal(host, pidOf, from, es) && P.OnePut(host, pidOf, from, es, w, blob)
    requires s == P.Exec(host, pidOf, from, es) && !P.PhaseOf(s, w).Idle?
    ensures P.Legal(host, pidOf, from, es') && P.OnePut(host, pidOf, from, es', w, blob)
    ensures P.Exec(host, pidOf, from, es').disk == s.disk && P.PhaseOf(P.Exec(host, pidOf, from, es'), w).Idle?
    ensures es'[|es'| - 1].Stop?
  {
    var s';
    es', s' := P.ExtendPut(host, pidOf, from, es, P.Stop(w), w, blob);
  }

  /**
   A sequential put is one run of the step-by-step protocol by a single writer, at whatever point the other
   writers are; the run stops short exactly if the put fails.
   */
  lemma PutIsProtocolRun(host: Host, pidOf: nat -> nat, from: P.State, w: nat, blob: Blob, fault: Fault)
    returns (es: seq<P.Event>)
    requires P.PhaseOf(from, w).Idle?
    ensures P.Legal(host, pidOf, from, es) && P.OnePut(host, pidOf, from, es, w, blob)
    ensures
      var (r, disk') := PutSpec(host, from.disk, pidOf(w), blob, fault);
      var s' := P.Exec(host, pidOf, from, es);
      s'.disk == disk' && P.PhaseOf(s', w).Idle? && (es[|es| - 1].Stop? <==> r.Err?)
  {
    var s;
    if HexName(host, blob) in from.disk.names || fault.CreateFails? {
      es, s := P.Extend(host, pidOf, from, [], P.BeginPut(w, blob));
      if HexName(host, blob) !in from.disk.names {
        es := StopRun(host, pidOf, from, es, s, w, blob);
      }
      return;
    }
    var upto := if fault.WriteFails? && fault.kept < |blob| then fault.kept else |blob|;
    es, s := WriteRun(host, pidOf, from, w, blob, upto);
    assert blob[..|blob|] == blob;
    if fault.WriteFails? || fault.SyncFails? {
      es := StopRun(host, pidOf, from, es, s, w, blob);
      return;
    }
    es, s := P.ExtendPut(host, pidOf, from, es, P.SyncTemp(w), w, blob);
    if fault.RenameFails? {
      es := StopRun(host, pidOf, from, es, s, w, blob);
      return;
    }
    es, s := P.ExtendPut(host, pidOf, from, es, P.Publish(w), w, blob);
  }

  /** Hence a put keeps the store's invariant, whichever operation fails. */
  lemma PutKeepsDisk(host: Host, disk: Disk, pid: nat, blob: Blob, fault: Fault)
    requires DiskOk(host, disk)
    ensures DiskOk(host, PutSpec(host, disk, pid, blob, fault).1)
  {
    var from := P.State(disk, map[]);
    var es := PutIsProtocolRun(host, P.ONE_EACH, from, pid, blob, fault);
    P.OneWriterEachTakesTurns(host, P.ONE_EACH, from, es);
    P.RunKeeps(host, P.ONE_EACH, from, es);
  }

  // ----- sequences of puts

  datatype PutCall = PutCall(pid: nat, blob: Blob, fault: Fault)

  /** The directory after a sequence of puts from an empty one, and the blobs whose put succeeded. */
  function PutAll(host: Host, calls: seq<PutCall>): (Disk, seq<Blob>) {
    if calls == [] then (EMPTY, [])
    else
      var (disk, stored) := PutAll(host, calls[..|calls| - 1]);
      var call := calls[|calls| - 1];
      var (r, disk') := PutSpec(host, disk, call.pid, call.blob, call.fault);
      (disk', if r.Ok? then stored + [call.blob] else stored)
  }

  /** The ideal store: one entry per hash. */
  function Index(host: Host, blobs: seq<Blob>): map<string, Blob> {
    if blobs == [] then map[]
    else
      var m, b := Index(host, blobs[..|blobs| - 1]), blobs[|blobs| - 1];
      if HexName(host, b) in m then m else m[HexName(host, b) := b]
  }

  /** Total length of the distinct blobs of a sequence. */
  function DistinctBytes(blobs: seq<Blob>): nat {
    if blobs == [] then 0
    else
      var init, b := blobs[..|blobs| - 1], blobs[|blobs| - 1];
      DistinctBytes(init) + if b in init then 0 else |b|
  }

  /** Whatever fails on the way, readers see exactly the index of the blobs stored successfully. */
  lemma {:induction false} StoreIsIndex(host: Host, calls: seq<PutCall>)
    ensures
      var (disk, stored) := PutAll(host, calls);
      DiskOk(host, disk) && Published(disk) == Index(host, stored)
  {
    if calls != [] {
      StoreIsIndex(host, calls[..|calls| - 1]);
      var (disk, stored) := PutAll(host, calls[..|calls| - 1]);
      var call := calls[|calls| - 1];
      PutPublishes(host, disk, call.pid, call.blob, call.fault);
      PutKeepsDisk(host, disk, call.pid, call.blob, call.fault);
      assert (stored + [call.blob])[..|stored|] == stored;
    }
  }

  lemma {:induction false} IndexNames(host: Host, blobs: seq<Blob>)
    ensures forall b :: b in blobs ==> HexName(host, b) in Index(host, blobs)
    ensures forall n :: n in Index(host, blobs) ==>
      Index(host, blobs)[n] in blobs && n == HexName(host, Index(host, blobs)[n])
  {
    if blobs != [] {
      assert blobs == blobs[..|blobs| - 1] + [blobs[|blobs| - 1]];
      IndexNames(host, blobs[..|blobs| - 1]);
    }
  }

  lemma IndexFinds(host: Host, blobs: seq<Blob>, b: Blob)
    requires CollisionFree(host, set b | b in blobs) && b in blobs
    ensures HexName(host, b) in Index(host, blobs) && Index(host, blobs)[HexName(host, b)] == b
  {
    IndexNames(host, blobs);
    var c := Index(host, blobs)[HexName(host, b)];
    assert DigestOf(host, b) == DigestOf(host, c);
  }

  lemma SizesPut(m: map<string, Blob>, name: string, b: Blob)
    requires name !in m
    ensures Sum(Sizes(m[name := b])) == Sum(Sizes(m)) + |b|
  {
    assert Sizes(m[name := b]) == Sizes(m)[name := |b|];
    SumPut(Sizes(m), name, |b|);
  }

  lemma {:induction false} IndexBytes(host: Host, blobs: seq<Blob>)
    requires CollisionFree(host, set b | b in blobs)
    ensures Sum(Sizes(Index(host, blobs))) == DistinctBytes(blobs)
  {
    if blobs == [] {
      assert Sizes(Index(host, blobs)) == map[];
    } else {
      var init, b := blobs[..|blobs| - 1], blobs[|blobs| - 1];
      assert blobs == init + [b];
      assert CollisionFree(host, set c | c in init);
      IndexBytes(host, init);
      IndexNames(host, init);
      var m, name := Index(host, init), HexName(host, b);
      if name in m {
        assert DigestOf(host, b) == DigestOf(host, m[name]);
        assert b in blobs && m[name] in blobs;
        assert b in init;
      } else {
        SizesPut(m, name, b);
      }
    }
  }

  /** Lookups by digest see the published blobs. */
  lemma LookupsArePublished(d: Disk, digest: string)
    ensures Holds(d, digest) <==> WellFormedDigest(digest) && digest[|SCHEME|..] in Published(d)
    ensures Holds(d, digest) ==> Get(d, digest) == Ok(Published(d)[digest[|SCHEME|..]])
  {
    if WellFormedDigest(digest) {
      var hex := SanitizeDigest(digest).value;
      assert digest[|SCHEME|..] == hex;
      assert hex[0] == digest[|SCHEME|];
    }
  }

  /**
   After any sequence of puts, one at a time and with any faults, from an empty directory: reading back
   a stored blob's digest gives the blob, the digests present are exactly those of the stored blobs, and
   the bytes on disk are those of the distinct stored blobs.
   */
  lemma StoreServesWhatWasPut(host: Host, calls: seq<PutCall>)
    requires CollisionFree(host, set b | b in PutAll(host, calls).1)
    ensures
      var (disk, stored) := PutAll(host, calls);
      && (forall b :: b in stored ==> Get(disk, DigestOf(host, b)) == Ok(b))
      && (forall d :: Holds(disk, d) <==> exists b :: b in stored && DigestOf(host, b) == d)
      && Sum(Sizes(Published(disk))) == DistinctBytes(stored)
  {
    var (disk, stored) := PutAll(host, calls);
    StoreIsIndex(host, calls);
    IndexBytes(host, stored);
    forall b | b in stored
      ensures Holds(disk, DigestOf(host, b)) && Get(disk, DigestOf(host, b)) == Ok(b)
    {
      IndexFinds(host, stored, b);
      DigestOfIsWellFormed(host, b);
      LookupsArePublished(disk, DigestOf(host, b));
      assert DigestOf(host, b)[|SCHEME|..] == HexName(host, b);
    }
    forall d | Holds(disk, d) ensures exists b :: b in stored && DigestOf(host, b) == d {
      LookupsArePublished(disk, d);
      IndexNames(host, stored);
      var b := Published(disk)[d[|SCHEME|..]];
      assert b in stored && DigestOf(host, b) == d;
    }
  }
}
