/**
 The cache directory at the level of file operations: names point at inodes, and an inode has contents
 and knows whether they reached stable storage. The directory has no hard links.
 */
module Disk {
  import opened Base
  import opened Digests
  import opened Numerals

  datatype File = File(content: Blob, synced: bool)

  datatype RawDisk = RawDisk(names: map<string, nat>, inodes: map<nat, File>, nextInode: nat)

  predicate NoLinks(d: RawDisk) {
    && (forall n :: n in d.names ==> d.names[n] in d.inodes && d.names[n] < d.nextInode)
    && (forall i :: i in d.inodes ==> i < d.nextInode)
    && (forall m, n :: m in d.names && n in d.names && m != n ==> d.names[m] != d.names[n])
  }

  type Disk = d: RawDisk | NoLinks(d) witness RawDisk(map[], map[], 0)

  const EMPTY: Disk := RawDisk(map[], map[], 0)

  function FileAt(d: Disk, name: string): File
    requires name in d.names
  {
    d.inodes[d.names[name]]
  }

  const TMP_PREFIX := ".tmp"

  predicate IsTemp(name: string) {
    TMP_PREFIX <= name
  }

  function TmpName(pid: nat): (name: string)
    ensures IsTemp(name)
  {
    ".tmp-" + Decimal(pid)
  }

  lemma TmpNameInjective(p: nat, q: nat)
    requires TmpName(p) == TmpName(q)
    ensures p == q
  {
    assert TmpName(p)[5..] == Decimal(p);
    assert TmpName(q)[5..] == Decimal(q);
    DecimalInjective(p, q);
  }

  /** Temporary names never collide with the names of blobs. */
  lemma BlobNamesAreNotTemporary(host: Host, blob: Blob)
    ensures !IsTemp(HexName(host, blob))
  {
    DigestOfIsWellFormed(host, blob);
    assert IsLowerHexDigit(HexName(host, blob)[0]);
  }

  // ----- the operations `put` performs

  /** `File::create`: a new empty file, or truncation of the one already there. */
  function Create(d: Disk, name: string): (r: Disk)
    ensures name in r.names && r.names.Keys == d.names.Keys + {name}
  {
    if name in d.names then d.(inodes := d.inodes[d.names[name] := File([], false)])
    else RawDisk(d.names[name := d.nextInode], d.inodes[d.nextInode := File([], false)], d.nextInode + 1)
  }

  /** The bytes of a file after `data` is written at `offset`; a gap reads as zeros. */
  function Overlay(content: Blob, offset: nat, data: Blob): (r: Blob)
    ensures |r| == if |content| >= offset + |data| then |content| else offset + |data|
  {
    (if offset <= |content| then content[..offset] else content + seq(offset - |content|, _ => 0))
    + data
    + (if offset + |data| <= |content| then content[offset + |data|..] else [])
  }

  function WriteAt(d: Disk, inode: nat, offset: nat, data: Blob): Disk
    requires inode in d.inodes
  {
    d.(inodes := d.inodes[inode := File(Overlay(d.inodes[inode].content, offset, data), false)])
  }

  function Sync(d: Disk, inode: nat): Disk
    requires inode in d.inodes
  {
    d.(inodes := d.inodes[inode := d.inodes[inode].(synced := true)])
  }

  /** `rename`: the target entry is replaced atomically. */
  function Rename(d: Disk, from: string, to: string): Disk
    requires from in d.names
  {
    d.(names := (d.names - {from})[to := d.names[from]])
  }

  // ----- what the store promises

  /** One directory entry is as it should be: complete, on stable storage, and named by its hash. */
  ghost predicate EntryOk(host: Host, d: Disk, name: string)
    requires name in d.names
  {
    FileAt(d, name).synced && name == HexName(host, FileAt(d, name).content)
  }

  /** Every entry that is not temporary is as it should be. */
  ghost predicate DiskOk(host: Host, d: Disk) {
    forall n :: n in d.names && !IsTemp(n) ==> EntryOk(host, d, n)
  }

  predicate Holds(d: Disk, digest: string) {
    var name := SanitizeDigest(digest);
    name.Ok? && name.value in d.names
  }

  function Get(d: Disk, digest: string): (r: Result<Blob>)
    ensures r.Ok? <==> Holds(d, digest)
    ensures r.Err? ==> r.error == ComponentNotFound
  {
    var name :- SanitizeDigest(digest);
    if name in d.names then Ok(FileAt(d, name).content) else Err(ComponentNotFound)
  }

  /**
   What is read back under a digest has that digest, although nothing is hashed on the way: the name of
   a file that satisfies the invariant is the hash of its contents, and no temporary name is a digest.
   */
  lemma ReadsAreAuthentic(host: Host, d: Disk, digest: string)
    requires DiskOk(host, d)
    ensures Get(d, digest).Ok? ==> DigestOf(host, Get(d, digest).value) == digest
  {
    if Get(d, digest).Ok? {
      var hex := SanitizeDigest(digest).value;
      assert hex[0] == digest[|SCHEME|];
      assert EntryOk(host, d, hex);
    }
  }
}
