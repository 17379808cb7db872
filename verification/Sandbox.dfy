/** Resource ceilings and byte-quota'd scratch storage (`src/wasi/sandbox.rs`). */
module Sandbox {
  import opened Base
  import opened Digests
  import opened MapSum

  // ----- the fixed-width arithmetic of a write

  /** The `i64` with the same low 64 bits. */
  function I64(x: int): int {
    var low := x % TWO_64;
    if low < TWO_63 then low else low - TWO_64
  }

  /** The `u64` with the same low 64 bits. */
  function U64(x: int): (r: nat) {
    x % TWO_64
  }

  /** The quota test as computed: signed, and wrapping like a release build. */
  predicate Rejects(used: nat, quota: nat, prev: nat, next: nat) {
    var delta := next - prev;
    delta > 0 && I64(I64(used) + delta) > I64(quota)
  }

  /** The quota test as meant. */
  predicate Exceeds(used: nat, quota: nat, prev: nat, next: nat) {
    used + next - prev > quota
  }

  /** The quota plus the new file's length is representable as `i64`. */
  predicate Fits(quota: nat, next: nat) {
    quota + next < TWO_63
  }

  /**
   The signed test decides exactly what is meant if and only if the write does not grow the file, or the
   quota and the new usage are both representable as `i64`. (A quota that is not representable admits
   no growth, so the usage under it is zero.)
   */
  lemma SignedTestIsExactIff(used: nat, quota: nat, prev: nat, next: nat)
    requires prev <= used <= quota < TWO_64 && next < TWO_63
    requires quota < TWO_63 || used == 0
    ensures (Rejects(used, quota, prev, next) <==> Exceeds(used, quota, prev, next))
       <==> (next <= prev || (quota < TWO_63 && used + next - prev < TWO_63))
  {
  }

  /** A quota of 2^63 bytes refuses the first byte; a quota just below it admits a write that exceeds it. */
  lemma SignedTestCanBeWrong()
    ensures Rejects(0, TWO_63, 0, 1) && !Exceeds(0, TWO_63, 0, 1)
    ensures !Rejects(TWO_63 - 1, TWO_63 - 1, 0, 1) && Exceeds(TWO_63 - 1, TWO_63 - 1, 0, 1)
  {
  }

  // ----- the scratch filesystem

  type Path = string

  predicate ValidPath(path: Path) {
    path != "" && path[0] != '/'
  }

  function LengthAt(files: map<Path, Blob>, path: Path): nat {
    if path in files then |files[path]| else 0
  }

  ghost function Lengths(files: map<Path, Blob>): map<Path, nat> {
    map p | p in files :: |files[p]|
  }

  ghost function Total(files: map<Path, Blob>): nat {
    Sum(Lengths(files))
  }

  lemma TotalPut(files: map<Path, Blob>, path: Path, bytes: Blob)
    ensures Total(files[path := bytes]) == Total(files) - LengthAt(files, path) + |bytes|
    ensures LengthAt(files, path) <= Total(files)
  {
    assert Lengths(files[path := bytes]) == Lengths(files)[path := |bytes|];
    SumPut(Lengths(files), path, |bytes|);
    if path !in files {
      assert LengthAt(files, path) == 0;
    }
  }

  lemma TotalRemove(files: map<Path, Blob>, path: Path)
    requires path in files
    ensures Total(files) == Total(files - {path}) + |files[path]|
  {
    assert Lengths(files - {path}) == Lengths(files) - {path};
    SumSplit(Lengths(files), path);
  }

  /** The counter after a write is accounted: an atomic add or an atomic subtract. */
  function Accounted(used: nat, prev: nat, next: nat): nat {
    if next - prev >= 0 then U64(used + (next - prev)) else U64(used - (prev - next))
  }

  lemma AccountingIsModular(total: nat, prev: nat, next: nat)
    requires prev <= total
    ensures Accounted(U64(total), prev, next) == U64(total - prev + next)
  {
  }

  lemma RepresentableIsExact(total: nat, quota: nat, prev: nat, next: nat)
    requires prev <= total <= quota && Fits(quota, next)
    ensures U64(total) == total && U64(total - prev + next) == total - prev + next
    ensures Rejects(total, quota, prev, next) <==> total - prev + next > quota
  {
  }

  class MemFs {
    var files: map<Path, Blob>
    const quota: nat
    var used: nat

    /** The counter agrees with the files, up to the width of the counter. */
    ghost predicate Valid()
      reads this
    {
      quota < TWO_64 && used == U64(Total(files))
    }

    ghost predicate WithinQuota()
      reads this
    {
      Total(files) <= quota
    }

    constructor (quota: nat)
      requires quota < TWO_64
      ensures Valid() && WithinQuota() && this.quota == quota && files == map[] && used == 0
    {
      this.files := map[];
      this.quota := quota;
      this.used := 0;
    }

    function UsedBytes(): nat
      reads this
    {
      used
    }

    function Read(path: Path): Option<Blob>
      reads this
    {
      if path in files then Some(files[path]) else None
    }

    method Write(path: Path, bytes: Blob) returns (r: Result<Unit>)
      requires Valid() && |bytes| < TWO_63
      modifies this`files, this`used
      ensures Valid()
      ensures r.Ok? <==>
        path != "" && path[0] != '/' && !Rejects(old(used), quota, LengthAt(old(files), path), |bytes|)
      ensures files == if r.Ok? then old(files)[path := bytes] else old(files)
      ensures r.Err? ==> r.error == LimitExceeded && used == old(used)
      ensures Fits(quota, |bytes|) && old(WithinQuota()) ==>
        && WithinQuota() && used == Total(files)
        && (r.Ok? <==> path != "" && path[0] != '/' && Total(old(files)[path := bytes]) <= quota)
    {
      TotalPut(files, path, bytes);
      ghost var total := Total(files);
      AccountingIsModular(total, LengthAt(files, path), |bytes|);
      if Fits(quota, |bytes|) && total <= quota {
        RepresentableIsExact(total, quota, LengthAt(files, path), |bytes|);
      }
      if !ValidPath(path) {
        return Err(LimitExceeded);
      }
      var prev, next := LengthAt(files, path), |bytes|;
      if Rejects(used, quota, prev, next) {
        return Err(LimitExceeded);
      }
      used := Accounted(used, prev, next);
      files := files[path := bytes];
      return Ok(Unit);
    }

    method Remove(path: Path) returns (r: Option<Blob>)
      requires Valid()
      modifies this`files, this`used
      ensures Valid()
      ensures r == if path in old(files) then Some(old(files)[path]) else None
      ensures files == old(files) - {path}
      ensures old(WithinQuota()) ==> WithinQuota() && used == Total(files)
    {
      if path !in files {
        assert files - {path} == files;
        return None;
      }
      TotalRemove(files, path);
      r := Some(files[path]);
      files := files - {path};
      used := U64(used - |r.value|);
    }
  }

  // ----- limits

  /** Resource ceilings; the wall-clock budget is in milliseconds. */
  datatype SandboxLimits = SandboxLimits(
    maxMemoryBytes: nat,
    maxInstances: nat,
    maxTables: nat,
    maxEpochDelta: nat,
    maxWallDuration: nat,
    maxBodyBytes: nat,
    memfsQuotaBytes: nat,
    cpus: nat,
    egressAllow: seq<string>,
    defaultDenyEgress: bool)
  {
    function Validate(): Result<Unit> {
      if maxMemoryBytes == 0 || maxWallDuration == 0 || maxInstances == 0 || memfsQuotaBytes == 0
      then Err(LimitExceeded)
      else Ok(Unit)
    }

    function ClampTo(engineMaxMem: nat, engineMaxInstances: nat): SandboxLimits {
      this.(maxMemoryBytes := Min(maxMemoryBytes, engineMaxMem),
            maxInstances := Min(maxInstances, engineMaxInstances),
            maxEpochDelta := Max(maxEpochDelta, 1))
    }

    predicate WithinEngine(engineMaxMem: nat, engineMaxInstances: nat) {
      && maxMemoryBytes <= engineMaxMem
      && maxInstances <= engineMaxInstances
      && maxEpochDelta >= 1
    }
  }

  /** Four of the limits must be positive; the others may be anything. */
  lemma LimitsMeaning(l: SandboxLimits)
    ensures l.Validate() ==
      if l.maxMemoryBytes > 0 && l.maxWallDuration > 0 && l.maxInstances > 0 && l.memfsQuotaBytes > 0
      then Ok(Unit) else Err(LimitExceeded)
  {
  }

  /** What clamping does to each limit: memory and instances come down to the caps, the epoch delta up to one. */
  lemma ClampExact(l: SandboxLimits, mem: nat, instances: nat)
    ensures
      var c := l.ClampTo(mem, instances);
      && c == l.(maxMemoryBytes := c.maxMemoryBytes, maxInstances := c.maxInstances, maxEpochDelta := c.maxEpochDelta)
      && (l.maxMemoryBytes <= mem ==> c.maxMemoryBytes == l.maxMemoryBytes)
      && (l.maxMemoryBytes > mem ==> c.maxMemoryBytes == mem)
      && (l.maxInstances <= instances ==> c.maxInstances == l.maxInstances)
      && (l.maxInstances > instances ==> c.maxInstances == instances)
      && (l.maxEpochDelta == 0 ==> c.maxEpochDelta == 1)
      && (l.maxEpochDelta > 0 ==> c.maxEpochDelta == l.maxEpochDelta)
  {
  }

  /** Clamping enforces the caps, keeps valid limits valid, and changes nothing that is already within. */
  lemma ClampMeaning(l: SandboxLimits, mem: nat, instances: nat)
    requires mem > 0 && instances > 0
    ensures l.ClampTo(mem, instances).WithinEngine(mem, instances)
    ensures l.ClampTo(mem, instances).Validate() == l.Validate()
    ensures l.ClampTo(mem, instances) == l <==> l.WithinEngine(mem, instances)
  {
  }

  /** A tenant's sandbox; clones share the scratch filesystem. */
  datatype Sandbox = Sandbox(
    tenant: string,
    limits: SandboxLimits,
    config: map<string, string>,
    scratch: MemFs)

  method NewSandbox(tenant: string, limits: SandboxLimits, config: map<string, string>)
    returns (r: Result<Sandbox>)
    requires limits.memfsQuotaBytes < TWO_64
    ensures r.Ok? <==>
      && limits.maxMemoryBytes > 0 && limits.maxWallDuration > 0
      && limits.maxInstances > 0 && limits.memfsQuotaBytes > 0
    ensures r.Err? ==> r.error == LimitExceeded
    ensures r.Ok? ==>
      && r.value.tenant == tenant && r.value.limits == limits && r.value.config == config
      && fresh(r.value.scratch) && r.value.scratch.Valid()
      && r.value.scratch.quota == limits.memfsQuotaBytes && r.value.scratch.files == map[]
  {
    var valid := limits.Validate();
    if valid.Err? {
      return Err(valid.error);
    }
    var scratch := new MemFs(limits.memfsQuotaBytes);
    return Ok(Sandbox(tenant, limits, config, scratch));
  }
}
