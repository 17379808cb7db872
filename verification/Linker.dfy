/** The per-instance host context and its scratch imports (`src/component/linker.rs`). */
module Linker {
  import opened Base
  import Digests
  import opened Sandbox

  /** State stored with every instance: whose it is and which scratch filesystem it reaches. */
  datatype HostCtx = HostCtx(tenant: string, sandbox: Sandbox, config: map<string, string>)

  function NewHostCtx(sandbox: Sandbox): (ctx: HostCtx)
    ensures ctx.tenant == sandbox.tenant && ctx.sandbox == sandbox && ctx.config == sandbox.config
  {
    HostCtx(sandbox.tenant, sandbox, sandbox.config)
  }

  datatype ScratchError = QuotaExceeded | InvalidPath

  /**
   Every refusal of the filesystem is a limit error, so a guest never sees `InvalidPath`: an absolute or
   empty path is reported as an exceeded quota.
   */
  method ScratchWrite(ctx: HostCtx, path: string, data: Digests.Blob) returns (r: Option<ScratchError>)
    requires ctx.sandbox.scratch.Valid() && |data| < TWO_63
    modifies ctx.sandbox.scratch`files, ctx.sandbox.scratch`used
    ensures ctx.sandbox.scratch.Valid()
    ensures r == None || r == Some(QuotaExceeded)
    ensures path == "" || path[0] == '/' ==> r == Some(QuotaExceeded)
    ensures r.None? ==> ctx.sandbox.scratch.Read(path) == Some(data)
    ensures ctx.sandbox.scratch.files ==
      if r.None? then old(ctx.sandbox.scratch.files)[path := data] else old(ctx.sandbox.scratch.files)
    ensures Fits(ctx.sandbox.scratch.quota, |data|) && old(ctx.sandbox.scratch.WithinQuota()) ==>
      (r.None? <==>
        && path != "" && path[0] != '/'
        && Total(old(ctx.sandbox.scratch.files)[path := data]) <= ctx.sandbox.scratch.quota)
  {
    var outcome := ctx.sandbox.scratch.Write(path, data);
    match outcome
    case Ok(_) => r := None;
    case Err(LimitExceeded) => r := Some(QuotaExceeded);
    case Err(_) => r := Some(InvalidPath);
  }

  function ScratchRead(ctx: HostCtx, path: string): Option<Digests.Blob>
    reads ctx.sandbox.scratch
  {
    ctx.sandbox.scratch.Read(path)
  }

  function ScratchBytes(ctx: HostCtx): nat
    reads ctx.sandbox.scratch
  {
    ctx.sandbox.scratch.UsedBytes()
  }
}
