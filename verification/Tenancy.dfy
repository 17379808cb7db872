/** Tenant ids and the configuration of one tenant (`src/runtime.rs`, `src/config.rs`). */
module Tenancy {
  import opened Base
  import Digests
  import Sandbox

  const MAX_TENANT_ID_LEN := 64

  predicate IsIdChar(c: char) {
    'a' <= c <= 'z' || 'A' <= c <= 'Z' || '0' <= c <= '9' || c == '-' || c == '_'
  }

  predicate ValidTenantId(name: string) {
    0 < |name| <= MAX_TENANT_ID_LEN && forall i :: 0 <= i < |name| ==> IsIdChar(name[i])
  }

  /** `TenantId::new`: an id is its own name. Length counts bytes, which for admissible ids are characters. */
  function NewTenantId(name: string): Result<string> {
    if ValidTenantId(name) then Ok(name) else Err(Error.Config)
  }

  datatype ComponentSource =
    | Oci(reference: string, pin: Option<string>)
    | File(path: string)
  {
    function Validate(): Result<Unit> {
      match this
      case Oci(reference, pin) =>
        if reference == "" then Err(Error.Config)
        else if pin.Some? then Digests.ParseDigest(pin.value)
        else Ok(Unit)
      case File(path) =>
        if path == "" then Err(Error.Config) else Ok(Unit)
    }
  }

  datatype TenantConfig = TenantConfig(
    name: string,
    component: ComponentSource,
    limits: Sandbox.SandboxLimits,
    config: map<string, string>)

  /** Loading a tenant makes these two checks before it touches the registry. */
  predicate LoadableIdAndLimits(t: TenantConfig) {
    NewTenantId(t.name).Ok? && t.limits.Validate().Ok?
  }

  // ----- the checks in full

  const SMALL := "abcdefghijklmnopqrstuvwxyz"
  const CAPITAL := "ABCDEFGHIJKLMNOPQRSTUVWXYZ"
  const OTHER := "0123456789-_"

  lemma SmallLetters(c: char)
    ensures 'a' <= c <= 'z' <==> c in SMALL
  {
    if 'a' <= c <= 'z' {
      assert SMALL[c as int - 'a' as int] == c;
    }
  }

  lemma CapitalLetters(c: char)
    ensures 'A' <= c <= 'Z' <==> c in CAPITAL
  {
    if 'A' <= c <= 'Z' {
      assert CAPITAL[c as int - 'A' as int] == c;
    }
  }

  lemma OtherIdChars(c: char)
    ensures '0' <= c <= '9' || c == '-' || c == '_' <==> c in OTHER
  {
    if '0' <= c <= '9' {
      assert OTHER[c as int - '0' as int] == c;
    } else if c == '-' {
      assert OTHER[10] == c;
    } else if c == '_' {
      assert OTHER[11] == c;
    }
  }

  /** A tenant id has 1 to 64 letters, digits, hyphens and underscores. */
  ghost predicate IsTenantId(name: string) {
    1 <= |name| <= 64 && forall c :: c in name ==> c in SMALL || c in CAPITAL || c in OTHER
  }

  lemma TenantIdMeaning(name: string)
    ensures NewTenantId(name) == if IsTenantId(name) then Ok(name) else Err(Error.Config)
  {
    forall c: char ensures IsIdChar(c) <==> c in SMALL || c in CAPITAL || c in OTHER {
      SmallLetters(c);
      CapitalLetters(c);
      OtherIdChars(c);
    }
    if ValidTenantId(name) {
      forall c | c in name ensures IsIdChar(c) {
        var i :| 0 <= i < |name| && name[i] == c;
      }
    }
    if IsTenantId(name) {
      forall i | 0 <= i < |name| ensures IsIdChar(name[i]) {
        assert name[i] in name;
      }
    }
  }

  /** Something to fetch is named, and its pin, if it has one, is a digest. */
  ghost predicate NamesComponent(source: ComponentSource) {
    match source
    case Oci(reference, pin) => reference != "" && (pin.Some? ==> Digests.IsDigest(pin.value))
    case File(path) => path != ""
  }

  lemma SourceMeaning(source: ComponentSource)
    ensures source.Validate() == if NamesComponent(source) then Ok(Unit) else Err(Error.Config)
  {
    if source.Oci? && source.pin.Some? {
      Digests.DigestGrammar(source.pin.value);
    }
  }

  /** The id is one, and memory, wall-clock time, instances and scratch space are not zero. */
  ghost predicate MayBeLoaded(t: TenantConfig) {
    && IsTenantId(t.name)
    && t.limits.maxMemoryBytes > 0 && t.limits.maxWallDuration > 0
    && t.limits.maxInstances > 0 && t.limits.memfsQuotaBytes > 0
  }

  lemma LoadableMeaning(t: TenantConfig)
    ensures LoadableIdAndLimits(t) <==> MayBeLoaded(t)
  {
    TenantIdMeaning(t.name);
    Sandbox.LimitsMeaning(t.limits);
  }
}
