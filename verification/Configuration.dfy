/** Size arithmetic and eager validation (`src/config.rs`). */
module Configuration {
  import opened Ascii
  import opened Base
  import opened Numerals
  import Sandbox
  import opened Tenancy

  // ----- sizes

  /** The characters with the Unicode property White_Space, which `str::trim` strips. */
  predicate IsWhiteSpace(c: char) {
    var n := c as int;
    || 0x9 <= n <= 0xD || n == 0x20 || n == 0x85 || n == 0xA0 || n == 0x1680
    || 0x2000 <= n <= 0x200A || n == 0x2028 || n == 0x2029 || n == 0x202F || n == 0x205F || n == 0x3000
  }

  function TrimStart(s: string): string {
    if s != "" && IsWhiteSpace(s[0]) then TrimStart(s[1..]) else s
  }

  function TrimEnd(s: string): string {
    if s != "" && IsWhiteSpace(s[|s| - 1]) then TrimEnd(s[..|s| - 1]) else s
  }

  function Trim(s: string): string {
    TrimEnd(TrimStart(s))
  }

  /** Position of the first character that is not a digit. */
  function DigitPrefix(s: string): (n: nat)
    ensures n <= |s| && AllDigits(s[..n]) && (n < |s| ==> !IsDigit(s[n]))
  {
    if s == "" || !IsDigit(s[0]) then 0
    else
      var n := DigitPrefix(s[1..]);
      assert s[..n + 1] == [s[0]] + s[1..][..n];
      n + 1
  }

  function Multiplier(unit: string): Option<nat> {
    var u := Lower(unit);
    if u == "" then Some(1)
    else if u in {"k", "kb", "kib"} then Some(1024)
    else if u in {"m", "mb", "mib"} then Some(1024 * 1024)
    else if u in {"g", "gb", "gib"} then Some(1024 * 1024 * 1024)
    else None
  }

  function ParseUsize(digits: string): Option<nat>
    requires AllDigits(digits)
  {
    if digits == "" || Value(digits) >= TWO_64 then None else Some(Value(digits))
  }

  function CheckedMul(a: nat, b: nat): Option<nat> {
    if a * b < TWO_64 then Some(a * b) else None
  }

  function ParseMemory(size: string): (r: Result<nat>)
    ensures r.Err? ==> r.error == Error.Config
  {
    var s := Trim(size);
    if s == "" then Err(Error.Config)
    else
      var n := DigitPrefix(s);
      var digits, unit := s[..n], s[n..];
      if digits == "" then Err(Error.Config)
      else match ParseUsize(digits)
        case None => Err(Error.Config)
        case Some(value) =>
          match Multiplier(unit)
          case None => Err(Error.Config)
          case Some(multiplier) =>
            match CheckedMul(value, multiplier)
            case None => Err(Error.Config)
            case Some(product) => Ok(product)
  }

  // ----- what sizes mean

  lemma WhiteSpaceMeaning(c: char)
    ensures IsWhiteSpace(c) <==>
      || c as int in {9, 10, 11, 12, 13, 32, 133, 160, 5760, 8232, 8233, 8239, 8287, 12288}
      || 8192 <= c as int <= 8202
  {
  }

  predicate AllWhite(s: string) {
    forall i :: 0 <= i < |s| ==> IsWhiteSpace(s[i])
  }

  lemma {:induction false} TrimmedStart(before: string, text: string)
    requires AllWhite(before) && (text != "" ==> !IsWhiteSpace(text[0]))
    ensures TrimStart(before + text) == text
  {
    if before == "" {
      assert before + text == text;
    } else {
      assert (before + text)[1..] == before[1..] + text;
      TrimmedStart(before[1..], text);
    }
  }

  lemma {:induction false} TrimmedEnd(text: string, after: string)
    requires AllWhite(after) && (text != "" ==> !IsWhiteSpace(text[|text| - 1]))
    ensures TrimEnd(text + after) == text
  {
    if after == "" {
      assert text + after == text;
    } else {
      assert (text + after)[..|text + after| - 1] == text + after[..|after| - 1];
      TrimmedEnd(text, after[..|after| - 1]);
    }
  }

  /** Trimming takes off white space around a text that neither begins nor ends with any. */
  lemma TrimOf(before: string, text: string, after: string)
    requires AllWhite(before) && AllWhite(after)
    requires text != "" && !IsWhiteSpace(text[0]) && !IsWhiteSpace(text[|text| - 1])
    ensures Trim(before + text + after) == text
  {
    assert before + text + after == before + (text + after);
    TrimmedStart(before, text + after);
    TrimmedEnd(text, after);
  }

  lemma {:induction false} TrimStartTakes(s: string) returns (before: string)
    ensures AllWhite(before) && s == before + TrimStart(s)
  {
    before := "";
    if s != "" && IsWhiteSpace(s[0]) {
      var rest := TrimStartTakes(s[1..]);
      before := [s[0]] + rest;
    }
  }

  lemma {:induction false} TrimEndTakes(s: string) returns (after: string)
    ensures AllWhite(after) && s == TrimEnd(s) + after
  {
    after := "";
    if s != "" && IsWhiteSpace(s[|s| - 1]) {
      var rest := TrimEndTakes(s[..|s| - 1]);
      after := rest + [s[|s| - 1]];
    }
  }

  /** A unit is empty or one of three letters, with or without `b` or `ib`, in any case. */
  predicate UnitDenotes(unit: string, bytes: nat) {
    || (unit == "" && bytes == 1)
    || (unit != "" && unit[1..] in {"", "b", "B", "ib", "iB", "Ib", "IB"}
        && ((unit[0] in "kK" && bytes == 1024)
            || (unit[0] in "mM" && bytes == 1_048_576)
            || (unit[0] in "gG" && bytes == 1_073_741_824)))
  }

  lemma LowerIs(c: char)
    ensures LowerChar(c) == 'k' <==> c in "kK"
    ensures LowerChar(c) == 'm' <==> c in "mM"
    ensures LowerChar(c) == 'g' <==> c in "gG"
    ensures LowerChar(c) == 'i' <==> c in "iI"
    ensures LowerChar(c) == 'b' <==> c in "bB"
  {
  }

  lemma UnitTail(unit: string)
    requires unit != ""
    ensures Lower(unit)[1..] in {"", "b", "ib"} <==> unit[1..] in {"", "b", "B", "ib", "iB", "Ib", "IB"}
  {
    var u, tail := Lower(unit), unit[1..];
    assert |u[1..]| == |tail| && forall i :: 0 <= i < |tail| ==> u[1..][i] == LowerChar(tail[i]);
    forall i | 0 <= i < |tail|
      ensures (LowerChar(tail[i]) == 'i' <==> tail[i] in "iI") && (LowerChar(tail[i]) == 'b' <==> tail[i] in "bB")
    {
      LowerIs(tail[i]);
    }
    if |tail| == 1 {
      assert u[1..] == [LowerChar(tail[0])] && tail == [tail[0]];
    } else if |tail| == 2 {
      assert u[1..] == [LowerChar(tail[0]), LowerChar(tail[1])] && tail == [tail[0], tail[1]];
    }
  }

  lemma UnitForms(u: string)
    requires u != ""
    ensures u in {"k", "kb", "kib"} <==> u[0] == 'k' && u[1..] in {"", "b", "ib"}
    ensures u in {"m", "mb", "mib"} <==> u[0] == 'm' && u[1..] in {"", "b", "ib"}
    ensures u in {"g", "gb", "gib"} <==> u[0] == 'g' && u[1..] in {"", "b", "ib"}
  {
    assert u[1..] == "" ==> u == [u[0]];
    assert u[1..] == "b" ==> u == [u[0], 'b'] by {
      assert u == [u[0]] + u[1..];
    }
    assert u[1..] == "ib" ==> u == [u[0], 'i', 'b'] by {
      assert u == [u[0]] + u[1..];
    }
    assert "k"[1..] == "m"[1..] == "g"[1..] == "";
    assert "kb"[1..] == "mb"[1..] == "gb"[1..] == "b";
    assert "kib"[1..] == "mib"[1..] == "gib"[1..] == "ib";
  }

  lemma UnitMeaning(unit: string, bytes: nat)
    ensures Multiplier(unit) == Some(bytes) <==> UnitDenotes(unit, bytes)
  {
    var u := Lower(unit);
    if unit != "" {
      LowerIs(unit[0]);
      UnitTail(unit);
      assert u == [LowerChar(unit[0])] + u[1..];
      UnitForms(u);
    }
  }

  /** `text` is digits followed by a unit, and denotes `n` bytes exactly. */
  ghost predicate Denotes(text: string, digits: string, unit: string, n: nat) {
    && text == digits + unit
    && digits != "" && AllDigits(digits)
    && exists bytes :: UnitDenotes(unit, bytes) && n == Value(digits) * bytes
  }

  /** The size is such a text, with white space around it. */
  ghost predicate Reads(size: string, before: string, digits: string, unit: string, after: string, n: nat) {
    && size == before + (digits + unit) + after && AllWhite(before) && AllWhite(after)
    && Denotes(digits + unit, digits, unit, n)
  }

  lemma {:induction false} DigitPrefixOf(digits: string, unit: string)
    requires AllDigits(digits) && (unit != "" ==> !IsDigit(unit[0]))
    ensures DigitPrefix(digits + unit) == |digits|
  {
    if digits == "" {
      assert digits + unit == unit;
    } else {
      assert (digits + unit)[1..] == digits[1..] + unit;
      DigitPrefixOf(digits[1..], unit);
    }
  }

  lemma UnitsAreLetters(unit: string, bytes: nat)
    requires UnitDenotes(unit, bytes) && unit != ""
    ensures !IsDigit(unit[0]) && !IsWhiteSpace(unit[|unit| - 1])
  {
    assert unit == [unit[0]] + unit[1..];
    assert unit[|unit| - 1] in "kKmMgGbB";
  }

  lemma DigitsAreNotWhite(digits: string, i: nat)
    requires AllDigits(digits) && i < |digits|
    ensures !IsWhiteSpace(digits[i])
  {
  }

  lemma ParsedDenotes(size: string, n: nat)
    requires ParseMemory(size) == Ok(n)
    ensures n < TWO_64 && exists digits, unit :: Denotes(Trim(size), digits, unit, n)
  {
    var s := Trim(size);
    var k := DigitPrefix(s);
    UnitMeaning(s[k..], Multiplier(s[k..]).value);
    assert Denotes(s, s[..k], s[k..], n);
  }

  lemma DenotedParses(size: string, digits: string, unit: string, n: nat)
    requires n < TWO_64 && Denotes(Trim(size), digits, unit, n)
    ensures ParseMemory(size) == Ok(n)
  {
    var s := Trim(size);
    var bytes :| UnitDenotes(unit, bytes) && n == Value(digits) * bytes;
    UnitMeaning(unit, bytes);
    if unit != "" {
      UnitsAreLetters(unit, bytes);
    }
    DigitPrefixOf(digits, unit);
    assert s[..DigitPrefix(s)] == digits && s[DigitPrefix(s)..] == unit;
    ProductBound(Value(digits), bytes);
  }

  /**
   A size is accepted, with result `n`, if and only if it is digits and a known unit that denote `n`, with
   any white space around them, and `n` fits in 64 bits.
   */
  lemma ParseMemoryIsExact(size: string, n: nat)
    ensures ParseMemory(size) == Ok(n) <==>
      n < TWO_64 && exists before, digits, unit, after :: Reads(size, before, digits, unit, after, n)
  {
    if ParseMemory(size) == Ok(n) {
      ParsedDenotes(size, n);
      var digits, unit :| Denotes(Trim(size), digits, unit, n);
      var before := TrimStartTakes(size);
      var after := TrimEndTakes(TrimStart(size));
      assert size == before + (digits + unit) + after;
      assert Reads(size, before, digits, unit, after, n);
    }
    if before, digits, unit, after :| n < TWO_64 && Reads(size, before, digits, unit, after, n) {
      var bytes :| UnitDenotes(unit, bytes) && n == Value(digits) * bytes;
      var text := digits + unit;
      DigitsAreNotWhite(digits, 0);
      DigitsAreNotWhite(digits, |digits| - 1);
      if unit != "" {
        UnitsAreLetters(unit, bytes);
        assert text[|text| - 1] == unit[|unit| - 1];
      }
      TrimOf(before, text, after);
      DenotedParses(size, digits, unit, n);
    }
  }

  lemma ProductBound(a: nat, b: nat)
    requires b >= 1
    ensures a <= a * b
  {
  }

  /** Printing a byte count and reading it back gives the byte count, for every `usize`. */
  lemma ParseMemoryInvertsPrinting(n: nat)
    requires n < TWO_64
    ensures ParseMemory(Decimal(n)) == Ok(n)
  {
    var s := Decimal(n);
    ValueOfDecimal(n);
    assert UnitDenotes("", 1) && s == s + "";
    assert Denotes(s, s, "", n);
    assert s == "" + (s + "") + "";
    assert Reads(s, "", s, "", "", n);
    ParseMemoryIsExact(s, n);
  }

  // ----- validation

  datatype EngineConfig = EngineConfig(maxMemoryBytes: nat, maxInstances: nat)

  function CheckTenant(t: TenantConfig): Result<Unit> {
    var _ :- t.limits.Validate();
    var _ :- NewTenantId(t.name);
    t.component.Validate()
  }

  function ClampTenant(engine: EngineConfig, t: TenantConfig): TenantConfig {
    t.(limits := t.limits.ClampTo(engine.maxMemoryBytes, engine.maxInstances))
  }

  function Clamped(engine: EngineConfig, tenants: seq<TenantConfig>): (r: seq<TenantConfig>)
    ensures |r| == |tenants|
    ensures forall i :: 0 <= i < |r| ==> r[i] == ClampTenant(engine, tenants[i])
  {
    seq(|tenants|, i requires 0 <= i < |tenants| => ClampTenant(engine, tenants[i]))
  }

  /** Index of the first tenant that fails its checks, or the number of tenants. */
  function FirstBad(tenants: seq<TenantConfig>): (i: nat)
    ensures i <= |tenants|
    ensures forall j :: 0 <= j < i ==> CheckTenant(tenants[j]).Ok?
    ensures i < |tenants| ==> CheckTenant(tenants[i]).Err?
  {
    if tenants == [] || CheckTenant(tenants[0]).Err? then 0 else 1 + FirstBad(tenants[1..])
  }

  predicate EngineOk(engine: EngineConfig) {
    engine.maxMemoryBytes > 0 && engine.maxInstances > 0
  }

  /** The verdict on a configuration: the engine first, then the first offending tenant in order. */
  function Verdict(engine: EngineConfig, tenants: seq<TenantConfig>): Result<Unit> {
    if !EngineOk(engine) then Err(Error.Config)
    else
      var i := FirstBad(tenants);
      if i < |tenants| then CheckTenant(tenants[i]) else Ok(Unit)
  }

  class Config {
    var engine: EngineConfig
    var tenants: seq<TenantConfig>

    constructor (engine: EngineConfig, tenants: seq<TenantConfig>)
      ensures this.engine == engine && this.tenants == tenants
    {
      this.engine := engine;
      this.tenants := tenants;
    }

    method ClampTenants()
      modifies this`tenants
      ensures tenants == Clamped(engine, old(tenants))
    {
      var i := 0;
      ghost var before := tenants;
      while i < |tenants|
        invariant 0 <= i <= |tenants| == |before|
        invariant forall j :: 0 <= j < i ==> tenants[j] == ClampTenant(engine, before[j])
        invariant forall j :: i <= j < |before| ==> tenants[j] == before[j]
      {
        tenants := tenants[i := ClampTenant(engine, tenants[i])];
        i := i + 1;
      }
    }

    method Validate() returns (r: Result<Unit>)
      modifies this`tenants
      ensures r == Verdict(engine, old(tenants))
      ensures tenants == if r.Ok? then Clamped(engine, old(tenants)) else old(tenants)
    {
      if engine.maxMemoryBytes == 0 {
        return Err(Error.Config);
      }
      if engine.maxInstances == 0 {
        return Err(Error.Config);
      }
      for i := 0 to |tenants|
        invariant forall j :: 0 <= j < i ==> CheckTenant(tenants[j]).Ok?
        invariant tenants == old(tenants)
      {
        var checked := CheckTenant(tenants[i]);
        if checked.Err? {
          return checked;
        }
      }
      ClampTenants();
      return Ok(Unit);
    }
  }

  /**
   A validated configuration: every tenant is valid and within the engine's caps, loading cannot fail on
   its id or its limits, and validating again accepts it and changes nothing.
   */
  lemma ValidatedConfig(engine: EngineConfig, tenants: seq<TenantConfig>)
    requires Verdict(engine, tenants).Ok?
    ensures
      var after := Clamped(engine, tenants);
      && (forall t :: t in after ==>
            && Acceptable(t) && t.limits.maxMemoryBytes <= engine.maxMemoryBytes
            && t.limits.maxInstances <= engine.maxInstances && t.limits.maxEpochDelta >= 1)
      && Verdict(engine, after).Ok?
      && Clamped(engine, after) == after
  {
    var after := Clamped(engine, tenants);
    forall i | 0 <= i < |tenants|
      ensures CheckTenant(after[i]).Ok? && Acceptable(after[i]) && ClampTenant(engine, after[i]) == after[i]
      ensures after[i].limits.WithinEngine(engine.maxMemoryBytes, engine.maxInstances)
    {
      assert CheckTenant(tenants[i]).Ok?;
      CheckMeaning(after[i]);
      Sandbox.ClampMeaning(tenants[i].limits, engine.maxMemoryBytes, engine.maxInstances);
      Sandbox.ClampMeaning(after[i].limits, engine.maxMemoryBytes, engine.maxInstances);
    }
  }

  /** A tenant that passes every check. */
  ghost predicate Acceptable(t: TenantConfig) {
    MayBeLoaded(t) && NamesComponent(t.component)
  }

  lemma CheckMeaning(t: TenantConfig)
    ensures CheckTenant(t).Ok? <==> Acceptable(t)
    ensures
      var sensible := t.limits.maxMemoryBytes > 0 && t.limits.maxWallDuration > 0
                      && t.limits.maxInstances > 0 && t.limits.memfsQuotaBytes > 0;
      CheckTenant(t).Err? ==> CheckTenant(t).error == (if sensible then Error.Config else LimitExceeded)
  {
    Sandbox.LimitsMeaning(t.limits);
    TenantIdMeaning(t.name);
    SourceMeaning(t.component);
  }

  /** Acceptance, in full: the engine has room and every tenant passes each of its checks. */
  lemma AcceptedIff(engine: EngineConfig, tenants: seq<TenantConfig>)
    ensures Verdict(engine, tenants).Ok? <==>
      && engine.maxMemoryBytes > 0 && engine.maxInstances > 0
      && forall t :: t in tenants ==> Acceptable(t)
  {
    var i := FirstBad(tenants);
    forall t | t in tenants ensures CheckTenant(t).Ok? <==> Acceptable(t) {
      CheckMeaning(t);
    }
    if i < |tenants| {
      assert tenants[i] in tenants;
    }
  }

  /**
   The error of a refused configuration: an engine without room comes first; then it is the error of the
   first tenant that fails, a limit error for its limits and a configuration error for anything else.
   */
  lemma RefusedFor(engine: EngineConfig, tenants: seq<TenantConfig>) returns (i: nat)
    requires Verdict(engine, tenants).Err?
    ensures engine.maxMemoryBytes == 0 || engine.maxInstances == 0 ==> Verdict(engine, tenants) == Err(Error.Config)
    ensures engine.maxMemoryBytes > 0 && engine.maxInstances > 0 ==>
      && i < |tenants| && !Acceptable(tenants[i]) && (forall j :: 0 <= j < i ==> Acceptable(tenants[j]))
      && Verdict(engine, tenants).error ==
           if tenants[i].limits.maxMemoryBytes > 0 && tenants[i].limits.maxWallDuration > 0
              && tenants[i].limits.maxInstances > 0 && tenants[i].limits.memfsQuotaBytes > 0
           then Error.Config else LimitExceeded
  {
    i := FirstBad(tenants);
    forall j | 0 <= j < |tenants| ensures CheckTenant(tenants[j]).Ok? <==> Acceptable(tenants[j]) {
      CheckMeaning(tenants[j]);
    }
    if i < |tenants| {
      CheckMeaning(tenants[i]);
    }
  }
}
