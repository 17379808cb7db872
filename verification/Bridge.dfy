/** Outbound allow-rules (`src/http/bridge.rs`). */
module Bridge {
  import opened Ascii
  import opened Base
  import Sandbox

  // ----- string splitting

  /** The parts of a non-empty string, from those of its tail. */
  function ConsPart(x: char, rest: seq<string>, c: char): (parts: seq<string>)
    requires |rest| > 0
    ensures |parts| > 0
  {
    if x == c then [""] + rest else [[x] + rest[0]] + rest[1..]
  }

  /** `str::split`: the parts between separators; there is always at least one. */
  function Split(s: string, c: char): (parts: seq<string>)
    ensures |parts| > 0
  {
    if s == "" then [""] else ConsPart(s[0], Split(s[1..], c), c)
  }

  function Join(parts: seq<string>, c: char): string
    requires |parts| > 0
  {
    if |parts| == 1 then parts[0] else parts[0] + [c] + Join(parts[1..], c)
  }

  /** `str::rsplit_once`, by the position of the last separator. */
  function LastIndex(s: string, c: char): (r: Option<nat>)
    ensures r.None? <==> c !in s
    ensures r.Some? ==> r.value < |s| && s[r.value] == c && c !in s[r.value + 1..]
  {
    if s == "" then None
    else if s[|s| - 1] == c then Some(|s| - 1)
    else
      assert s == s[..|s| - 1] + [s[|s| - 1]];
      var r := LastIndex(s[..|s| - 1], c);
      assert r.Some? ==> s[r.value + 1..] == s[..|s| - 1][r.value + 1..] + [s[|s| - 1]];
      r
  }

  const SEPARATOR := "://"

  predicate SeparatorAt(s: string, i: int) {
    0 <= i <= |s| - 3 && s[i] == ':' && s[i + 1] == '/' && s[i + 2] == '/'
  }

  ghost predicate HasSeparator(s: string) {
    exists i :: SeparatorAt(s, i)
  }

  function FindSeparator(s: string, from: nat): (r: Option<nat>)
    requires from <= |s|
    ensures r.None? <==> forall i :: from <= i ==> !SeparatorAt(s, i)
    ensures r.Some? ==>
      from <= r.value && SeparatorAt(s, r.value) && forall i :: from <= i < r.value ==> !SeparatorAt(s, i)
    decreases |s| - from
  {
    if from + 3 > |s| then None
    else if SeparatorAt(s, from) then Some(from)
    else FindSeparator(s, from + 1)
  }

  function SplitScheme(s: string): (Option<string>, string) {
    match FindSeparator(s, 0)
    case Some(i) => (Some(s[..i]), s[i + 3..])
    case None => (None, s)
  }

  function SplitAuthority(s: string): (string, Option<string>) {
    match LastIndex(s, ':')
    case Some(i) => if ']' !in s[..i] then (s[..i], Some(s[i + 1..])) else (s, None)
    case None => (s, None)
  }

  // ----- rules

  /** The last segments of `hs` are `ss`, ignoring case. */
  predicate EndsWithIgnoringCase(hs: seq<string>, ss: seq<string>) {
    && |hs| >= |ss|
    && forall i :: 0 <= i < |ss| ==> EqIgnoreCase(hs[|hs| - |ss| + i], ss[i])
  }

  predicate SegmentsMatch(p: seq<string>, h: seq<string>)
    requires |p| > 0
  {
    if p == ["*"] then true
    else if p[0] == "*" then EndsWithIgnoringCase(h, p[1..])
    else
      && |p| == |h|
      && forall i :: 0 <= i < |p| ==> p[i] == "*" || EqIgnoreCase(p[i], h[i])
  }

  predicate HostMatches(pattern: string, host: string) {
    SegmentsMatch(Split(pattern, '.'), Split(host, '.'))
  }

  /** Both sides state the part and they differ. */
  predicate Conflict(a: Option<string>, b: Option<string>) {
    a.Some? && b.Some? && a.value != b.value
  }

  predicate SchemeConflict(a: Option<string>, b: Option<string>) {
    a.Some? && b.Some? && !EqIgnoreCase(a.value, b.value)
  }

  predicate PatternMatches(rule: string, authority: string) {
    var (ruleScheme, ruleRest) := SplitScheme(rule);
    var (targetScheme, targetRest) := SplitScheme(authority);
    if SchemeConflict(ruleScheme, targetScheme) then false
    else
      var (ruleHost, rulePort) := SplitAuthority(ruleRest);
      var (targetHost, targetPort) := SplitAuthority(targetRest);
      !Conflict(rulePort, targetPort) && HostMatches(ruleHost, targetHost)
  }

  predicate AnyMatches(rules: seq<string>, authority: string) {
    exists i :: 0 <= i < |rules| && PatternMatches(rules[i], authority)
  }

  class EgressPolicy {
    var allow: seq<string>
    var defaultDeny: bool

    constructor (allow: seq<string>, defaultDeny: bool)
      ensures this.allow == allow && this.defaultDeny == defaultDeny
    {
      this.allow := allow;
      this.defaultDeny := defaultDeny;
    }

    predicate Allows(authority: string)
      reads this
    {
      AnyMatches(allow, authority) || !defaultDeny
    }

    /**
     The merged policy allows what a rule of either allows, and everything else only if both policies
     were open: merging never opens a policy that denied by default.
     */
    method Extend(other: EgressPolicy)
      modifies this
      ensures allow == old(allow) + old(other.allow)
      ensures defaultDeny == (old(defaultDeny) || old(other.defaultDeny))
      ensures forall a: string :: Allows(a) <==>
        || AnyMatches(old(allow), a) || AnyMatches(old(other.allow), a)
        || (!old(defaultDeny) && !old(other.defaultDeny))
    {
      ghost var left, right := allow, other.allow;
      allow := allow + other.allow;
      defaultDeny := defaultDeny || other.defaultDeny;
      forall a: string ensures AnyMatches(left + right, a) <==> AnyMatches(left, a) || AnyMatches(right, a) {
        MergedRules(left, right, a);
      }
    }
  }

  lemma MergedRules(left: seq<string>, right: seq<string>, authority: string)
    ensures AnyMatches(left + right, authority) <==> AnyMatches(left, authority) || AnyMatches(right, authority)
  {
    var all := left + right;
    if AnyMatches(left, authority) {
      var i :| 0 <= i < |left| && PatternMatches(left[i], authority);
      assert all[i] == left[i];
    }
    if AnyMatches(right, authority) {
      var i :| 0 <= i < |right| && PatternMatches(right[i], authority);
      assert all[|left| + i] == right[i];
    }
  }

  // ----- splitting and joining are inverse

  lemma {:induction false} SplitIsFree(s: string, c: char)
    ensures forall i :: 0 <= i < |Split(s, c)| ==> c !in Split(s, c)[i]
  {
    if s != "" {
      SplitIsFree(s[1..], c);
    }
  }

  lemma {:induction false} JoinSplit(s: string, c: char)
    ensures Join(Split(s, c), c) == s
  {
    if s != "" {
      JoinSplit(s[1..], c);
      var rest := Split(s[1..], c);
      if s[0] == c {
        assert ([""] + rest)[1..] == rest;
      } else {
        var parts := [[s[0]] + rest[0]] + rest[1..];
        assert parts[1..] == rest[1..];
        assert s == [s[0]] + s[1..];
      }
    }
  }

  lemma {:induction false} SplitFree(s: string, c: char)
    requires c !in s
    ensures Split(s, c) == [s]
  {
    if s != "" {
      SplitFree(s[1..], c);
      assert s == [s[0]] + s[1..];
    }
  }

  lemma ConsPartConcat(x: char, front: seq<string>, back: seq<string>, c: char)
    requires |front| > 0
    ensures ConsPart(x, front + back, c) == ConsPart(x, front, c) + back
  {
    assert (front + back)[1..] == front[1..] + back;
  }

  /** Splitting distributes over a separator. */
  lemma {:induction false} SplitConcat(a: string, b: string, c: char)
    ensures Split(a + [c] + b, c) == Split(a, c) + Split(b, c)
  {
    var s := a + [c] + b;
    if a == "" {
      assert s[1..] == b;
    } else {
      SplitConcat(a[1..], b, c);
      assert s[1..] == a[1..] + [c] + b;
      ConsPartConcat(a[0], Split(a[1..], c), Split(b, c), c);
    }
  }

  lemma {:induction false} SplitJoin(parts: seq<string>, c: char)
    requires |parts| > 0 && forall i :: 0 <= i < |parts| ==> c !in parts[i]
    ensures Split(Join(parts, c), c) == parts
  {
    SplitFree(parts[0], c);
    if |parts| > 1 {
      SplitJoin(parts[1..], c);
      SplitConcat(parts[0], Join(parts[1..], c), c);
    }
  }

  lemma {:induction false} JoinConcat(a: seq<string>, b: seq<string>, c: char)
    requires |a| > 0 && |b| > 0
    ensures Join(a + b, c) == Join(a, c) + [c] + Join(b, c)
  {
    if |a| == 1 {
      assert (a + b)[1..] == b;
    } else {
      JoinConcat(a[1..], b, c);
      assert (a + b)[1..] == a[1..] + b;
    }
  }

  /** The parts of the lower-cased string are the lower-cased parts. */
  predicate LoweredParts(parts: seq<string>, lowered: seq<string>) {
    |lowered| == |parts| && forall i :: 0 <= i < |parts| ==> lowered[i] == Lower(parts[i])
  }

  lemma ConsPartLower(x: char, rest: seq<string>, lowered: seq<string>)
    requires |rest| > 0 && LoweredParts(rest, lowered)
    ensures LoweredParts(ConsPart(x, rest, '.'), ConsPart(LowerChar(x), lowered, '.'))
  {
    assert Lower([x] + rest[0]) == [LowerChar(x)] + Lower(rest[0]);
    assert LowerChar(x) == '.' <==> x == '.';
  }

  /** Lower-casing neither creates nor destroys dots. */
  lemma {:induction false} SplitLower(s: string)
    ensures LoweredParts(Split(s, '.'), Split(Lower(s), '.'))
  {
    if s != "" {
      SplitLower(s[1..]);
      assert Lower(s)[1..] == Lower(s[1..]);
      ConsPartLower(s[0], Split(s[1..], '.'), Split(Lower(s[1..]), '.'));
    }
  }

  // ----- what a host pattern means

  /** `h` is `s` or a subdomain of `s`, ignoring case. */
  predicate IsOrUnder(h: string, s: string) {
    || EqIgnoreCase(h, s)
    || (|h| > |s| && h[|h| - |s| - 1] == '.' && EqIgnoreCase(h[|h| - |s|..], s))
  }

  /** `h` is `s`, or ends with a dot and `s`. */
  predicate IsOrUnderExactly(h: string, s: string) {
    h == s || (|h| > |s| && h[|h| - |s| - 1] == '.' && h[|h| - |s|..] == s)
  }

  predicate EndsWith(hs: seq<string>, ss: seq<string>) {
    |hs| >= |ss| && hs[|hs| - |ss|..] == ss
  }

  lemma SuffixOfSegments(h: string, s: string)
    requires EndsWith(Split(h, '.'), Split(s, '.'))
    ensures IsOrUnderExactly(h, s)
  {
    var hs, ss := Split(h, '.'), Split(s, '.');
    JoinSplit(h, '.');
    JoinSplit(s, '.');
    var front := hs[..|hs| - |ss|];
    assert hs == front + ss;
    if front == [] {
      assert hs == ss;
    } else {
      JoinConcat(front, ss, '.');
      var f := Join(front, '.');
      assert h == f + ['.'] + s;
    }
  }

  lemma SegmentsOfSuffix(h: string, s: string)
    requires IsOrUnderExactly(h, s)
    ensures EndsWith(Split(h, '.'), Split(s, '.'))
  {
    if h != s {
      var front := h[..|h| - |s| - 1];
      assert h == front + ['.'] + s;
      SplitConcat(front, s, '.');
    }
  }

  lemma LoweredSegments(hs: seq<string>, ss: seq<string>, hl: seq<string>, sl: seq<string>)
    requires LoweredParts(hs, hl) && LoweredParts(ss, sl)
    ensures EndsWithIgnoringCase(hs, ss) <==> EndsWith(hl, sl)
  {
    if |hl| >= |sl| {
      var tail := hl[|hl| - |sl|..];
      assert forall i :: 0 <= i < |sl| ==> tail[i] == hl[|hs| - |ss| + i];
      if tail == sl {
        assert forall i :: 0 <= i < |ss| ==> tail[i] == sl[i];
      }
    }
  }

  lemma SegmentsIgnoringCase(h: string, s: string)
    ensures EndsWithIgnoringCase(Split(h, '.'), Split(s, '.')) <==>
      EndsWith(Split(Lower(h), '.'), Split(Lower(s), '.'))
  {
    SplitLower(h);
    SplitLower(s);
    LoweredSegments(Split(h, '.'), Split(s, '.'), Split(Lower(h), '.'), Split(Lower(s), '.'));
  }

  lemma UnderIgnoringCase(h: string, s: string)
    ensures IsOrUnder(h, s) <==> IsOrUnderExactly(Lower(h), Lower(s))
  {
    if |h| > |s| {
      assert Lower(h)[|h| - |s|..] == Lower(h[|h| - |s|..]);
    }
  }

  lemma SplitWildcard(s: string)
    ensures Split("*." + s, '.') == ["*"] + Split(s, '.')
  {
    SplitConcat("*", s, '.');
    SplitFree("*", '.');
    assert "*" + ['.'] + s == "*." + s;
  }

  lemma WildcardComparesSegments(ss: seq<string>, hs: seq<string>)
    requires |ss| > 0
    ensures SegmentsMatch(["*"] + ss, hs) <==> EndsWithIgnoringCase(hs, ss)
  {
    var p := ["*"] + ss;
    assert p[1..] == ss && |p| > 1;
  }

  /** A leading wildcard means: that domain or anything under it, ignoring case. */
  lemma WildcardMeansSubdomain(s: string, h: string)
    ensures HostMatches("*." + s, h) <==> IsOrUnder(h, s)
  {
    SplitWildcard(s);
    WildcardComparesSegments(Split(s, '.'), Split(h, '.'));
    SegmentsIgnoringCase(h, s);
    UnderIgnoringCase(h, s);
    if IsOrUnderExactly(Lower(h), Lower(s)) {
      SegmentsOfSuffix(Lower(h), Lower(s));
    }
    if EndsWith(Split(Lower(h), '.'), Split(Lower(s), '.')) {
      SuffixOfSegments(Lower(h), Lower(s));
    }
  }

  /** A pattern without wildcard segments matches exactly its own spellings. */
  lemma PlainPatternMeansEqual(pattern: string, h: string)
    requires "*" !in Split(pattern, '.')
    ensures HostMatches(pattern, h) <==> EqIgnoreCase(pattern, h)
  {
    JoinSplit(Lower(pattern), '.');
    JoinSplit(Lower(h), '.');
    SplitLower(pattern);
    SplitLower(h);
    if |Split(pattern, '.')| == |Split(h, '.')| {
      SegmentsIgnoringCase(h, pattern);
    }
  }

  /** A choice of one dot-free string for every wildcard segment that spells out the host. */
  ghost predicate Spells(choice: seq<string>, pattern: string, h: string) {
    var p := Split(pattern, '.');
    && |choice| == |p|
    && (forall i :: 0 <= i < |p| ==> '.' !in choice[i] && (p[i] == "*" || EqIgnoreCase(p[i], choice[i])))
    && Join(choice, '.') == h
  }

  /** Any other pattern matches exactly the hosts obtained by putting one dot-free string for each `*`. */
  lemma InnerWildcardMeansOneSegment(pattern: string, h: string)
    requires Split(pattern, '.')[0] != "*"
    ensures HostMatches(pattern, h) <==> exists choice :: Spells(choice, pattern, h)
  {
    if HostMatches(pattern, h) {
      SplitIsFree(h, '.');
      JoinSplit(h, '.');
      assert Spells(Split(h, '.'), pattern, h);
    }
    if choice :| Spells(choice, pattern, h) {
      SplitJoin(choice, '.');
    }
  }

  /** The lone wildcard matches every host. */
  lemma LoneWildcardMeansAnyHost(h: string)
    ensures HostMatches("*", h)
  {
    SplitFree("*", '.');
  }

  /** Every pattern is the lone wildcard, begins with a wildcard segment, or begins with another segment. */
  lemma PatternKinds(pattern: string)
    ensures pattern == "*" || "*." <= pattern || Split(pattern, '.')[0] != "*"
  {
    JoinSplit(pattern, '.');
    var parts := Split(pattern, '.');
    if parts[0] == "*" && |parts| > 1 {
      assert pattern == "*" + ['.'] + Join(parts[1..], '.');
      assert pattern[..2] == "*.";
    }
  }

  // ----- rules and policies

  /** A rule or an authority with its optional scheme and port. */
  function Written(scheme: Option<string>, host: string, port: Option<string>): string {
    (if scheme.Some? then scheme.value + SEPARATOR else "") + host + (if port.Some? then ":" + port.value else "")
  }

  /** A scheme without separators, a host without ':', ']' and '/', and a port without ':' and '/'. */
  predicate Plain(scheme: Option<string>, host: string, port: Option<string>) {
    && (scheme.Some? ==> ':' !in scheme.value && '/' !in scheme.value)
    && ':' !in host && ']' !in host && '/' !in host
    && (port.Some? ==> ':' !in port.value && '/' !in port.value)
  }

  lemma WrittenSplits(scheme: Option<string>, host: string, port: Option<string>)
    requires Plain(scheme, host, port)
    ensures SplitScheme(Written(scheme, host, port)).0 == scheme
    ensures SplitAuthority(SplitScheme(Written(scheme, host, port)).1) == (host, port)
  {
    var rest := host + (if port.Some? then ":" + port.value else "");
    assert '/' !in rest;
    if scheme.Some? {
      assert Written(scheme, host, port) == scheme.value + SEPARATOR + rest;
      assert !HasSeparator(scheme.value) by {
        assert forall i :: 0 <= i < |scheme.value| ==> scheme.value[i] != ':';
      }
      SchemeIsSplitOff(scheme.value, rest);
    } else {
      assert Written(scheme, host, port) == rest;
      NoScheme(rest);
    }
    if port.Some? {
      assert rest == host + ":" + port.value;
      PortIsSplitOff(host, port.value);
    } else {
      assert rest == host;
      BareHostSplits(host);
    }
  }

  /**
   A rule matches an authority exactly if their hosts match, and their schemes (ignoring case) and their
   ports agree wherever both state one.
   */
  lemma RuleMeaning(ruleScheme: Option<string>, ruleHost: string, rulePort: Option<string>,
                    scheme: Option<string>, host: string, port: Option<string>)
    requires Plain(ruleScheme, ruleHost, rulePort) && Plain(scheme, host, port)
    ensures PatternMatches(Written(ruleScheme, ruleHost, rulePort), Written(scheme, host, port)) <==>
      && HostMatches(ruleHost, host)
      && (ruleScheme.Some? && scheme.Some? ==> EqIgnoreCase(ruleScheme.value, scheme.value))
      && (rulePort.Some? && port.Some? ==> rulePort.value == port.value)
  {
    WrittenSplits(ruleScheme, ruleHost, rulePort);
    WrittenSplits(scheme, host, port);
  }

  /** A policy allows what a rule of it matches, and everything if it is open; the lone wildcard is such a rule. */
  lemma AllowsMeaning(policy: EgressPolicy, authority: string)
    ensures policy.Allows(authority) <==>
      !policy.defaultDeny || exists rule :: rule in policy.allow && PatternMatches(rule, authority)
    ensures "*" in policy.allow ==> policy.Allows(authority)
  {
    if rule :| rule in policy.allow && PatternMatches(rule, authority) {
      var i :| 0 <= i < |policy.allow| && policy.allow[i] == rule;
      assert PatternMatches(policy.allow[i], authority);
    }
    if "*" in policy.allow {
      var i :| 0 <= i < |policy.allow| && policy.allow[i] == "*";
      AnyHostRule(authority);
      assert PatternMatches(policy.allow[i], authority);
    }
  }

  /** The policy a tenant's limits stand for: its rules, and whether anything else is refused. */
  method NewEgressPolicy(limits: Sandbox.SandboxLimits) returns (policy: EgressPolicy)
    ensures fresh(policy)
    ensures policy.allow == limits.egressAllow && policy.defaultDeny == limits.defaultDenyEgress
    ensures forall a: string :: policy.Allows(a) <==>
      !limits.defaultDenyEgress || exists rule :: rule in limits.egressAllow && PatternMatches(rule, a)
  {
    policy := new EgressPolicy(limits.egressAllow, limits.defaultDenyEgress);
    forall a: string
      ensures policy.Allows(a) <==>
        !limits.defaultDenyEgress || exists rule :: rule in limits.egressAllow && PatternMatches(rule, a)
    {
      AllowsMeaning(policy, a);
    }
  }

  lemma AnyHostRule(authority: string)
    ensures PatternMatches("*", authority)
  {
    NoScheme("*");
    BareHostSplits("*");
    LoneWildcardMeansAnyHost(SplitAuthority(SplitScheme(authority).1).0);
  }

  // ----- bare hosts

  /** The first separator of `scheme://rest` is the one after the scheme. */
  lemma SchemeIsSplitOff(scheme: string, rest: string)
    requires !HasSeparator(scheme)
    ensures SplitScheme(scheme + SEPARATOR + rest) == (Some(scheme), rest)
  {
    var s := scheme + SEPARATOR + rest;
    assert SeparatorAt(s, |scheme|);
    forall i | 0 <= i < |scheme| ensures !SeparatorAt(s, i) {
      if i + 2 < |scheme| {
        assert !SeparatorAt(scheme, i);
      } else if i + 2 == |scheme| {
        assert s[i + 2] == ':';
      } else {
        assert s[i + 1] == ':';
      }
    }
    assert FindSeparator(s, 0) == Some(|scheme|);
    assert s[..|scheme|] == scheme && s[|scheme| + 3..] == rest;
  }

  lemma PortIsSplitOff(host: string, port: string)
    requires ':' !in host && ']' !in host && ':' !in port
    ensures SplitAuthority(host + ":" + port) == (host, Some(port))
  {
    var s := host + ":" + port;
    assert s[|host|] == ':';
    assert forall j :: 0 <= j < |host| ==> s[j] == host[j];
    assert forall j :: |host| < j < |s| ==> s[j] == port[j - |host| - 1];
    assert LastIndex(s, ':') == Some(|host|);
    assert s[..|host|] == host && s[|host| + 1..] == port;
  }

  lemma BareHostSplits(host: string)
    requires ':' !in host
    ensures SplitScheme(host) == (None, host) && SplitAuthority(host) == (host, None)
  {
    assert forall i :: 0 <= i < |host| ==> host[i] != ':';
    assert FindSeparator(host, 0).None?;
  }

  lemma SplitPartsAreClean(rule: string)
    ensures
      var (scheme, rest) := SplitScheme(rule);
      var (_, port) := SplitAuthority(rest);
      && (scheme.Some? ==> !HasSeparator(scheme.value))
      && (port.Some? ==> ':' !in port.value)
  {
    var (scheme, rest) := SplitScheme(rule);
    if scheme.Some? {
      forall i ensures !SeparatorAt(scheme.value, i) {
        if SeparatorAt(scheme.value, i) {
          assert SeparatorAt(rule, i);
        }
      }
    }
  }

  predicate HostRuleMatches(rule: string, host: string) {
    HostMatches(SplitAuthority(SplitScheme(rule).1).0, host)
  }

  lemma FullAuthorityMatch(rule: string, scheme: string, host: string, port: string)
    requires ':' !in host && ']' !in host && !HasSeparator(scheme) && ':' !in port
    ensures PatternMatches(rule, scheme + SEPARATOR + (host + ":" + port)) <==>
      && !SchemeConflict(SplitScheme(rule).0, Some(scheme))
      && !Conflict(SplitAuthority(SplitScheme(rule).1).1, Some(port))
      && HostRuleMatches(rule, host)
  {
    SchemeIsSplitOff(scheme, host + ":" + port);
    PortIsSplitOff(host, port);
  }

  /** The rule matches the host under some scheme and some port. */
  ghost predicate MatchesUnderSome(rule: string, host: string) {
    exists scheme, port :: !HasSeparator(scheme) && ':' !in port
      && PatternMatches(rule, scheme + SEPARATOR + (host + ":" + port))
  }

  /**
   Checking a bare host, as outbound requests are checked, is the projection of checking a full
   authority: a rule matches the host if and only if it matches it under some scheme and some port.
   */
  lemma BareHostIsProjection(rule: string, host: string)
    requires ':' !in host && ']' !in host
    ensures PatternMatches(rule, host) <==> MatchesUnderSome(rule, host)
  {
    BareHostSplits(host);
    assert PatternMatches(rule, host) <==> HostRuleMatches(rule, host);
    if scheme, port :| (
      && !HasSeparator(scheme) && ':' !in port
      && PatternMatches(rule, scheme + SEPARATOR + (host + ":" + port)))
    {
      FullAuthorityMatch(rule, scheme, host, port);
    }
    if HostRuleMatches(rule, host) {
      SplitPartsAreClean(rule);
      var ruleScheme, rulePort := SplitScheme(rule).0, SplitAuthority(SplitScheme(rule).1).1;
      var scheme := if ruleScheme.Some? then ruleScheme.value else "";
      var port := if rulePort.Some? then rulePort.value else "";
      FullAuthorityMatch(rule, scheme, host, port);
    }
  }

  // ----- hosts for which it is not

  /** A segment has no characters but those of the string. */
  lemma {:induction false} SegmentChars(s: string, c: char, x: char)
    requires x !in s
    ensures forall i :: 0 <= i < |Split(s, c)| ==> x !in Split(s, c)[i]
  {
    if s != "" {
      SegmentChars(s[1..], c, x);
    }
  }

  lemma NoWildcards(s: string)
    requires '*' !in s
    ensures "*" !in Split(s, '.')
  {
    SegmentChars(s, '.', '*');
    forall i | 0 <= i < |Split(s, '.')| ensures Split(s, '.')[i] != "*" {
      assert '*' !in Split(s, '.')[i];
    }
  }

  lemma NoScheme(s: string)
    requires '/' !in s
    ensures SplitScheme(s) == (None, s)
  {
    assert forall i :: 0 <= i < |s| ==> s[i] != '/';
    assert FindSeparator(s, 0).None?;
  }

  lemma EqualsItself(s: string)
    ensures EqIgnoreCase(s, s)
  {
  }

  lemma EqualLengths(s: string, t: string)
    requires EqIgnoreCase(s, t)
    ensures |s| == |t|
  {
  }

  /** As a rule without wildcards, a host matches itself when it is checked bare. */
  lemma HostMatchesItself(host: string)
    requires '/' !in host && '*' !in host
    ensures PatternMatches(host, host)
  {
    NoScheme(host);
    var part := SplitAuthority(host).0;
    assert forall x :: x in part ==> x in host;
    NoWildcards(part);
    EqualsItself(part);
    PlainPatternMeansEqual(part, part);
  }

  /** With a ':' or ']' in the host, the host part of the full authority is longer than that of the bare host. */
  lemma AuthorityIsLonger(host: string, port: string)
    requires (':' in host || ']' in host) && ':' !in port
    ensures |SplitAuthority(host).0| < |SplitAuthority(host + ":" + port).0|
  {
    var s := host + ":" + port;
    assert s[|host|] == ':';
    assert forall j :: |host| < j < |s| ==> s[j] == port[j - |host| - 1];
    assert LastIndex(s, ':') == Some(|host|);
    assert s[..|host|] == host;
  }

  /** Under a scheme and a port, such a host does not match itself. */
  lemma HostMissesItself(host: string, scheme: string, port: string)
    requires '/' !in host && '*' !in host && (':' in host || ']' in host)
    requires !HasSeparator(scheme) && ':' !in port
    ensures !PatternMatches(host, scheme + SEPARATOR + (host + ":" + port))
  {
    NoScheme(host);
    SchemeIsSplitOff(scheme, host + ":" + port);
    AuthorityIsLonger(host, port);
    var part, target := SplitAuthority(host).0, SplitAuthority(host + ":" + port).0;
    assert forall x :: x in part ==> x in host;
    NoWildcards(part);
    PlainPatternMeansEqual(part, target);
    if EqIgnoreCase(part, target) {
      EqualLengths(part, target);
    }
  }

  /**
   Exactly when the check of a bare host is the projection, for hosts with no slash and no wildcard: if and
   only if the host has neither ':' nor ']', which is to say that it is not an IPv6 literal.
   */
  lemma ProjectionIff(host: string)
    requires '/' !in host && '*' !in host
    ensures (forall rule :: PatternMatches(rule, host) <==> MatchesUnderSome(rule, host))
       <==> ':' !in host && ']' !in host
  {
    if ':' !in host && ']' !in host {
      forall rule ensures PatternMatches(rule, host) <==> MatchesUnderSome(rule, host) {
        BareHostIsProjection(rule, host);
      }
    } else {
      HostMatchesItself(host);
      if scheme, port :| (
        && !HasSeparator(scheme) && ':' !in port
        && PatternMatches(host, scheme + SEPARATOR + (host + ":" + port)))
      {
        HostMissesItself(host, scheme, port);
      }
      assert PatternMatches(host, host) && !MatchesUnderSome(host, host);
    }
  }

  /**
   The loopback address: checked bare, its last group is taken for a port; its own rule matches it, though
   under no scheme and port, and so does the wildcard rule.
   */
  lemma Ipv6LiteralIsTornApart()
    ensures SplitAuthority("[::1]") == ("[:", Some("1]"))
    ensures PatternMatches("[::1]", "[::1]") && !MatchesUnderSome("[::1]", "[::1]")
    ensures PatternMatches("*", "[::1]")
  {
    var host := "[::1]";
    assert LastIndex(host, ':') == Some(2);
    assert host[..2] == "[:" && host[3..] == "1]";
    HostMatchesItself(host);
    if scheme, port :| (
      && !HasSeparator(scheme) && ':' !in port
      && PatternMatches(host, scheme + SEPARATOR + (host + ":" + port)))
    {
      HostMissesItself(host, scheme, port);
    }
    NoScheme("*");
    NoScheme(host);
    SplitFree("*", '.');
    assert LastIndex("*", ':').None?;
  }
}
