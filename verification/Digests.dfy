/**
 Content digests (`digest`, `verify_digest`, `parse_digest`, `sanitize_digest`).

 SHA-256 (section 6.2 of FIPS 180-4) is a parameter: some function from bytes to 32 bytes. It cannot be
 injective, so nothing here assumes that it is; results that need it ask for the absence of a collision
 among the finitely many blobs concerned.
 */
module Digests {
  import opened Base

  newtype byte = x: int | 0 <= x < 256

  type Blob = seq<byte>

  type Sha = s: seq<byte> | |s| == 32 witness seq(32, _ => 0)

  /** The foreign code the runtime calls: each is a deterministic function of the bytes. */
  datatype Host = Host(
    sha256: Blob -> Sha,
    validates: Blob -> bool,
    exports: Blob -> Option<seq<string>>,
    compiles: Blob -> bool)

  const SCHEME := "sha256:"

  function HexChar(n: nat): char
    requires n < 16
  {
    if n < 10 then ('0' as int + n) as char else ('a' as int + n - 10) as char
  }

  function HexEncode(s: seq<byte>): (h: string)
    ensures |h| == 2 * |s|
  {
    if s == [] then []
    else [HexChar(s[0] as int / 16), HexChar(s[0] as int % 16)] + HexEncode(s[1..])
  }

  function HexName(host: Host, blob: Blob): string {
    HexEncode(host.sha256(blob))
  }

  function DigestOf(host: Host, blob: Blob): string {
    SCHEME + HexName(host, blob)
  }

  predicate IsHexDigit(c: char) {
    '0' <= c <= '9' || 'a' <= c <= 'f' || 'A' <= c <= 'F'
  }

  predicate IsLowerHexDigit(c: char) {
    '0' <= c <= '9' || 'a' <= c <= 'f'
  }

  predicate WellFormedDigest(d: string) {
    && SCHEME <= d
    && |d| == |SCHEME| + 64
    && forall i :: |SCHEME| <= i < |d| ==> IsHexDigit(d[i])
  }

  /** File name of a digest, refusing anything that is not `sha256:` plus 64 hexadecimal digits. */
  function SanitizeDigest(d: string): (r: Result<string>)
    ensures r.Ok? <==> WellFormedDigest(d)
    ensures r.Ok? ==> d == SCHEME + r.value && |r.value| == 64
    ensures r.Err? ==> r.error == ComponentNotFound
  {
    if !(SCHEME <= d) then Err(ComponentNotFound)
    else
      var hex := d[|SCHEME|..];
      if |hex| != 64 || exists i :: 0 <= i < |hex| && !IsHexDigit(hex[i]) then Err(ComponentNotFound)
      else
        assert forall i :: |SCHEME| <= i < |d| ==> d[i] == hex[i - |SCHEME|];
        Ok(hex)
  }

  /** The check configuration makes of a pin: the same grammar, another error. */
  function ParseDigest(d: string): (r: Result<Unit>)
    ensures r == if WellFormedDigest(d) then Ok(Unit) else Err(Error.Config)
  {
    if SanitizeDigest(d).Ok? then Ok(Unit) else Err(Error.Config)
  }

  lemma HexCharMeaning(n: nat)
    requires n < 16
    ensures HexChar(n) == "0123456789abcdef"[n]
  {
  }

  /** A digest in full: the scheme, then two lower-case digits for each of the 32 bytes, the high one first. */
  lemma DigestMeaning(host: Host, blob: Blob, i: nat)
    requires i < 32
    ensures
      var d, b := DigestOf(host, blob), host.sha256(blob)[i] as int;
      && |d| == 71 && d[..7] == "sha256:"
      && d[7 + 2 * i] == "0123456789abcdef"[b / 16] && d[8 + 2 * i] == "0123456789abcdef"[b % 16]
  {
    HexEncodeAt(host.sha256(blob), i);
    HexCharMeaning(host.sha256(blob)[i] as int / 16);
    HexCharMeaning(host.sha256(blob)[i] as int % 16);
  }

  /** The grammar in full: the scheme and 64 hexadecimal digits of either case. */
  ghost predicate IsDigest(d: string) {
    && |d| == 71 && d[..7] == "sha256:"
    && forall i :: 7 <= i < 71 ==> d[i] in "0123456789abcdefABCDEF"
  }

  lemma DigestGrammar(d: string)
    ensures ParseDigest(d).Ok? <==> IsDigest(d)
    ensures SanitizeDigest(d) == if IsDigest(d) then Ok(d[7..]) else Err(ComponentNotFound)
  {
    forall c: char ensures IsHexDigit(c) <==> c in "0123456789abcdefABCDEF" {
      HexDigits(c);
    }
    assert SCHEME <= d <==> |d| >= 7 && d[..7] == "sha256:";
    if SanitizeDigest(d).Ok? {
      assert d[7..] == SanitizeDigest(d).value;
    }
  }

  lemma HexDigits(c: char)
    ensures IsHexDigit(c) <==> c in "0123456789abcdefABCDEF"
  {
    var digits := "0123456789abcdefABCDEF";
    if '0' <= c <= '9' {
      assert digits[c as int - '0' as int] == c;
    } else if 'a' <= c <= 'f' {
      assert digits[10 + c as int - 'a' as int] == c;
    } else if 'A' <= c <= 'F' {
      assert digits[16 + c as int - 'A' as int] == c;
    }
  }

  function VerifyDigest(host: Host, blob: Blob, expected: string): Result<Unit> {
    if DigestOf(host, blob) != expected then Err(DigestMismatch) else Ok(Unit)
  }

  lemma {:induction false} HexEncodeAt(s: seq<byte>, i: nat)
    requires i < |s|
    ensures HexEncode(s)[2 * i] == HexChar(s[i] as int / 16)
    ensures HexEncode(s)[2 * i + 1] == HexChar(s[i] as int % 16)
  {
    if i > 0 {
      HexEncodeAt(s[1..], i - 1);
      assert HexEncode(s)[2 * i] == HexEncode(s[1..])[2 * (i - 1)];
    }
  }

  lemma HexEncodeIsLower(s: seq<byte>)
    ensures forall i :: 0 <= i < |HexEncode(s)| ==> IsLowerHexDigit(HexEncode(s)[i])
  {
    forall i | 0 <= i < |HexEncode(s)| ensures IsLowerHexDigit(HexEncode(s)[i]) {
      HexEncodeAt(s, i / 2);
    }
  }

  /** Printing a hash loses nothing. */
  lemma HexEncodeInjective(s: seq<byte>, t: seq<byte>)
    requires HexEncode(s) == HexEncode(t)
    ensures s == t
  {
    forall i | 0 <= i < |s| ensures s[i] == t[i] {
      HexEncodeAt(s, i);
      HexEncodeAt(t, i);
    }
  }

  /** Every digest the runtime computes is a well-formed digest in lower case, and names its blob's file. */
  lemma DigestOfIsWellFormed(host: Host, blob: Blob)
    ensures WellFormedDigest(DigestOf(host, blob))
    ensures SanitizeDigest(DigestOf(host, blob)) == Ok(HexName(host, blob))
    ensures forall i :: 0 <= i < 64 ==> IsLowerHexDigit(HexName(host, blob)[i])
    ensures ParseDigest(DigestOf(host, blob)).Ok?
  {
    HexEncodeIsLower(host.sha256(blob));
    var d := DigestOf(host, blob);
    assert forall i :: |SCHEME| <= i < |d| ==> d[i] == HexName(host, blob)[i - |SCHEME|];
    assert d[|SCHEME|..] == HexName(host, blob);
  }

  /** Two blobs have one digest exactly when SHA-256 sends them to the same 32 bytes. */
  lemma SameDigestIffSameHash(host: Host, a: Blob, b: Blob)
    ensures DigestOf(host, a) == DigestOf(host, b) <==> host.sha256(a) == host.sha256(b)
  {
    if DigestOf(host, a) == DigestOf(host, b) {
      assert DigestOf(host, a)[|SCHEME|..] == HexName(host, a);
      assert DigestOf(host, b)[|SCHEME|..] == HexName(host, b);
      HexEncodeInjective(host.sha256(a), host.sha256(b));
    }
  }

  /** No two different blobs of the collection share a digest. */
  ghost predicate CollisionFree(host: Host, blobs: set<Blob>) {
    forall a, b :: a in blobs && b in blobs && DigestOf(host, a) == DigestOf(host, b) ==> a == b
  }

  predicate HasUpperHex(d: string) {
    exists i :: 0 <= i < |d| && 'A' <= d[i] <= 'F'
  }

  // ----- which pins can ever match

  function HexValue(c: char): (n: nat)
    requires IsLowerHexDigit(c)
    ensures n < 16 && HexChar(n) == c
  {
    if '0' <= c <= '9' then c as int - '0' as int else c as int - 'a' as int + 10
  }

  /** The bytes that a lower-case hexadecimal string prints. */
  function HexDecode(h: string): (s: seq<byte>)
    requires |h| % 2 == 0 && forall i :: 0 <= i < |h| ==> IsLowerHexDigit(h[i])
    ensures |h| == 2 * |s|
  {
    if h == [] then [] else [(16 * HexValue(h[0]) + HexValue(h[1])) as byte] + HexDecode(h[2..])
  }

  lemma EncodeByte(hi: nat, lo: nat, rest: seq<byte>)
    requires hi < 16 && lo < 16
    ensures HexEncode([(16 * hi + lo) as byte] + rest) == [HexChar(hi), HexChar(lo)] + HexEncode(rest)
  {
    var b := (16 * hi + lo) as byte;
    assert b as int / 16 == hi && b as int % 16 == lo;
    assert ([b] + rest)[1..] == rest;
  }

  lemma {:induction false} EncodeDecode(h: string)
    requires |h| % 2 == 0 && forall i :: 0 <= i < |h| ==> IsLowerHexDigit(h[i])
    ensures HexEncode(HexDecode(h)) == h
  {
    if h != [] {
      EncodeDecode(h[2..]);
      EncodeByte(HexValue(h[0]), HexValue(h[1]), HexDecode(h[2..]));
      assert h == [h[0], h[1]] + h[2..];
    }
  }

  /** Some value of the hash function would be printed as this digest. */
  ghost predicate CanMatch(d: string) {
    exists s: Sha :: d == SCHEME + HexEncode(s)
  }

  /**
   A pin that the configuration accepts can be the digest of a blob if and only if it has no upper-case
   digit.
   */
  lemma PinCanMatchIff(pin: string)
    requires ParseDigest(pin).Ok?
    ensures CanMatch(pin) <==> !HasUpperHex(pin)
  {
    if CanMatch(pin) {
      var s: Sha :| pin == SCHEME + HexEncode(s);
      HexEncodeIsLower(s);
      forall i | 0 <= i < |pin| ensures !('A' <= pin[i] <= 'F') {
        assert i >= |SCHEME| ==> pin[i] == HexEncode(s)[i - |SCHEME|];
      }
    }
    if !HasUpperHex(pin) {
      var hex := pin[|SCHEME|..];
      forall i | 0 <= i < |hex| ensures IsLowerHexDigit(hex[i]) {
        assert hex[i] == pin[i + |SCHEME|];
      }
      EncodeDecode(hex);
      assert pin == SCHEME + HexEncode(HexDecode(hex));
    }
  }

  /** So an upper-case pin is accepted by the configuration and then fails verification against every blob. */
  lemma UpperCasePinNeverVerifies(host: Host, pin: string, blob: Blob)
    requires HasUpperHex(pin)
    ensures VerifyDigest(host, blob, pin) == Err(DigestMismatch)
  {
    DigestOfIsWellFormed(host, blob);
    if DigestOf(host, blob) == pin {
      assert CanMatch(pin);
      PinCanMatchIff(pin);
    }
  }
}
