/** ASCII case, as `to_ascii_lowercase` and `eq_ignore_ascii_case` see it. */
module Ascii {

  function LowerChar(c: char): char {
    if 'A' <= c <= 'Z' then ((c as int) + 32) as char else c
  }

  function Lower(s: string): (r: string)
    ensures |r| == |s|
  {
    seq(|s|, i requires 0 <= i < |s| => LowerChar(s[i]))
  }

  predicate EqIgnoreCase(a: string, b: string) {
    Lower(a) == Lower(b)
  }

  /** One character is the other, or the two are the same letter in two cases, which ASCII keeps 32 apart. */
  predicate SameLetter(c: char, d: char) {
    || c == d
    || ('A' <= c <= 'Z' && d as int == c as int + 32)
    || ('A' <= d <= 'Z' && c as int == d as int + 32)
  }

  lemma LowerCharMeaning(c: char, d: char)
    ensures LowerChar(c) == LowerChar(d) <==> SameLetter(c, d)
  {
  }

  /** Two strings are equal ignoring case exactly if they are, letter for letter of the alphabet. */
  lemma EqIgnoreCaseMeaning(a: string, b: string)
    ensures EqIgnoreCase(a, b) <==> |a| == |b| && forall i :: 0 <= i < |a| ==> SameLetter(a[i], b[i])
  {
    if |a| == |b| {
      forall i | 0 <= i < |a| ensures LowerChar(a[i]) == LowerChar(b[i]) <==> SameLetter(a[i], b[i]) {
        LowerCharMeaning(a[i], b[i]);
      }
      if EqIgnoreCase(a, b) {
        forall i | 0 <= i < |a| ensures LowerChar(a[i]) == LowerChar(b[i]) {
          assert Lower(a)[i] == Lower(b)[i];
        }
      }
    } else {
      assert |Lower(a)| != |Lower(b)|;
    }
  }
}
