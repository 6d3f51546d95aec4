/**
 * ASCII models of the Python string operations the pipeline uses:
 * `str.lower`, `str.strip`, `str.split()`, `str.replace`, the regular-expression
 * classes `\w` and `\s`, the `in` substring test and decimal formatting of integers.
 */
module Text {

  /** `str.isspace` on ASCII: space, the control characters \t \n \v \f \r, and the separators U+001C to U+001F. */
  predicate IsSpace(c: char) {
    c == ' ' || ('\t' <= c <= '\r') || ('\U{1C}' <= c <= '\U{1F}')
  }

  predicate IsUpper(c: char) {
    'A' <= c <= 'Z'
  }

  /** The ASCII members of the regular-expression class `\w`; note that `_` is one. */
  predicate IsWordChar(c: char) {
    ('a' <= c <= 'z') || ('A' <= c <= 'Z') || ('0' <= c <= '9') || c == '_'
  }

  function LowerChar(c: char): (r: char)
    ensures !IsUpper(r)
    ensures !IsUpper(c) ==> r == c
    ensures IsWordChar(r) <==> IsWordChar(c)
    ensures IsSpace(r) <==> IsSpace(c)
  {
    if IsUpper(c) then (c as int + 32) as char else c
  }

  function Lower(s: string): string {
    seq(|s|, i requires 0 <= i < |s| => LowerChar(s[i]))
  }

  /** `s.replace(a, b)` for single characters. */
  function ReplaceChar(s: string, a: char, b: char): (r: string)
    ensures |r| == |s|
    ensures forall i :: 0 <= i < |s| ==> r[i] == (if s[i] == a then b else s[i])
  {
    seq(|s|, i requires 0 <= i < |s| => if s[i] == a then b else s[i])
  }

  /*
   * The string functions below carry only the contracts their own definitions need; what
   * they guarantee is stated in the lemmas that follow them, so that proofs which merely
   * mention a string function do not pay for quantifiers they never use.
   */

  /** `re.sub(r'[^\w\s]', '', s)`: keeps the word and whitespace characters, in order. */
  function KeepWordOrSpace(s: string): string {
    if |s| == 0 then ""
    else (if IsWordChar(s[0]) || IsSpace(s[0]) then [s[0]] else []) + KeepWordOrSpace(s[1..])
  }

  /** Exactly the word and whitespace characters survive, and a string made only of them is unchanged. */
  lemma {:induction false} KeepWordOrSpaceFacts(s: string)
    ensures forall c :: c in KeepWordOrSpace(s) ==> (IsWordChar(c) || IsSpace(c)) && c in s
    ensures (forall c :: c in s ==> IsWordChar(c) || IsSpace(c)) ==> KeepWordOrSpace(s) == s
  {
    if |s| > 0 {
      KeepWordOrSpaceFacts(s[1..]);
      assert forall c :: c in s[1..] ==> c in s;
      assert s == [s[0]] + s[1..];
    }
  }

  /** A string without word or whitespace characters is removed entirely. */
  lemma {:induction false} KeepWordOrSpaceNone(s: string)
    requires forall c :: c in s ==> !IsWordChar(c) && !IsSpace(c)
    ensures KeepWordOrSpace(s) == ""
  {
    if |s| > 0 {
      assert s[0] in s;
      assert forall c :: c in s[1..] ==> c in s;
      KeepWordOrSpaceNone(s[1..]);
    }
  }

  function TrimLeft(s: string): (r: string)
    ensures |r| <= |s|
  {
    if |s| > 0 && IsSpace(s[0]) then TrimLeft(s[1..]) else s
  }

  function TrimRight(s: string): (r: string)
    ensures |r| <= |s|
  {
    if |s| > 0 && IsSpace(s[|s| - 1]) then TrimRight(s[..|s| - 1]) else s
  }

  /** `lstrip` removes a whitespace prefix, and only that. */
  lemma {:induction false} TrimLeftFacts(s: string)
    ensures var r := TrimLeft(s); r == s[|s| - |r|..] && (r == [] || !IsSpace(r[0]))
    ensures (s == [] || !IsSpace(s[0])) ==> TrimLeft(s) == s
    ensures forall i :: 0 <= i < |s| - |TrimLeft(s)| ==> IsSpace(s[i])
  {
    if |s| > 0 && IsSpace(s[0]) {
      var t := s[1..];
      TrimLeftFacts(t);
      var r := TrimLeft(t);
      assert t[|t| - |r|..] == s[|s| - |r|..];
      forall i | 0 <= i < |s| - |r|
        ensures IsSpace(s[i])
      {
        if i > 0 {
          assert s[i] == t[i - 1];
        }
      }
    }
  }

  /** `rstrip` removes a whitespace suffix, and only that. */
  lemma {:induction false} TrimRightFacts(s: string)
    ensures var r := TrimRight(s); r == s[..|r|] && (r == [] || !IsSpace(r[|r| - 1]))
    ensures (s == [] || !IsSpace(s[|s| - 1])) ==> TrimRight(s) == s
    ensures forall i :: |TrimRight(s)| <= i < |s| ==> IsSpace(s[i])
  {
    if |s| > 0 && IsSpace(s[|s| - 1]) {
      var t := s[..|s| - 1];
      TrimRightFacts(t);
      var r := TrimRight(t);
      assert t[..|r|] == s[..|r|];
      forall i | |r| <= i < |s|
        ensures IsSpace(s[i])
      {
        if i < |s| - 1 {
          assert s[i] == t[i];
        }
      }
    }
  }

  /** `str.strip()`. */
  function Strip(s: string): string {
    TrimRight(TrimLeft(s))
  }

  /** No whitespace is left at either end, nothing but characters of `s` remain, and a stripped string is unchanged. */
  lemma StripFacts(s: string)
    ensures var r := Strip(s); r == [] || (!IsSpace(r[0]) && !IsSpace(r[|r| - 1]))
    ensures forall c :: c in Strip(s) ==> c in s
    ensures (s == [] || (!IsSpace(s[0]) && !IsSpace(s[|s| - 1]))) ==> Strip(s) == s
  {
    var t := TrimLeft(s);
    TrimLeftFacts(s);
    TrimRightFacts(t);
    var r := TrimRight(t);
    assert forall c :: c in r ==> c in t;
    assert forall c :: c in t ==> c in s;
    if r != [] {
      assert r[0] == t[0];
    }
  }

  predicate IsPrefix(p: string, s: string) {
    |p| <= |s| && s[..|p|] == p
  }

  predicate IsSuffix(p: string, s: string) {
    |p| <= |s| && s[|s| - |p|..] == p
  }

  /** Python's `p in s` for strings: `p` occurs in `s` at some position. */
  predicate Contains(s: string, p: string)
    decreases |s|
  {
    IsPrefix(p, s) || (|s| > 0 && Contains(s[1..], p))
  }

  lemma ContainsItself(s: string)
    ensures Contains(s, s)
  {
    assert s[..|s|] == s;
  }

  lemma ContainsEmpty(s: string)
    ensures Contains(s, "")
  {
  }

  lemma {:induction false} ContainsShorter(s: string, p: string)
    requires Contains(s, p)
    ensures |p| <= |s|
    decreases |s|
  {
    if !IsPrefix(p, s) {
      ContainsShorter(s[1..], p);
    }
  }

  /** Two strings that occur in each other are equal. */
  lemma ContainsBothWays(s: string, p: string)
    requires Contains(s, p) && Contains(p, s)
    ensures s == p
  {
    ContainsShorter(s, p);
    ContainsShorter(p, s);
    ContainsSameLength(s, p);
  }

  lemma {:induction false} ContainsSameLength(s: string, p: string)
    requires Contains(s, p) && |p| == |s|
    ensures s == p
    decreases |s|
  {
    if !IsPrefix(p, s) {
      ContainsShorter(s[1..], p);
    } else {
      assert s[..|p|] == s;
    }
  }

  /** The longest prefix of `s` without whitespace. */
  function TakeWord(s: string): (w: string)
    ensures |w| <= |s|
    ensures |s| > 0 && !IsSpace(s[0]) ==> |w| > 0
  {
    if |s| == 0 || IsSpace(s[0]) then "" else [s[0]] + TakeWord(s[1..])
  }

  /** The word taken is a whitespace-free prefix, followed by whitespace or the end. */
  lemma {:induction false} TakeWordFacts(s: string)
    ensures IsPrefix(TakeWord(s), s)
    ensures forall c :: c in TakeWord(s) ==> !IsSpace(c)
    ensures |TakeWord(s)| < |s| ==> IsSpace(s[|TakeWord(s)|])
  {
    if |s| > 0 && !IsSpace(s[0]) {
      TakeWordFacts(s[1..]);
    }
  }

  /** `str.split()` without arguments: the maximal runs of non-whitespace characters. */
  function Words(s: string): seq<string>
    decreases |s|
  {
    var t := TrimLeft(s);
    if |t| == 0 then []
    else
      var w := TakeWord(t);
      [w] + Words(t[|w|..])
  }

  /** Every word is non-empty and free of whitespace. */
  lemma {:induction false} WordsFacts(s: string)
    ensures forall w :: w in Words(s) ==> |w| > 0 && forall c :: c in w ==> !IsSpace(c)
    decreases |s|
  {
    var t := TrimLeft(s);
    TrimLeftFacts(s);
    if |t| > 0 {
      var w := TakeWord(t);
      TakeWordFacts(t);
      WordsFacts(t[|w|..]);
    }
  }

  /** `set(s.split())`. */
  function WordSet(s: string): set<string> {
    set w | w in Words(s)
  }

  function DigitChar(d: nat): (c: char)
    requires d < 10
    ensures '0' <= c <= '9'
  {
    ('0' as int + d) as char
  }

  /** `str(n)` for a natural number. */
  function NatToString(n: nat): (r: string)
    ensures |r| > 0
    ensures forall i :: 0 <= i < |r| ==> '0' <= r[i] <= '9'
    decreases n
  {
    if n < 10 then [DigitChar(n)] else NatToString(n / 10) + [DigitChar(n % 10)]
  }

  /** The value of a string of decimal digits, read most significant digit first. */
  function DigitsValue(s: string): nat
    requires forall i :: 0 <= i < |s| ==> '0' <= s[i] <= '9'
  {
    if |s| == 0 then 0 else 10 * DigitsValue(s[..|s| - 1]) + (s[|s| - 1] as int - '0' as int)
  }

  /** Reading back the decimal rendering gives the number: the rendering is injective. */
  lemma {:induction false} NatToStringRoundTrip(n: nat)
    ensures DigitsValue(NatToString(n)) == n
    decreases n
  {
    var r := NatToString(n);
    if n >= 10 {
      NatToStringRoundTrip(n / 10);
      assert r[..|r| - 1] == NatToString(n / 10);
    }
  }

  lemma NatToStringInjective(m: nat, n: nat)
    requires NatToString(m) == NatToString(n)
    ensures m == n
  {
    NatToStringRoundTrip(m);
    NatToStringRoundTrip(n);
  }
}
