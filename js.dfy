/**
 * The parts of JavaScript's string and number built-ins that the bot's
 * argument parsing depends on: trim, split on / +/, split on a character,
 * toLowerCase/toUpperCase, endsWith, replace (first occurrence), parseInt,
 * and the NaN test of Number(). Case mapping is ASCII-only; numbers are decimal.
 */
module Js {
  import opened Wrappers

  predicate IsDigit(c: char) { '0' <= c <= '9' }

  function DigitValue(c: char): nat
    requires IsDigit(c)
  {
    (c as int) - ('0' as int)
  }

  function DigitChar(d: nat): (c: char)
    requires d < 10
    ensures IsDigit(c) && DigitValue(c) == d
  {
    (('0' as int) + d) as char
  }

  /** The white-space characters String.prototype.trim removes (its common subset). */
  predicate IsSpace(c: char) {
    c == ' ' || c == '\t' || c == '\n' || c == '\r' ||
    c == '\U{000B}' || c == '\U{000C}' || c == '\U{00A0}' || c == '\U{FEFF}'
  }

  function LowerChar(c: char): char {
    if 'A' <= c <= 'Z' then (c as int + 32) as char else c
  }

  function UpperChar(c: char): char {
    if 'a' <= c <= 'z' then (c as int - 32) as char else c
  }

  function Lower(s: string): string {
    seq(|s|, i requires 0 <= i < |s| => LowerChar(s[i]))
  }

  function Upper(s: string): string {
    seq(|s|, i requires 0 <= i < |s| => UpperChar(s[i]))
  }

  predicate StartsWith(s: string, p: string) {
    |p| <= |s| && s[..|p|] == p
  }

  predicate EndsWith(s: string, p: string) {
    |p| <= |s| && s[|s| - |p|..] == p
  }

  /** `s.slice(k)` for k >= 0. */
  function Slice(s: string, k: nat): string {
    if k <= |s| then s[k..] else []
  }

  function TrimStart(s: string): string {
    if |s| > 0 && IsSpace(s[0]) then TrimStart(s[1..]) else s
  }

  function TrimEnd(s: string): string {
    if |s| > 0 && IsSpace(s[|s| - 1]) then TrimEnd(s[..|s| - 1]) else s
  }

  /** String.prototype.trim. */
  function Trim(s: string): string {
    TrimEnd(TrimStart(s))
  }

  /** The index of the first `c` in `s`, or |s| when there is none. */
  function IndexOf(s: string, c: char): (k: nat)
    ensures k <= |s|
    ensures k < |s| ==> s[k] == c
    ensures forall j :: 0 <= j < k ==> s[j] != c
  {
    if |s| == 0 then 0 else if s[0] == c then 0 else 1 + IndexOf(s[1..], c)
  }

  /** Drops the leading run of ' ' characters. */
  function SkipSpaces(s: string): (r: string)
    ensures |r| <= |s|
    ensures r == [] || r[0] != ' '
    ensures s != [] && s[|s| - 1] != ' ' ==> r != []
  {
    if |s| > 0 && s[0] == ' ' then SkipSpaces(s[1..]) else s
  }

  /** `s.split(/ +/)`: the pieces between maximal runs of ' '. */
  function SplitSpaces(s: string): seq<string>
    decreases |s|
  {
    var i := IndexOf(s, ' ');
    if i == |s| then [s]
    else [s[..i]] + SplitSpaces(SkipSpaces(s[i + 1..]))
  }

  /** `s.split(c)` for a one-character separator. */
  function SplitOn(s: string, c: char): seq<string>
    decreases |s|
  {
    var i := IndexOf(s, c);
    if i == |s| then [s] else [s[..i]] + SplitOn(s[i + 1..], c)
  }

  /** `parts.join(' ')`. */
  function JoinSpaces(parts: seq<string>): string
    decreases |parts|
  {
    if |parts| == 0 then ""
    else if |parts| == 1 then parts[0]
    else parts[0] + " " + JoinSpaces(parts[1..])
  }

  /** A non-empty piece with no white space in it, as a command name or argument is. */
  predicate IsWord(s: string) {
    s != [] && forall j :: 0 <= j < |s| ==> !IsSpace(s[j])
  }

  /** `s.replace(pat, '')` with a string pattern: only the first occurrence goes. */
  function ReplaceFirst(s: string, pat: string): string
    decreases |s|
  {
    if |pat| == 0 || |s| < |pat| then s
    else if s[..|pat|] == pat then s[|pat|..]
    else [s[0]] + ReplaceFirst(s[1..], pat)
  }

  /** The length of the leading run of decimal digits. */
  function DigitPrefixLen(s: string): (k: nat)
    ensures k <= |s|
    ensures forall j :: 0 <= j < k ==> IsDigit(s[j])
    ensures k < |s| ==> !IsDigit(s[k])
  {
    if |s| > 0 && IsDigit(s[0]) then 1 + DigitPrefixLen(s[1..]) else 0
  }

  predicate AllDigits(s: string) { forall j :: 0 <= j < |s| ==> IsDigit(s[j]) }

  /** The value of a string of decimal digits, most significant first. */
  function DigitsValue(s: string): nat
    requires AllDigits(s)
  {
    if s == [] then 0 else DigitsValue(s[..|s| - 1]) * 10 + DigitValue(s[|s| - 1])
  }

  /** The decimal rendering of a natural number, as `${n}` gives it. */
  function DecimalString(n: nat): string {
    if n < 10 then [DigitChar(n)] else DecimalString(n / 10) + [DigitChar(n % 10)]
  }

  /**
   * parseInt(s) with no radix, for decimal input: leading white space, an
   * optional sign, then the longest run of digits; None stands for NaN.
   */
  function ParseInt(s: string): Option<int> {
    var t := TrimStart(s);
    var negative := |t| > 0 && t[0] == '-';
    var body := if |t| > 0 && (t[0] == '-' || t[0] == '+') then t[1..] else t;
    var k := DigitPrefixLen(body);
    if k == 0 then None
    else
      var v: int := DigitsValue(body[..k]);
      Some(if negative then -v else v)
  }

  /** A decimal exponent part `e[+-]digits`, or nothing. */
  predicate IsExponentPart(s: string) {
    s == [] ||
    (|s| >= 2 && (s[0] == 'e' || s[0] == 'E') &&
     var d := if s[1] == '+' || s[1] == '-' then s[2..] else s[1..];
     |d| > 0 && AllDigits(d))
  }

  /** `digits [. digits] [exponent]` with at least one digit before the exponent. */
  predicate IsUnsignedDecimal(s: string) {
    var a := DigitPrefixLen(s);
    var rest := s[a..];
    if |rest| > 0 && rest[0] == '.' then
      var b := DigitPrefixLen(rest[1..]);
      a + b > 0 && IsExponentPart(rest[1 + b..])
    else
      a > 0 && IsExponentPart(rest)
  }

  /**
   * The global isNaN(s) for a string: Number(s) is NaN unless the trimmed text
   * is empty, or an optionally signed decimal literal or Infinity.
   */
  predicate IsNaNString(s: string) {
    var t := Trim(s);
    var body := if |t| > 0 && (t[0] == '-' || t[0] == '+') then t[1..] else t;
    !(t == [] || body == "Infinity" || IsUnsignedDecimal(body))
  }

  /** `x || d` for a number that may be unset: an unset value or 0 gives d. */
  function OrElse(x: Option<int>, d: int): int {
    if x.Some? && x.value != 0 then x.value else d
  }

  // ---- lemmas ----

  lemma {:induction false} DecimalStringDigits(n: nat)
    ensures |DecimalString(n)| >= 1 && AllDigits(DecimalString(n))
  {
    if n >= 10 {
      DecimalStringDigits(n / 10);
    }
  }

  lemma {:induction false} DecimalStringValue(n: nat)
    ensures AllDigits(DecimalString(n)) && DigitsValue(DecimalString(n)) == n
  {
    DecimalStringDigits(n);
    if n >= 10 {
      var s := DecimalString(n);
      DecimalStringValue(n / 10);
      assert s[..|s| - 1] == DecimalString(n / 10);
    }
  }

  lemma {:induction false} DigitPrefixOfDigits(d: string, rest: string)
    requires AllDigits(d)
    requires rest == [] || !IsDigit(rest[0])
    ensures DigitPrefixLen(d + rest) == |d|
  {
    if d != [] {
      assert (d + rest)[1..] == d[1..] + rest;
      DigitPrefixOfDigits(d[1..], rest);
    }
  }

  /** parseInt reads back the decimal rendering of n, whatever non-digit text follows it. */
  lemma ParseIntDecimal(n: nat, rest: string)
    requires rest == [] || !IsDigit(rest[0])
    ensures ParseInt(DecimalString(n) + rest) == Some(n)
  {
    var d := DecimalString(n);
    DecimalStringValue(n);
    var s := d + rest;
    assert s[0] == d[0] && IsDigit(s[0]);
    assert TrimStart(s) == s;
    DigitPrefixOfDigits(d, rest);
    assert s[..|d|] == d;
  }

  /** A pattern that starts with a non-digit is first found right after a run of digits. */
  lemma {:induction false} ReplaceFirstAfterDigits(d: string, pat: string)
    requires AllDigits(d)
    requires |pat| > 0 && !IsDigit(pat[0])
    ensures ReplaceFirst(d + pat, pat) == d
  {
    var s := d + pat;
    if d == [] {
      assert s == pat;
    } else {
      assert s[..|pat|] != pat by {
        assert s[0] == d[0];
      }
      assert s[1..] == d[1..] + pat;
      ReplaceFirstAfterDigits(d[1..], pat);
    }
  }

  lemma LowerOfDigitsAnd(d: string, suffix: string)
    requires AllDigits(d)
    requires forall j :: 0 <= j < |suffix| ==> !('A' <= suffix[j] <= 'Z')
    ensures Lower(d + suffix) == d + suffix
  {
  }

  lemma {:induction false} IndexOfAfter(a: string, c: char, b: string)
    requires c !in a
    ensures IndexOf(a + [c] + b, c) == |a|
  {
    if a != [] {
      assert (a + [c] + b)[1..] == a[1..] + [c] + b;
      IndexOfAfter(a[1..], c, b);
    }
  }

  /** Splitting on c a string whose first c follows a c-free part peels that part off. */
  lemma SplitOnPeel(a: string, c: char, b: string)
    requires c !in a
    ensures SplitOn(a + [c] + b, c) == [a] + SplitOn(b, c)
  {
    var s := a + [c] + b;
    IndexOfAfter(a, c, b);
    assert s[..|a|] == a;
    assert s[|a| + 1..] == b;
  }

  /** No piece of `s.split(/ +/)` contains a space. */
  lemma {:induction false} SplitSpacesNoSpace(s: string)
    ensures forall t :: t in SplitSpaces(s) ==> ' ' !in t
    decreases |s|
  {
    var i := IndexOf(s, ' ');
    if i < |s| {
      SplitSpacesNoSpace(SkipSpaces(s[i + 1..]));
    }
  }

  /** The joined text starts with the first piece and ends with the last. */
  lemma {:induction false} JoinSpacesEnds(parts: seq<string>)
    requires |parts| >= 1
    ensures var j := JoinSpaces(parts);
      |parts[0]| <= |j| && j[..|parts[0]|] == parts[0] &&
      |parts[|parts| - 1]| <= |j| && j[|j| - |parts[|parts| - 1]|..] == parts[|parts| - 1]
    decreases |parts|
  {
    if |parts| > 1 {
      var rest := parts[1..];
      JoinSpacesEnds(rest);
      var j := JoinSpaces(parts);
      var t := JoinSpaces(rest);
      assert j == parts[0] + " " + t;
      assert j[..|parts[0]|] == parts[0];
      assert rest[|rest| - 1] == parts[|parts| - 1];
      assert j[|j| - |t|..] == t;
    }
  }

  /** Splitting on / +/ undoes joining words with single spaces. */
  lemma {:induction false} SplitJoin(parts: seq<string>)
    requires |parts| >= 1
    requires forall k :: 0 <= k < |parts| ==> IsWord(parts[k])
    ensures SplitSpaces(JoinSpaces(parts)) == parts
    decreases |parts|
  {
    var p := parts[0];
    assert ' ' !in p by {
      forall j | 0 <= j < |p| ensures p[j] != ' ' {
        assert !IsSpace(p[j]);
      }
    }
    if |parts| == 1 {
      assert IndexOf(p, ' ') == |p|;
    } else {
      var rest := parts[1..];
      var t := JoinSpaces(rest);
      assert JoinSpaces(parts) == p + [' '] + t;
      IndexOfAfter(p, ' ', t);
      JoinSpacesEnds(rest);
      assert t[0] == rest[0][0] && !IsSpace(rest[0][0]);
      assert (p + [' '] + t)[|p| + 1..] == t;
      assert SkipSpaces(t) == t;
      assert (p + [' '] + t)[..|p|] == p;
      SplitJoin(rest);
    }
  }

  /**
   * The first piece of `split(/ +/)` is the text up to the first space, and
   * there is more than one piece exactly when the text has a space.
   */
  lemma SplitSpacesHead(s: string)
    ensures var p := SplitSpaces(s);
      |p| >= 1 && p[0] == s[..IndexOf(s, ' ')] && (|p| == 1 <==> ' ' !in s)
  {
    var i := IndexOf(s, ' ');
    if i == |s| {
      assert s[..i] == s;
    } else {
      assert s[i] == ' ';
      SplitSpacesLength(SkipSpaces(s[i + 1..]));
    }
  }

  /** Skipping the leading spaces of text that does not end with one leaves a word-led, non-empty text with the same end. */
  lemma SkipSpacesEnd(t: string)
    requires t != [] && t[|t| - 1] != ' '
    ensures var r := SkipSpaces(t);
      r != [] && r[0] != ' ' && r[|r| - 1] == t[|t| - 1]
  {
  }

  /** Every piece is non-empty. */
  predicate AllNonEmpty(p: seq<string>)
    decreases |p|
  {
    p == [] || (p[0] != [] && AllNonEmpty(p[1..]))
  }

  lemma {:induction false} AllNonEmptyAt(p: seq<string>, k: nat)
    requires AllNonEmpty(p) && k < |p|
    ensures p[k] != []
    decreases k
  {
    if k > 0 {
      AllNonEmptyAt(p[1..], k - 1);
    }
  }

  /** For text that does not end with a space, no piece after the first is empty. */
  lemma {:induction false} SplitSpacesTail(s: string)
    requires s == [] || s[|s| - 1] != ' '
    ensures AllNonEmpty(SplitSpaces(s)[1..])
    decreases |s|
  {
    if IndexOf(s, ' ') < |s| {
      var rest := SkipSpaces(s[IndexOf(s, ' ') + 1..]);
      SplitStep(s);
      SplitSpacesTail(rest);
      SplitSpacesUnfold(s, rest);
    } else {
      assert SplitSpaces(s) == [s];
    }
  }

  /** The text after the first run of spaces of text that does not end with a space. */
  lemma SplitStep(s: string)
    requires s != [] && s[|s| - 1] != ' ' && IndexOf(s, ' ') < |s|
    ensures var rest := SkipSpaces(s[IndexOf(s, ' ') + 1..]);
      rest != [] && rest[0] != ' ' && rest[|rest| - 1] != ' ' && |rest| < |s|
  {
    var i := IndexOf(s, ' ');
    var tail := s[i + 1..];
    assert tail != [] && tail[|tail| - 1] == s[|s| - 1];
    SkipSpacesEnd(tail);
  }

  /** Past the first run of spaces, the pieces are those of the rest of the text. */
  lemma SplitSpacesUnfold(s: string, rest: string)
    requires IndexOf(s, ' ') < |s| && rest == SkipSpaces(s[IndexOf(s, ' ') + 1..])
    requires rest != [] && rest[0] != ' '
    ensures SplitSpaces(s)[1..] == SplitSpaces(rest) && SplitSpaces(rest)[0] != []
  {
    SplitSpacesCons(s);
    SplitSpacesHead(rest);
  }

  /** One step of `split(/ +/)` on text with a space. */
  lemma SplitSpacesCons(s: string)
    requires IndexOf(s, ' ') < |s|
    ensures SplitSpaces(s)[1..] == SplitSpaces(SkipSpaces(s[IndexOf(s, ' ') + 1..]))
  {
    var i := IndexOf(s, ' ');
    var p := SplitSpaces(SkipSpaces(s[i + 1..]));
    assert SplitSpaces(s) == [s[..i]] + p;
    assert ([s[..i]] + p)[1..] == p;
  }

  /** `split` always gives at least one piece. */
  lemma SplitSpacesLength(s: string)
    ensures |SplitSpaces(s)| >= 1
  {
  }

  /** trimStart drops a prefix of white space and leaves no white space in front. */
  lemma {:induction false} TrimStartFacts(s: string)
    ensures var r := TrimStart(s);
      |r| <= |s| && r == s[|s| - |r|..] && (r == [] || !IsSpace(r[0])) &&
      forall j :: 0 <= j < |s| - |r| ==> IsSpace(s[j])
  {
    if |s| > 0 && IsSpace(s[0]) {
      TrimStartFacts(s[1..]);
    }
  }

  /** trimEnd drops a suffix of white space and leaves no white space at the end. */
  lemma {:induction false} TrimEndFacts(s: string)
    ensures var r := TrimEnd(s);
      |r| <= |s| && r == s[..|r|] && (r == [] || !IsSpace(r[|r| - 1])) &&
      forall j :: |r| <= j < |s| ==> IsSpace(s[j])
  {
    if |s| > 0 && IsSpace(s[|s| - 1]) {
      TrimEndFacts(s[..|s| - 1]);
    }
  }

  /** trim leaves text that neither starts nor ends with white space. */
  lemma TrimFacts(s: string)
    ensures var r := Trim(s);
      |r| <= |s| && (r == [] || (!IsSpace(r[0]) && !IsSpace(r[|r| - 1])))
  {
    var t := TrimStart(s);
    TrimStartFacts(s);
    TrimEndFacts(t);
    var r := TrimEnd(t);
    if r != [] {
      assert r[0] == t[0];
    }
  }

  /** Text that neither starts nor ends with white space is its own trim. */
  /** Words joined with single spaces have nothing for trim to remove. */
  lemma JoinedTrimmed(parts: seq<string>)
    requires |parts| >= 1
    requires forall k :: 0 <= k < |parts| ==> IsWord(parts[k])
    ensures Trim(JoinSpaces(parts)) == JoinSpaces(parts)
  {
    var j := JoinSpaces(parts);
    JoinSpacesEnds(parts);
    var first := parts[0];
    var last := parts[|parts| - 1];
    assert IsWord(first);
    assert IsWord(last);
    assert !IsSpace(first[0]);
    assert !IsSpace(last[|last| - 1]);
    WordEnds(j, first, last);
    TrimUnchanged(j);
  }

  /** Text that starts with one word and ends with another starts and ends without white space. */
  lemma WordEnds(j: string, first: string, last: string)
    requires first != [] && |first| <= |j| && j[..|first|] == first && !IsSpace(first[0])
    requires last != [] && |last| <= |j| && j[|j| - |last|..] == last && !IsSpace(last[|last| - 1])
    ensures j != [] && !IsSpace(j[0]) && !IsSpace(j[|j| - 1])
  {
    assert j[0] == j[..|first|][0];
    assert j[|j| - 1] == j[|j| - |last|..][|last| - 1];
  }

  lemma TrimUnchanged(s: string)
    requires s != [] && !IsSpace(s[0]) && !IsSpace(s[|s| - 1])
    ensures Trim(s) == s
  {
    assert TrimStart(s) == s;
  }
}
