/**
 * String helpers with the meaning Python's `str` methods give them:
 * character classes, searching, splitting and joining, stripping,
 * replacing, decimal rendering and parsing, and the code-point order
 * that `sorted` uses on strings.
 */
module Text {

  // ---------------------------------------------------------------- characters

  predicate IsDigit(c: char) { '0' <= c <= '9' }
  predicate IsLower(c: char) { 'a' <= c <= 'z' }
  predicate IsUpper(c: char) { 'A' <= c <= 'Z' }
  predicate IsAlpha(c: char) { IsLower(c) || IsUpper(c) }
  /** The characters of the regular-expression class `\w` (ASCII). */
  predicate IsWordChar(c: char) { IsAlpha(c) || IsDigit(c) || c == '_' }
  /** The characters of `\s` and of `str.strip()` (ASCII). */
  predicate IsSpace(c: char)
  {
    c == ' ' || c == '\t' || c == '\n' || c == '\r' || c == '\U{000B}' || c == '\U{000C}'
  }

  predicate AllDigits(s: string) { forall i | 0 <= i < |s| :: IsDigit(s[i]) }
  predicate AllSpace(s: string) { forall i | 0 <= i < |s| :: IsSpace(s[i]) }

  /** A numeral as Python's `str()` writes a non-negative int: digits, no leading zero. */
  predicate IsCanonicalNumeral(s: string)
  {
    |s| > 0 && AllDigits(s) && (s[0] == '0' ==> |s| == 1)
  }

  function ToUpper(c: char): (u: char)
    ensures IsLower(c) ==> IsUpper(u)
    ensures !IsLower(c) ==> u == c
  {
    if IsLower(c) then (c as int - 32) as char else c
  }

  function ToLower(c: char): (l: char)
    ensures IsUpper(c) ==> IsLower(l)
    ensures !IsUpper(c) ==> l == c
  {
    if IsUpper(c) then (c as int + 32) as char else c
  }

  function Lower(s: string): (r: string)
    ensures |r| == |s|
    ensures forall i | 0 <= i < |s| :: r[i] == ToLower(s[i])
  {
    if s == [] then [] else [ToLower(s[0])] + Lower(s[1..])
  }

  /** `str.capitalize()`: first character upper case, the rest lower case. */
  function Capitalize(s: string): (r: string)
    ensures |r| == |s|
    ensures |s| > 0 ==> r[0] == ToUpper(s[0]) && r[1..] == Lower(s[1..])
  {
    if s == [] then [] else [ToUpper(s[0])] + Lower(s[1..])
  }

  // ---------------------------------------------------------------- numerals

  function DigitChar(d: nat): (c: char)
    requires d < 10
    ensures IsDigit(c)
  {
    ('0' as int + d) as char
  }

  function DigitValue(c: char): (d: nat)
    requires IsDigit(c)
    ensures d < 10 && DigitChar(d) == c
  {
    c as int - '0' as int
  }

  /** `int(s)` for a string of decimal digits. */
  function ParseNat(s: string): nat
    requires AllDigits(s)
  {
    if s == [] then 0 else ParseNat(s[..|s| - 1]) * 10 + DigitValue(s[|s| - 1])
  }

  /** A digit run holds no other character. */
  lemma DigitsLackChar(s: string, c: char)
    requires AllDigits(s) && !IsDigit(c)
    ensures c !in s
  {
  }

  /** `str(n)` for a non-negative int. */
  function NatToString(n: nat): (s: string)
    ensures IsCanonicalNumeral(s)
    ensures (s[0] == '0') == (n == 0)
    ensures (|s| == 1) == (n < 10) && (|s| <= 2) == (n < 100)
  {
    if n < 10 then [DigitChar(n)] else NatToString(n / 10) + [DigitChar(n % 10)]
  }

  /** `str(i)` for any int. */
  function IntToString(i: int): (s: string)
    ensures |s| > 0
    ensures i >= 0 ==> IsCanonicalNumeral(s)
    ensures i < 0 ==> s[0] == '-' && IsCanonicalNumeral(s[1..])
  {
    if i < 0 then "-" + NatToString(-i) else NatToString(i)
  }

  /** `'%02d' % n` for a non-negative n. */
  function Pad2(n: nat): (s: string)
    ensures |s| >= 2 && AllDigits(s)
    ensures n < 100 ==> |s| == 2
  {
    if n < 10 then "0" + NatToString(n) else NatToString(n)
  }

  /** `'%03d' % n` for a non-negative n. */
  function Pad3(n: nat): (s: string)
    ensures |s| >= 3 && AllDigits(s)
  {
    if n < 10 then "00" + NatToString(n) else if n < 100 then "0" + NatToString(n) else NatToString(n)
  }

  lemma {:induction false} ParseNatAppend(s: string, c: char)
    requires AllDigits(s) && IsDigit(c)
    ensures AllDigits(s + [c])
    ensures ParseNat(s + [c]) == ParseNat(s) * 10 + DigitValue(c)
  {
    assert (s + [c])[..|s|] == s;
  }

  /** Parsing what `str` printed gives the number back. */
  lemma {:induction false} ParseNatToString(n: nat)
    ensures ParseNat(NatToString(n)) == n
  {
    if n >= 10 {
      ParseNatToString(n / 10);
      ParseNatAppend(NatToString(n / 10), DigitChar(n % 10));
    }
  }

  lemma {:induction false} ParseNatPositive(s: string)
    requires |s| > 0 && AllDigits(s) && s[0] != '0'
    ensures ParseNat(s) > 0
  {
    if |s| > 1 {
      ParseNatPositive(s[..|s| - 1]);
    }
  }

  /** Printing a canonical numeral's value gives the numeral back. */
  lemma {:induction false} NatToStringParse(s: string)
    requires IsCanonicalNumeral(s)
    ensures NatToString(ParseNat(s)) == s
  {
    var p, c := s[..|s| - 1], s[|s| - 1];
    assert s == p + [c];
    if |s| > 1 {
      ParseNatPositive(p);
      NatToStringParse(p);
      var q, d := ParseNat(p), DigitValue(c);
      var n := ParseNat(s);
      assert n == q * 10 + d;
      DivModDigit(q, d);
      assert NatToString(n) == NatToString(q) + [DigitChar(d)];
    }
  }

  lemma DivModDigit(q: nat, d: nat)
    requires d < 10
    ensures (q * 10 + d) / 10 == q && (q * 10 + d) % 10 == d && (q > 0 ==> q * 10 + d >= 10)
  {
  }

  // ---------------------------------------------------------------- searching

  predicate StartsWith(s: string, prefix: string)
  {
    |prefix| <= |s| && s[..|prefix|] == prefix
  }

  predicate EndsWith(s: string, suffix: string)
  {
    |suffix| <= |s| && s[|s| - |suffix|..] == suffix
  }

  /** `sub` occurs in `s` starting at index `i`. */
  predicate OccursAt(s: string, sub: string, i: int)
  {
    0 <= i && i + |sub| <= |s| && s[i..i + |sub|] == sub
  }

  /** `sub in s`. */
  predicate Contains(s: string, sub: string)
  {
    exists i | 0 <= i <= |s| :: OccursAt(s, sub, i)
  }

  function FindFrom(s: string, sub: string, start: nat): (r: int)
    ensures r == -1 || (start <= r && OccursAt(s, sub, r))
    decreases |s| - start
  {
    if start + |sub| > |s| then -1
    else if s[start..start + |sub|] == sub then start
    else FindFrom(s, sub, start + 1)
  }

  /** The search from `start` reports the first occurrence at or after `start`, and -1 when there is none. */
  lemma {:induction false} FindFromFirst(s: string, sub: string, start: nat)
    ensures var r := FindFrom(s, sub, start);
      && (r == -1 ==> forall i | start <= i :: !OccursAt(s, sub, i))
      && (r != -1 ==> forall i | start <= i < r :: !OccursAt(s, sub, i))
    decreases |s| - start
  {
    if start + |sub| <= |s| && s[start..start + |sub|] != sub {
      FindFromFirst(s, sub, start + 1);
    }
  }

  /** `s.find(sub)`: the first index where `sub` occurs, or -1. */
  function Find(s: string, sub: string): (r: int)
    ensures r == -1 || OccursAt(s, sub, r)
  {
    FindFrom(s, sub, 0)
  }

  /** `find` answers -1 exactly when `sub` does not occur, and otherwise its first occurrence. */
  lemma FindSpec(s: string, sub: string)
    ensures var r := Find(s, sub);
      && (r == -1 <==> !Contains(s, sub))
      && (r != -1 ==> forall i | 0 <= i < r :: !OccursAt(s, sub, i))
  {
    FindFromFirst(s, sub, 0);
  }

  /** `s.find(c)` for one character. */
  function FindChar(s: string, c: char): (r: int)
    ensures -1 <= r < |s|
    ensures r == -1 <==> c !in s
    ensures r != -1 ==> s[r] == c && c !in s[..r]
  {
    if s == [] then -1
    else if s[0] == c then 0
    else
      var k := FindChar(s[1..], c);
      if k == -1 then -1 else k + 1
  }

  /** `s.rfind(c)` for one character: the last index of `c`, or -1. */
  function RFindChar(s: string, c: char): (r: int)
    ensures -1 <= r < |s|
    ensures r == -1 <==> c !in s
    ensures r != -1 ==> s[r] == c && c !in s[r + 1..]
  {
    if s == [] then -1
    else if s[|s| - 1] == c then |s| - 1
    else RFindChar(s[..|s| - 1], c)
  }

  /** An occurrence of `c` with no `c` before it is the one `find` reports. */
  lemma {:induction false} FindCharAt(s: string, c: char, p: nat)
    requires p < |s| && s[p] == c && forall j | 0 <= j < p :: s[j] != c
    ensures FindChar(s, c) == p
  {
    if p > 0 {
      FindCharAt(s[1..], c, p - 1);
    }
  }

  /** An occurrence of `c` with no `c` after it is the one `rfind` reports. */
  lemma {:induction false} RFindCharAt(s: string, c: char, p: nat)
    requires p < |s| && s[p] == c && forall j | p < j < |s| :: s[j] != c
    ensures RFindChar(s, c) == p
  {
    if p < |s| - 1 {
      RFindCharAt(s[..|s| - 1], c, p);
    }
  }

  /** The index of the first '\n' at or after `i`, or |s|: where a regex `.` stops. */
  function LineEnd(s: string, i: nat): (e: nat)
    requires i <= |s|
    ensures i <= e <= |s| && (e < |s| ==> s[e] == '\n')
    ensures forall q | i <= q < e :: s[q] != '\n'
    decreases |s| - i
  {
    if i == |s| || s[i] == '\n' then i else LineEnd(s, i + 1)
  }

  /** The end of the run of `[A-Za-z0-9_]` starting at p. */
  function WordEnd(s: string, p: nat): (e: nat)
    requires p <= |s|
    ensures p <= e <= |s|
    ensures forall i | p <= i < e :: IsWordChar(s[i])
    ensures e == |s| || !IsWordChar(s[e])
    decreases |s| - p
  {
    if p < |s| && IsWordChar(s[p]) then WordEnd(s, p + 1) else p
  }

  // ---------------------------------------------------------------- split and join

  /** `sep.join(parts)`. */
  function Join(parts: seq<string>, sep: string): string
  {
    if |parts| == 0 then ""
    else if |parts| == 1 then parts[0]
    else parts[0] + sep + Join(parts[1..], sep)
  }

  /** `s.split(sep)` for a non-empty separator. */
  function Split(s: string, sep: string): (parts: seq<string>)
    requires |sep| > 0
    ensures |parts| >= 1
    decreases |s|
  {
    var i := Find(s, sep);
    if i == -1 then [s] else [s[..i]] + Split(s[i + |sep|..], sep)
  }

  /** Joining the parts of a split with the separator gives the text back. */
  lemma {:induction false} SplitJoin(s: string, sep: string)
    requires |sep| > 0
    ensures Join(Split(s, sep), sep) == s
    decreases |s|
  {
    var i := Find(s, sep);
    if i != -1 {
      var rest := s[i + |sep|..];
      var tail := Split(rest, sep);
      assert Split(s, sep) == [s[..i]] + tail;
      SplitJoin(rest, sep);
      assert Join([s[..i]] + tail, sep) == s[..i] + sep + Join(tail, sep);
      assert s == s[..i] + sep + rest;
    }
  }

  /** No part of a split holds the separator. */
  lemma {:induction false} SplitPartsFree(s: string, sep: string)
    requires |sep| > 0
    ensures forall p | p in Split(s, sep) :: !Contains(p, sep)
    decreases |s|
  {
    FindSpec(s, sep);
    var i := Find(s, sep);
    if i != -1 {
      var rest := s[i + |sep|..];
      SplitPartsFree(rest, sep);
      forall j | 0 <= j <= i ensures !OccursAt(s[..i], sep, j) {
        assert OccursAt(s[..i], sep, j) ==> OccursAt(s, sep, j);
      }
    }
  }

  /** A text without the separator splits into itself alone. */
  lemma SplitOnFree(s: string, c: char)
    requires c !in s
    ensures SplitOn(s, c) == [s]
  {
  }

  /** `s.split(c)` for a one-character separator. */
  function SplitOn(s: string, c: char): (parts: seq<string>)
    ensures |parts| >= 1
    decreases |s|
  {
    var i := FindChar(s, c);
    if i == -1 then [s] else [s[..i]] + SplitOn(s[i + 1..], c)
  }

  /** Joining the parts of a split with the separator gives the text back. */
  lemma {:induction false} SplitOnJoin(s: string, c: char)
    ensures Join(SplitOn(s, c), [c]) == s
    decreases |s|
  {
    var i := FindChar(s, c);
    if i != -1 {
      var rest := s[i + 1..];
      var tail := SplitOn(rest, c);
      SplitOnJoin(rest, c);
      assert Join([s[..i]] + tail, [c]) == s[..i] + [c] + Join(tail, [c]);
      assert s == s[..i] + [c] + rest;
    }
  }

  /** Splitting a join of separator-free parts gives the parts back. */
  lemma {:induction false} JoinSplitOn(parts: seq<string>, c: char)
    requires |parts| >= 1
    requires forall i | 0 <= i < |parts| :: c !in parts[i]
    ensures SplitOn(Join(parts, [c]), c) == parts
    decreases |parts|
  {
    if |parts| == 1 {
      SplitOnFree(parts[0], c);
    } else {
      var rest := Join(parts[1..], [c]);
      var s := parts[0] + [c] + rest;
      assert Join(parts, [c]) == s;
      FindCharAt(s, c, |parts[0]|);
      assert s[..|parts[0]|] == parts[0];
      assert s[|parts[0]| + 1..] == rest;
      JoinSplitOn(parts[1..], c);
    }
  }

  /** No part of a split holds the separator. */
  lemma {:induction false} SplitOnPartsFree(s: string, c: char)
    ensures forall p | p in SplitOn(s, c) :: c !in p
    decreases |s|
  {
    var i := FindChar(s, c);
    if i != -1 {
      SplitOnPartsFree(s[i + 1..], c);
    }
  }

  /** Text without the separator appended to `s` extends the last part of its split. */
  lemma {:induction false} SplitOnAppend(s: string, t: string, c: char)
    requires c !in t
    ensures var p := SplitOn(s, c); SplitOn(s + t, c) == p[..|p| - 1] + [p[|p| - 1] + t]
    decreases |s|
  {
    var i := FindChar(s, c);
    if i == -1 {
      SplitOnFree(s, c);
      SplitOnFree(s + t, c);
    } else {
      var rest := s[i + 1..];
      FindCharExtend(s, t, c);
      SplitOnStep(s, c, i);
      SplitOnStep(s + t, c, i);
      SplitOnAppend(rest, t, c);
      ExtendLast(s[..i], SplitOn(rest, c), t);
    }
  }

  /** Appending text leaves an occurrence of `c` and what surrounds it in place. */
  lemma FindCharExtend(s: string, t: string, c: char)
    requires c in s
    ensures var i := FindChar(s, c);
      FindChar(s + t, c) == i && (s + t)[..i] == s[..i] && (s + t)[i + 1..] == s[i + 1..] + t
  {
    var i := FindChar(s, c);
    FindCharAt(s + t, c, i);
  }

  /** One step of a split: the text before the first separator, then the split of the rest. */
  lemma SplitOnStep(s: string, c: char, i: nat)
    requires FindChar(s, c) == i
    ensures SplitOn(s, c) == [s[..i]] + SplitOn(s[i + 1..], c)
  {
  }

  lemma ExtendLast<T>(h: seq<T>, p: seq<seq<T>>, t: seq<T>)
    requires |p| > 0
    ensures var whole := [h] + p;
      [h] + (p[..|p| - 1] + [p[|p| - 1] + t]) == whole[..|whole| - 1] + [whole[|whole| - 1] + t]
  {
    var whole := [h] + p;
    assert whole[..|whole| - 1] == [h] + p[..|p| - 1];
  }

  /** `s.partition(c)` reduced to the text before and after the first `c` (all of `s` when absent). */
  function Before(s: string, c: char): string
  {
    var i := FindChar(s, c);
    if i == -1 then s else s[..i]
  }

  function After(s: string, c: char): string
  {
    var i := FindChar(s, c);
    if i == -1 then "" else s[i + 1..]
  }

  /**
   * The text before the first `c` is a `c`-free prefix; when `c` occurs, the
   * two parts around it make up `s`, and otherwise the prefix is all of `s`.
   */
  lemma BeforeAfterSpec(s: string, c: char)
    ensures var b, a := Before(s, c), After(s, c);
      c !in b && StartsWith(s, b)
      && (c in s ==> s == b + [c] + a)
      && (c !in s ==> b == s && a == "")
  {
    var i := FindChar(s, c);
    if i != -1 {
      assert s == s[..i] + [c] + s[i + 1..];
    }
  }

  /** The text after the last `c`: all of `s` when there is none. */
  function AfterLast(s: string, c: char): string
  {
    s[RFindChar(s, c) + 1..]
  }

  /** What follows the last `c` is a `c`-free suffix of `s`, preceded by `c` unless it is all of `s`. */
  lemma AfterLastSpec(s: string, c: char)
    ensures var r := AfterLast(s, c);
      c !in r && EndsWith(s, r)
      && (|r| < |s| ==> s[|s| - |r| - 1] == c)
      && (c !in s ==> r == s)
  {
    var i := RFindChar(s, c);
    assert s[i + 1..] == s[|s| - (|s| - i - 1)..];
  }

  /** The text after the last `c` is found as well after any earlier `c`. */
  lemma AfterLastShift(s: string, c: char, i: nat)
    requires i < |s| && s[i] == c
    ensures AfterLast(s, c) == AfterLast(s[i + 1..], c)
  {
    var rest := s[i + 1..];
    var r := RFindChar(rest, c);
    if r == -1 {
      forall j | i < j < |s| ensures s[j] != c { assert s[j] == rest[j - i - 1]; }
      RFindCharAt(s, c, i);
    } else {
      forall j | i + 1 + r < j < |s| ensures s[j] != c { assert s[j] == rest[j - i - 1]; }
      RFindCharAt(s, c, i + 1 + r);
      assert s[i + 1 + r + 1..] == rest[r + 1..];
    }
  }

  // ---------------------------------------------------------------- stripping

  /** `s.lstrip()`. */
  function LStrip(s: string): (r: string)
    ensures |r| <= |s|
  {
    if s != [] && IsSpace(s[0]) then LStrip(s[1..]) else s
  }

  /** `s.rstrip()`. */
  function RStrip(s: string): (r: string)
    ensures |r| <= |s|
  {
    if s != [] && IsSpace(s[|s| - 1]) then RStrip(s[..|s| - 1]) else s
  }

  /** `lstrip` drops exactly the leading whitespace. */
  lemma {:induction false} LStripSpec(s: string)
    ensures var r := LStrip(s);
      && r == s[|s| - |r|..]
      && AllSpace(s[..|s| - |r|])
      && (r == [] || !IsSpace(r[0]))
  {
    if s != [] && IsSpace(s[0]) {
      LStripSpec(s[1..]);
      var r := LStrip(s);
      assert s[..|s| - |r|] == [s[0]] + s[1..][..|s| - 1 - |r|];
    }
  }

  /** `rstrip` drops exactly the trailing whitespace. */
  lemma {:induction false} RStripSpec(s: string)
    ensures var r := RStrip(s);
      && r == s[..|r|]
      && AllSpace(s[|r|..])
      && (r == [] || !IsSpace(r[|r| - 1]))
  {
    if s != [] && IsSpace(s[|s| - 1]) {
      var init := s[..|s| - 1];
      RStripSpec(init);
      var r := RStrip(s);
      assert s[|r|..] == init[|r|..] + [s[|s| - 1]];
    }
  }

  /** `s.strip()`. */
  function Strip(s: string): (r: string)
    ensures |r| <= |s|
  {
    LStrip(RStrip(s))
  }

  /** `strip` leaves no whitespace at either end. */
  lemma StripSpec(s: string)
    ensures var r := Strip(s); r == [] || (!IsSpace(r[0]) && !IsSpace(r[|r| - 1]))
  {
    var t := RStrip(s);
    RStripSpec(s);
    LStripSpec(t);
    var r := LStrip(t);
    if r != [] {
      assert r[|r| - 1] == t[|t| - 1];
    }
  }

  /** Stripping adds no character: a character missing from `s` is missing from `s.strip()`. */
  lemma StripKeepsOut(s: string, c: char)
    requires c !in s
    ensures c !in Strip(s)
  {
    var t := RStrip(s);
    RStripSpec(s);
    LStripSpec(t);
    assert forall k | 0 <= k < |t| :: t[k] == s[k];
  }

  lemma StripBlank(s: string)
    ensures (Strip(s) == []) == AllSpace(s)
  {
    var t := RStrip(s);
    RStripSpec(s);
    LStripSpec(t);
    if AllSpace(s) {
      assert AllSpace(t);
    } else {
      var k :| 0 <= k < |s| && !IsSpace(s[k]);
      assert k < |t|;
      assert t[k] == s[k];
    }
  }

  // ---------------------------------------------------------------- replacing

  /** `s.replace(a, b)` for single characters. */
  function ReplaceChar(s: string, a: char, b: char): (r: string)
    ensures |r| == |s|
    ensures forall i | 0 <= i < |s| :: r[i] == (if s[i] == a then b else s[i])
  {
    if s == [] then [] else [if s[0] == a then b else s[0]] + ReplaceChar(s[1..], a, b)
  }

  /** `s.replace(pat, rep)` for a non-empty pattern: left to right, non-overlapping. */
  function ReplaceAll(s: string, pat: string, rep: string): (r: string)
    requires |pat| > 0
    ensures !Contains(s, pat) ==> r == s
    decreases |s|
  {
    FindSpec(s, pat);
    var i := Find(s, pat);
    if i == -1 then s else s[..i] + rep + ReplaceAll(s[i + |pat|..], pat, rep)
  }

  /** Replacing is splitting at the pattern and joining with the replacement. */
  lemma {:induction false} ReplaceAllIsSplitJoin(s: string, pat: string, rep: string)
    requires |pat| > 0
    ensures ReplaceAll(s, pat, rep) == Join(Split(s, pat), rep)
    decreases |s|
  {
    var i := Find(s, pat);
    if i != -1 {
      var rest := s[i + |pat|..];
      var tail := Split(rest, pat);
      assert Split(s, pat) == [s[..i]] + tail;
      ReplaceAllIsSplitJoin(rest, pat, rep);
      assert Join([s[..i]] + tail, rep) == s[..i] + rep + Join(tail, rep);
    }
  }

  // ---------------------------------------------------------------- order

  /** Python's `a < b` on strings: code-point lexicographic order. */
  predicate Less(a: string, b: string)
  {
    if a == [] then b != []
    else if b == [] then false
    else if a[0] != b[0] then a[0] < b[0]
    else Less(a[1..], b[1..])
  }

  predicate LessEq(a: string, b: string) { a == b || Less(a, b) }

  lemma {:induction false} LessIrreflexive(a: string)
    ensures !Less(a, a)
  {
    if a != [] { LessIrreflexive(a[1..]); }
  }

  lemma {:induction false} LessTransitive(a: string, b: string, c: string)
    requires Less(a, b) && Less(b, c)
    ensures Less(a, c)
  {
    if a != [] && b != [] && c != [] && a[0] == b[0] && b[0] == c[0] {
      LessTransitive(a[1..], b[1..], c[1..]);
    }
  }

  lemma {:induction false} LessTotal(a: string, b: string)
    ensures a == b || Less(a, b) || Less(b, a)
  {
    if a != [] && b != [] && a[0] == b[0] {
      LessTotal(a[1..], b[1..]);
      if a[1..] == b[1..] {
        assert a == [a[0]] + a[1..] && b == [b[0]] + b[1..];
      }
    }
  }

  lemma {:induction false} LessAsymmetric(a: string, b: string)
    requires Less(a, b)
    ensures !Less(b, a)
  {
    if a != [] && b != [] && a[0] == b[0] {
      LessAsymmetric(a[1..], b[1..]);
    }
  }

  predicate SortedStrings(s: seq<string>)
  {
    forall i, j | 0 <= i < j < |s| :: Less(s[i], s[j])
  }

  /** `m` is an element of `s` no greater than any other. */
  predicate IsLeastOf(m: string, s: set<string>)
  {
    m in s && forall y | y in s :: LessEq(m, y)
  }

  /** Adding `x` to a set leaves its least element or `x` as the least. */
  lemma LeastAdd(m: string, x: string, s: set<string>)
    requires IsLeastOf(m, s)
    ensures IsLeastOf(if Less(m, x) then m else x, s + {x})
  {
    LessTotal(m, x);
    if !Less(m, x) {
      forall y | y in s + {x} ensures LessEq(x, y) {
        if y != x {
          assert LessEq(m, y);
          if m != y && m != x { LessTransitive(x, m, y); }
        }
      }
    }
  }

  lemma {:induction false} HasLeast(s: set<string>)
    requires s != {}
    ensures exists m :: IsLeastOf(m, s)
  {
    var x :| x in s;
    if s == {x} {
      assert IsLeastOf(x, s);
    } else {
      HasLeast(s - {x});
      var m :| IsLeastOf(m, s - {x});
      LeastAdd(m, x, s - {x});
      assert s - {x} + {x} == s;
    }
  }

  /** The least element of a non-empty set of strings. */
  function Least(s: set<string>): (m: string)
    requires s != {}
    ensures m in s && forall y | y in s :: LessEq(m, y)
  {
    HasLeast(s);
    var m :| IsLeastOf(m, s);
    LeastUnique(s, m);
    m
  }

  /** `sorted(s)` for a set of strings: its elements in increasing order, each once. */
  function SortedSeq(s: set<string>): (r: seq<string>)
    ensures |r| == |s|
    ensures forall x :: x in r <==> x in s
    ensures SortedStrings(r)
    decreases |s|
  {
    if s == {} then []
    else
      var m := Least(s);
      var rest := SortedSeq(s - {m});
      LeastBeforeRest(s, m, rest);
      [m] + rest
  }

  lemma LeastBeforeRest(s: set<string>, m: string, rest: seq<string>)
    requires m in s && forall y | y in s :: LessEq(m, y)
    requires forall x :: x in rest <==> x in s - {m}
    requires SortedStrings(rest)
    ensures SortedStrings([m] + rest)
  {
    var r := [m] + rest;
    forall i, j | 0 <= i < j < |r| ensures Less(r[i], r[j]) {
      if i == 0 {
        assert r[j] == rest[j - 1] && r[j] in s - {m};
      } else {
        assert r[i] == rest[i - 1] && r[j] == rest[j - 1];
      }
    }
  }

  lemma LeastUnique(s: set<string>, m: string)
    requires m in s && forall y | y in s :: LessEq(m, y)
    ensures forall m' | m' in s && (forall y | y in s :: LessEq(m', y)) :: m' == m
  {
    forall m' | m' in s && (forall y | y in s :: LessEq(m', y)) ensures m' == m {
      if m' != m {
        assert Less(m, m') && Less(m', m);
        LessAsymmetric(m, m');
      }
    }
  }

  lemma LessEqTransitive(a: string, b: string, c: string)
    requires LessEq(a, b) && LessEq(b, c)
    ensures LessEq(a, c)
  {
    if a != b && b != c { LessTransitive(a, b, c); }
  }

  /** The elements of `s` are in non-decreasing order of `key`. */
  predicate SortedBy<T>(s: seq<T>, key: T -> string)
  {
    forall i, j | 0 <= i < j < |s| :: LessEq(key(s[i]), key(s[j]))
  }

  /** Putting in front an element no greater than any of a sorted sequence keeps it sorted. */
  lemma PrependSorted<T>(h: T, t: seq<T>, key: T -> string)
    requires SortedBy(t, key)
    requires forall j | 0 <= j < |t| :: LessEq(key(h), key(t[j]))
    ensures SortedBy([h] + t, key)
  {
    forall i, j | 0 <= i < j < |[h] + t| ensures LessEq(key(([h] + t)[i]), key(([h] + t)[j])) {
      assert ([h] + t)[j] == t[j - 1];
      if i > 0 { assert ([h] + t)[i] == t[i - 1]; }
    }
  }

  /** The head of a sorted sequence is no greater than anything in it. */
  lemma HeadBelowSorted<T>(x: T, s: seq<T>, key: T -> string)
    requires SortedBy(s, key) && s != [] && LessEq(key(x), key(s[0]))
    ensures forall j | 0 <= j < |s| :: LessEq(key(x), key(s[j]))
  {
    forall j | 0 <= j < |s| ensures LessEq(key(x), key(s[j])) {
      if j > 0 { LessEqTransitive(key(x), key(s[0]), key(s[j])); }
    }
  }

  /** The head of a sorted `s` is below every element of a `t` made of `s[1..]` and one element above it. */
  lemma HeadBelowInsert<T>(s: seq<T>, x: T, t: seq<T>, key: T -> string)
    requires SortedBy(s, key) && s != [] && LessEq(key(s[0]), key(x))
    requires multiset(t) == multiset(s[1..]) + multiset{x}
    ensures forall j | 0 <= j < |t| :: LessEq(key(s[0]), key(t[j]))
  {
    forall j | 0 <= j < |t| ensures LessEq(key(s[0]), key(t[j])) {
      assert t[j] in multiset(t);
      if t[j] != x {
        assert t[j] in multiset(s[1..]);
        var k :| 0 <= k < |s[1..]| && s[1..][k] == t[j];
        assert s[k + 1] == t[j];
      }
    }
  }

  function InsertBy<T(==)>(x: T, s: seq<T>, key: T -> string): (r: seq<T>)
    requires SortedBy(s, key)
    ensures SortedBy(r, key)
    ensures multiset(r) == multiset(s) + multiset{x}
  {
    if s == [] then [x]
    else if LessEq(key(x), key(s[0])) then
      HeadBelowSorted(x, s, key);
      PrependSorted(x, s, key);
      [x] + s
    else
      LessTotal(key(x), key(s[0]));
      var t := InsertBy(x, s[1..], key);
      assert s == [s[0]] + s[1..];
      HeadBelowInsert(s, x, t, key);
      PrependSorted(s[0], t, key);
      [s[0]] + t
  }

  /** Python's `sorted(s, key=key)`: stable, non-decreasing, a permutation of `s`. */
  function SortBy<T(==)>(s: seq<T>, key: T -> string): (r: seq<T>)
    ensures SortedBy(r, key)
    ensures multiset(r) == multiset(s)
  {
    if s == [] then []
    else
      assert s == [s[0]] + s[1..];
      InsertBy(s[0], SortBy(s[1..], key), key)
  }

  /** `s` back to front. */
  function Reverse<T>(s: seq<T>): (r: seq<T>)
    ensures |r| == |s|
    ensures forall i | 0 <= i < |s| :: r[i] == s[|s| - 1 - i]
  {
    if s == [] then [] else Reverse(s[1..]) + [s[0]]
  }

  lemma {:induction false} ReverseMultiset<T>(s: seq<T>)
    ensures multiset(Reverse(s)) == multiset(s)
  {
    if s != [] {
      ReverseMultiset(s[1..]);
      assert s == [s[0]] + s[1..];
    }
  }

  /** The elements of `s` are in non-increasing order of `key`. */
  predicate SortedDescBy<T>(s: seq<T>, key: T -> string)
  {
    forall i, j | 0 <= i < j < |s| :: LessEq(key(s[j]), key(s[i]))
  }

  /**
   * Python's `sorted(s, key=key, reverse=True)`: the input reversed, sorted
   * stably and reversed back, so that equal keys keep their input order.
   */
  function SortDescBy<T(==)>(s: seq<T>, key: T -> string): (r: seq<T>)
  {
    Reverse(SortBy(Reverse(s), key))
  }

  /** Reversing an ascending sequence gives a descending one. */
  lemma ReverseSorted<T>(up: seq<T>, key: T -> string)
    requires SortedBy(up, key)
    ensures SortedDescBy(Reverse(up), key)
  {
    var r := Reverse(up);
    forall i, j | 0 <= i < j < |r| ensures LessEq(key(r[j]), key(r[i])) {
      var a, b := |up| - 1 - j, |up| - 1 - i;
      assert r[j] == up[a] && r[i] == up[b];
    }
  }

  /** The descending sort is ordered and a permutation of its input. */
  lemma SortDescBySpec<T>(s: seq<T>, key: T -> string)
    ensures SortedDescBy(SortDescBy(s, key), key)
    ensures multiset(SortDescBy(s, key)) == multiset(s)
  {
    var up := SortBy(Reverse(s), key);
    ReverseMultiset(s);
    ReverseMultiset(up);
    ReverseSorted(up, key);
  }
}
