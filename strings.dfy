/**
 * The `java.lang.String` and `java.lang.Character` operations the crawler
 * relies on, stated over `seq<char>`.
 */
module JavaStrings {

  /** `String.trim()` strips every leading and trailing character at or below U+0020. */
  predicate IsTrimmable(c: char)
  {
    c <= ' '
  }

  /** `s.trim().isEmpty()`: every character of `s` is one that `trim` removes. */
  predicate IsBlank(s: string)
  {
    forall i :: 0 <= i < |s| ==> IsTrimmable(s[i])
  }

  function TrimStart(s: string): string
  {
    if s != [] && IsTrimmable(s[0]) then TrimStart(s[1..]) else s
  }

  function TrimEnd(s: string): string
  {
    if s != [] && IsTrimmable(s[|s| - 1]) then TrimEnd(s[..|s| - 1]) else s
  }

  /** `String.trim()`. Its properties are stated by `TrimFacts`. */
  function Trim(s: string): string
  {
    TrimEnd(TrimStart(s))
  }

  lemma {:induction false} TrimStartFacts(s: string)
    ensures var r := TrimStart(s);
      |r| <= |s| && r == s[|s| - |r|..] &&
      (r == [] || !IsTrimmable(r[0])) &&
      (forall i :: 0 <= i < |s| - |r| ==> IsTrimmable(s[i]))
  {
    if s != [] && IsTrimmable(s[0]) {
      var t := s[1..];
      TrimStartFacts(t);
      var r := TrimStart(t);
      assert TrimStart(s) == r;
      assert t[|t| - |r|..] == s[|s| - |r|..];
      assert forall i :: 1 <= i < |s| - |r| ==> s[i] == t[i - 1];
    } else {
      assert TrimStart(s) == s;
      assert s[0..] == s;
    }
  }

  lemma {:induction false} TrimEndFacts(s: string)
    ensures var r := TrimEnd(s);
      |r| <= |s| && r == s[..|r|] &&
      (r == [] || !IsTrimmable(r[|r| - 1])) &&
      (forall i :: |r| <= i < |s| ==> IsTrimmable(s[i]))
  {
    if s != [] && IsTrimmable(s[|s| - 1]) {
      TrimEndFacts(s[..|s| - 1]);
    }
  }

  /**
   * `trim` returns the part of `s` between its leading and trailing runs of
   * characters at or below U+0020: it starts and ends with other
   * characters, and it is empty exactly when `s` is blank.
   */
  lemma TrimFacts(s: string)
    ensures var r := Trim(s);
      |r| <= |s| &&
      (r == [] || (!IsTrimmable(r[0]) && !IsTrimmable(r[|r| - 1]))) &&
      (r == [] <==> IsBlank(s))
  {
    var t := TrimStart(s);
    TrimStartFacts(s);
    TrimEndFacts(t);
    var r := TrimEnd(t);
    assert t != [] ==> t[0] == s[|s| - |t|];
    assert r != [] ==> r[0] == t[0];
  }

  /** Characters at or below U+0020 appended to a string vanish under `trim`. */
  lemma {:induction false} TrimDropsTrimmableSuffix(a: string, w: string)
    requires forall i :: 0 <= i < |w| ==> IsTrimmable(w[i])
    ensures Trim(a + w) == Trim(a)
    decreases |w|
  {
    if w != [] {
      var w' := w[..|w| - 1];
      var c := w[|w| - 1];
      assert IsTrimmable(c);
      assert forall i :: 0 <= i < |w'| ==> w'[i] == w[i];
      calc {
        Trim(a + w);
        { assert a + w == (a + w') + [c]; }
        Trim((a + w') + [c]);
        { TrimDropsTrimmableChar(a + w', c); }
        Trim(a + w');
        { TrimDropsTrimmableSuffix(a, w'); }
        Trim(a);
      }
    } else {
      assert a + w == a;
    }
  }

  lemma TrimDropsTrimmableChar(a: string, c: char)
    requires IsTrimmable(c)
    ensures Trim(a + [c]) == Trim(a)
  {
    TrimStartOfSnoc(a, c);
    var t := TrimStart(a);
    if t != [] {
      assert (t + [c])[..|t|] == t;
      assert TrimEnd(t + [c]) == TrimEnd(t);
    }
  }

  lemma {:induction false} TrimStartOfSnoc(a: string, c: char)
    requires IsTrimmable(c)
    ensures TrimStart(a) == [] ==> TrimStart(a + [c]) == []
    ensures TrimStart(a) != [] ==> TrimStart(a + [c]) == TrimStart(a) + [c]
  {
    if a == [] {
      assert TrimStart([c]) == TrimStart([]);
    } else if IsTrimmable(a[0]) {
      assert (a + [c])[1..] == a[1..] + [c];
      TrimStartOfSnoc(a[1..], c);
    }
  }

  /** `String.startsWith`. */
  predicate StartsWith(s: string, prefix: string)
  {
    |prefix| <= |s| && s[..|prefix|] == prefix
  }

  /** `String.contains`: `t` occurs in `s` at some position. */
  predicate Contains(s: string, t: string)
    decreases |s|
  {
    StartsWith(s, t) || (s != [] && Contains(s[1..], t))
  }

  /** The position-based reading of `Contains`. */
  lemma {:induction false} ContainsAt(s: string, t: string, i: nat)
    requires i + |t| <= |s| && s[i..i + |t|] == t
    ensures Contains(s, t)
  {
    if i > 0 {
      assert s[1..][i - 1..i - 1 + |t|] == s[i..i + |t|];
      ContainsAt(s[1..], t, i - 1);
    } else {
      assert s[..|t|] == t;
    }
  }

  lemma {:induction false} ContainsWitness(s: string, t: string) returns (i: nat)
    requires Contains(s, t)
    ensures i + |t| <= |s| && s[i..i + |t|] == t
  {
    if StartsWith(s, t) {
      i := 0;
    } else {
      var j := ContainsWitness(s[1..], t);
      assert s[1..][j..j + |t|] == s[j + 1..j + 1 + |t|];
      i := j + 1;
    }
  }

  /** None of the characters of `s` is among `stops`. */
  predicate NoneOf(s: string, stops: string)
  {
    forall i :: 0 <= i < |s| ==> s[i] !in stops
  }

  /** `indexOf` of the first character among `stops`, or `|s|` when there is none. */
  function Span(s: string, stops: string): (n: nat)
    ensures n <= |s|
    ensures NoneOf(s[..n], stops)
    ensures n < |s| ==> s[n] in stops
  {
    if s == [] || s[0] in stops then 0
    else
      var n := 1 + Span(s[1..], stops);
      assert s[..n] == [s[0]] + s[1..][..n - 1];
      n
  }

  lemma {:induction false} SpanOfFree(a: string, b: string, stops: string)
    requires NoneOf(a, stops)
    ensures Span(a + b, stops) == |a| + Span(b, stops)
    decreases |a|
  {
    if a == [] {
      assert a + b == b;
    } else {
      assert (a + b)[1..] == a[1..] + b;
      SpanOfFree(a[1..], b, stops);
    }
  }

  lemma SpanAtStop(b: string, stops: string)
    requires b == [] || b[0] in stops
    ensures Span(b, stops) == 0
  {
  }

  /** Java's `\d` (without UNICODE_CHARACTER_CLASS) and `[0-9]`. */
  predicate IsDigit(c: char)
  {
    '0' <= c <= '9'
  }

  predicate AllDigits(s: string)
  {
    forall k :: 0 <= k < |s| ==> IsDigit(s[k])
  }

  predicate IsAsciiLetter(c: char)
  {
    'a' <= c <= 'z' || 'A' <= c <= 'Z'
  }

  /**
   * `Character.toLowerCase` on the scripts the crawler deals with: ASCII,
   * the Latin-1 letters and the basic Cyrillic block (with the Ё..Џ row).
   * Every other character is treated as having no case.
   */
  function ToLowerChar(c: char): char
  {
    if 'A' <= c <= 'Z' then (c as int + 0x20) as char
    else if '\U{00C0}' <= c <= '\U{00DE}' && c != '\U{00D7}' then (c as int + 0x20) as char
    else if '\U{0410}' <= c <= '\U{042F}' then (c as int + 0x20) as char
    else if '\U{0400}' <= c <= '\U{040F}' then (c as int + 0x50) as char
    else c
  }

  /** `Character.toUpperCase` on the same scripts as `ToLowerChar`. */
  function ToUpperChar(c: char): char
  {
    if 'a' <= c <= 'z' then (c as int - 0x20) as char
    else if '\U{00E0}' <= c <= '\U{00FE}' && c != '\U{00F7}' then (c as int - 0x20) as char
    else if '\U{0430}' <= c <= '\U{044F}' then (c as int - 0x20) as char
    else if '\U{0450}' <= c <= '\U{045F}' then (c as int - 0x50) as char
    else c
  }

  /** `String.toLowerCase()`, character by character. */
  function ToLowerCase(s: string): (r: string)
    ensures |r| == |s|
    ensures forall i :: 0 <= i < |s| ==> r[i] == ToLowerChar(s[i])
  {
    if s == [] then [] else [ToLowerChar(s[0])] + ToLowerCase(s[1..])
  }

  /**
   * The key `String.CASE_INSENSITIVE_ORDER` compares by: two characters tie
   * when they are equal after `toUpperCase` and then `toLowerCase`, and
   * otherwise are ordered by the latter.
   */
  function FoldCase(s: string): (r: string)
    ensures |r| == |s|
    ensures forall i :: 0 <= i < |s| ==> r[i] == ToLowerChar(ToUpperChar(s[i]))
  {
    if s == [] then [] else [ToLowerChar(ToUpperChar(s[0]))] + FoldCase(s[1..])
  }

  /** On the scripts modelled here, case folding is plain lower-casing. */
  lemma FoldCaseIsLowerCase(s: string)
    ensures FoldCase(s) == ToLowerCase(s)
  {
  }

  /** A string that `toLowerCase` leaves as it is. */
  predicate IsLowerCase(s: string)
  {
    forall i :: 0 <= i < |s| ==> ToLowerChar(s[i]) == s[i]
  }

  lemma LowerCaseIsLowerCase(s: string)
    ensures IsLowerCase(ToLowerCase(s))
  {
  }

  /** `toLowerCase` leaves a lower-case string as it is. */
  lemma LowerCaseOfLower(s: string)
    requires IsLowerCase(s)
    ensures ToLowerCase(s) == s
  {
  }

  /** `toLowerCase` maps `s` to `t` when it maps each character of `s` to that of `t`. */
  lemma LowerCaseEq(s: string, t: string)
    requires |s| == |t| && forall i :: 0 <= i < |s| ==> ToLowerChar(s[i]) == t[i]
    ensures ToLowerCase(s) == t
  {
  }

  /** Trimming a lower-case string leaves it lower-case. */
  lemma TrimOfLowerIsLower(s: string)
    requires IsLowerCase(s)
    ensures IsLowerCase(Trim(s))
  {
    var t := TrimStart(s);
    TrimStartFacts(s);
    TrimEndFacts(t);
    assert forall i :: 0 <= i < |t| ==> t[i] == s[|s| - |t| + i];
    var r := TrimEnd(t);
    assert forall i :: 0 <= i < |r| ==> r[i] == t[i];
  }

  function DigitChar(d: nat): (c: char)
    requires d < 10
    ensures IsDigit(c) && c as int - '0' as int == d
  {
    ('0' as int + d) as char
  }

  /** `Integer.toString` for a non-negative value: its decimal digits, no leading zeros. */
  function NatToString(n: nat): (r: string)
    ensures |r| >= 1
    ensures forall i :: 0 <= i < |r| ==> IsDigit(r[i])
    ensures n > 0 ==> r[0] != '0'
    decreases n
  {
    if n < 10 then [DigitChar(n)] else NatToString(n / 10) + [DigitChar(n % 10)]
  }

  /** The value of a string of decimal digits. */
  function DigitsValue(s: string): nat
    requires forall i :: 0 <= i < |s| ==> IsDigit(s[i])
  {
    if s == [] then 0
    else
      var last := s[|s| - 1];
      assert IsDigit(last);
      10 * DigitsValue(s[..|s| - 1]) + (last as int - '0' as int)
  }

  /** Reading back the decimal form of `n` gives `n`. */
  lemma {:induction false} NatToStringRoundTrip(n: nat)
    ensures DigitsValue(NatToString(n)) == n
    decreases n
  {
    if n >= 10 {
      var r := NatToString(n);
      assert r[..|r| - 1] == NatToString(n / 10);
      NatToStringRoundTrip(n / 10);
    }
  }
}
