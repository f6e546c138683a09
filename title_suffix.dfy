/**
 * `title.replaceAll("\\s*[<seps>]\\s*.*$", "")` as `java.util.regex` runs it,
 * for a class `[<seps>]` of separator characters. Outside MULTILINE mode
 * `.` matches anything but a line terminator and `$` matches at the end of
 * the input or just before a line terminator that ends it, so a separator
 * only starts a match when nothing but one final line break follows the
 * first line break after it.
 */
module TitleSuffix {
  import opened Wrappers
  import opened JavaStrings

  /** Java's `\s`: space, tab, line feed, vertical tab, form feed, carriage return. */
  predicate IsRegexSpace(c: char)
  {
    c == ' ' || c == '\t' || c == '\n' || c == '\U{000B}' || c == '\U{000C}' || c == '\r'
  }

  /** The characters `.` does not match. */
  predicate IsLineTerminator(c: char)
  {
    c == '\n' || c == '\r' || c == '\U{0085}' || c == '\U{2028}' || c == '\U{2029}'
  }

  predicate SingleLine(s: string)
  {
    forall i :: 0 <= i < |s| ==> !IsLineTerminator(s[i])
  }

  /** How many characters a greedy `\s*` takes at the start of `s`. */
  function SpaceRun(s: string): (n: nat)
    ensures n <= |s|
    ensures forall i :: 0 <= i < n ==> IsRegexSpace(s[i])
    ensures n < |s| ==> !IsRegexSpace(s[n])
  {
    if s == [] || !IsRegexSpace(s[0]) then 0 else 1 + SpaceRun(s[1..])
  }

  /** How many characters a greedy `.*` takes at the start of `s`. */
  function DotRun(s: string): (n: nat)
    ensures n <= |s|
    ensures forall i :: 0 <= i < n ==> !IsLineTerminator(s[i])
    ensures n < |s| ==> IsLineTerminator(s[n])
  {
    if s == [] || IsLineTerminator(s[0]) then 0 else 1 + DotRun(s[1..])
  }

  /**
   * Where `\s*.*$` ends when it is matched from the start of `t`, if it can
   * be: backtracking never finds a shorter match than the greedy one, so
   * the only candidates are the end of the input and the start of a final
   * `"\r\n"` or final single line terminator.
   */
  function TailEnd(t: string): (e: Option<nat>)
    ensures e.Some? ==> e.value <= |t|
  {
    var w := SpaceRun(t);
    var r := w + DotRun(t[w..]);
    if r == |t| then Some(r)
    else if r == |t| - 2 && t[r] == '\r' && t[r + 1] == '\n' then Some(r)
    else if r == |t| - 1 then Some(r)
    else None
  }

  /** A separator at `k` from which the rest of the pattern matches. */
  predicate GoodSeparator(s: string, seps: string, k: nat)
    requires k < |s|
  {
    s[k] in seps && TailEnd(s[k + 1..]).Some?
  }

  /** The first good separator at or after `from`. */
  function FirstGoodSeparator(s: string, seps: string, from: nat): (k: Option<nat>)
    ensures k.Some? ==> from <= k.value < |s| && GoodSeparator(s, seps, k.value)
    ensures forall j :: from <= j < |s| && (k.None? || j < k.value) ==> !GoodSeparator(s, seps, j)
    decreases |s| - from
  {
    if from >= |s| then None
    else if GoodSeparator(s, seps, from) then Some(from)
    else FirstGoodSeparator(s, seps, from + 1)
  }

  /** The start of the run of `\s` characters that ends at `k`. */
  function RunStart(s: string, k: nat): (p: nat)
    requires k <= |s|
    ensures p <= k
    ensures forall i :: p <= i < k ==> IsRegexSpace(s[i])
    ensures p > 0 ==> !IsRegexSpace(s[p - 1])
  {
    if k > 0 && IsRegexSpace(s[k - 1]) then RunStart(s, k - 1) else k
  }

  /**
   * The result of the `replaceAll`. The leftmost match starts where the
   * whitespace before the first good separator starts; nothing after a
   * match can start another one, so there is at most one replacement.
   */
  function StripSuffix(s: string, seps: string): (r: string)
    ensures |r| <= |s|
  {
    match FirstGoodSeparator(s, seps, 0)
    case None => s
    case Some(k) =>
      var e := k + 1 + TailEnd(s[k + 1..]).value;
      s[..RunStart(s, k)] + s[e..]
  }

  lemma {:induction false} DotRunSingleLine(t: string)
    requires SingleLine(t)
    ensures DotRun(t) == |t|
  {
    if t != [] {
      DotRunSingleLine(t[1..]);
    }
  }

  /** On a single line every separator is good, and the match runs to the end. */
  lemma TailEndSingleLine(t: string)
    requires SingleLine(t)
    ensures TailEnd(t) == Some(|t|)
  {
    var w := SpaceRun(t);
    DotRunSingleLine(t[w..]);
  }

  /** Without a separator the title is left as it is. */
  lemma StripSuffixNoSeparator(s: string, seps: string)
    requires forall j :: 0 <= j < |s| ==> s[j] !in seps
    ensures StripSuffix(s, seps) == s
  {
  }

  lemma FirstSeparatorIsGood(s: string, seps: string, k: nat)
    requires SingleLine(s)
    requires k < |s| && s[k] in seps && forall j :: 0 <= j < k ==> s[j] !in seps
    ensures FirstGoodSeparator(s, seps, 0) == Some(k)
    ensures TailEnd(s[k + 1..]) == Some(|s| - k - 1)
  {
    var t := s[k + 1..];
    assert SingleLine(t) by {
      forall i | 0 <= i < |t| ensures !IsLineTerminator(t[i]) {
        assert t[i] == s[k + 1 + i];
      }
    }
    TailEndSingleLine(t);
    assert GoodSeparator(s, seps, k);
    var f := FirstGoodSeparator(s, seps, 0);
    assert f.Some? ==> f.value >= k;
  }

  /**
   * On a single line the replacement removes everything from the first
   * separator on, together with the whitespace before it; after `trim` the
   * result is the trimmed text before the first separator.
   */
  lemma StripSuffixSingleLine(s: string, seps: string, k: nat)
    requires SingleLine(s)
    requires k < |s| && s[k] in seps && forall j :: 0 <= j < k ==> s[j] !in seps
    ensures StripSuffix(s, seps) == s[..RunStart(s, k)]
    ensures Trim(StripSuffix(s, seps)) == Trim(s[..k])
  {
    FirstSeparatorIsGood(s, seps, k);
    var p := RunStart(s, k);
    assert s[..p] + s[|s|..] == s[..p];
    TrimDropsSpaceRun(s, k);
  }

  lemma TrimDropsSpaceRun(s: string, k: nat)
    requires k <= |s|
    ensures Trim(s[..RunStart(s, k)]) == Trim(s[..k])
  {
    var p := RunStart(s, k);
    var w := s[p..k];
    assert s[..k] == s[..p] + w;
    assert forall i :: 0 <= i < |w| ==> IsRegexSpace(w[i]) by {
      assert forall i :: 0 <= i < |w| ==> w[i] == s[p + i];
    }
    TrimDropsSpaces(s[..p], w);
  }

  lemma TrimDropsSpaces(a: string, w: string)
    requires forall i :: 0 <= i < |w| ==> IsRegexSpace(w[i])
    ensures Trim(a + w) == Trim(a)
  {
    TrimDropsTrimmableSuffix(a, w);
  }

  lemma DotRunExample()
    ensures DotRun("Home\nWelcome") == 4
  {
    assert DotRun("\nWelcome") == 0;
    assert "e\nWelcome"[1..] == "\nWelcome";
    assert DotRun("e\nWelcome") == 1;
    assert "me\nWelcome"[1..] == "e\nWelcome";
    assert DotRun("me\nWelcome") == 2;
    assert "ome\nWelcome"[1..] == "me\nWelcome";
    assert DotRun("ome\nWelcome") == 3;
    assert "Home\nWelcome"[1..] == "ome\nWelcome";
  }

  lemma OnlySeparatorOfExample()
    ensures forall j :: 0 <= j < |"Acme - Home\nWelcome"| && j != 5 ==> "Acme - Home\nWelcome"[j] !in "-|"
  {
  }

  /** Past a line break the separator is not removed: the match would not reach `$`. */
  lemma StripSuffixStopsAtLineBreak()
    ensures StripSuffix("Acme - Home\nWelcome", "-|") == "Acme - Home\nWelcome"
  {
    var s := "Acme - Home\nWelcome";
    var t := s[6..];
    assert t == " Home\nWelcome";
    assert SpaceRun(t) == 1;
    assert t[1..] == "Home\nWelcome";
    DotRunExample();
    assert !GoodSeparator(s, "-|", 5);
    OnlySeparatorOfExample();
    assert FirstGoodSeparator(s, "-|", 0) == None;
  }
}
