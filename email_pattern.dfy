/**
 * Full matches of the e-mail pattern both crawlers share,
 * `[a-zA-Z0-9._%+-]+@[a-zA-Z0-9.-]+\.[a-zA-Z]{2,}`.
 */
module EmailPattern {
  import opened Wrappers
  import opened JavaStrings

  predicate IsLocalChar(c: char)
  {
    IsAsciiLetter(c) || IsDigit(c) || c == '.' || c == '_' || c == '%' || c == '+' || c == '-'
  }

  predicate IsDomainChar(c: char)
  {
    IsAsciiLetter(c) || IsDigit(c) || c == '.' || c == '-'
  }

  predicate AllLocal(s: string)
  {
    forall i :: 0 <= i < |s| ==> IsLocalChar(s[i])
  }

  predicate AllDomain(s: string)
  {
    forall i :: 0 <= i < |s| ==> IsDomainChar(s[i])
  }

  predicate AllLetters(s: string)
  {
    forall i :: 0 <= i < |s| ==> IsAsciiLetter(s[i])
  }

  /**
   * `s` splits as the pattern reads it: a non-empty local part, `@` at
   * `at`, a non-empty domain, `.` at `dot` and at least two letters.
   */
  predicate EmailSplit(s: string, at: nat, dot: nat)
  {
    0 < at && at + 1 < dot && dot + 3 <= |s| &&
    s[at] == '@' && s[dot] == '.' &&
    AllLocal(s[..at]) && AllDomain(s[at + 1..dot]) && AllLetters(s[dot + 1..])
  }

  /** The language of the pattern, as a reference definition. */
  ghost predicate InEmailLanguage(s: string)
  {
    exists at: nat, dot: nat :: EmailSplit(s, at, dot)
  }

  /** The index of the last `c` in `s`, if any. */
  function LastIndexOf(s: string, c: char): (i: Option<nat>)
    ensures i.Some? ==> i.value < |s| && s[i.value] == c && forall j :: i.value < j < |s| ==> s[j] != c
    ensures i.None? ==> forall j :: 0 <= j < |s| ==> s[j] != c
  {
    if s == [] then None
    else if s[|s| - 1] == c then Some(|s| - 1)
    else LastIndexOf(s[..|s| - 1], c)
  }

  /**
   * `EMAIL_PATTERN.matcher(s).matches()`: the local part runs to the first
   * `@`, and the top-level domain starts after the last `.`.
   */
  predicate MatchesEmailPattern(s: string)
  {
    var at := Span(s, "@");
    match LastIndexOf(s, '.')
    case None => false
    case Some(dot) => EmailSplit(s, at, dot)
  }

  lemma SpanAt(s: string, stops: string, k: nat)
    requires k < |s| && NoneOf(s[..k], stops) && s[k] in stops
    ensures Span(s, stops) == k
  {
    assert s == s[..k] + s[k..];
    SpanOfFree(s[..k], s[k..], stops);
  }

  /** The executable check accepts exactly the strings of the pattern's language. */
  lemma MatchesEmailPatternIff(s: string)
    ensures MatchesEmailPattern(s) <==> InEmailLanguage(s)
  {
    if InEmailLanguage(s) {
      var at: nat, dot: nat :| EmailSplit(s, at, dot);
      assert NoneOf(s[..at], "@") by {
        forall i | 0 <= i < at ensures s[..at][i] !in "@" {
          assert IsLocalChar(s[..at][i]);
        }
      }
      SpanAt(s, "@", at);
      assert forall j :: dot < j < |s| ==> s[j] != '.' by {
        forall j | dot < j < |s| ensures s[j] != '.' {
          assert s[j] == s[dot + 1..][j - dot - 1];
        }
      }
      var last := LastIndexOf(s, '.');
      assert last.Some? && last.value == dot;
    }
  }
}
