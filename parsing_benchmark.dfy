/**
 * The e-mail extraction variants `ParsingBenchmark` compares. The pattern's
 * matches in the benchmark page are the input; every variant lower-cases
 * them and keeps each address once, in the order of first occurrence.
 */
module ParsingBenchmark {
  import opened JavaStrings
  import opened Seqs

  /** `matcher.group().toLowerCase()` for every match, in order. */
  function LowerAll(matches: seq<string>): (r: seq<string>)
    ensures |r| == |matches|
  {
    if matches == [] then []
    else LowerAll(matches[..|matches| - 1]) + [ToLowerCase(matches[|matches| - 1])]
  }

  lemma {:induction false} LowerAllAt(matches: seq<string>, i: nat)
    requires i < |matches|
    ensures LowerAll(matches)[i] == ToLowerCase(matches[i])
  {
    if i < |matches| - 1 {
      LowerAllAt(matches[..|matches| - 1], i);
    }
  }

  /** `extractEmailsWithForLoop`: add a lower-cased match unless the list already holds it. */
  method ExtractEmailsWithForLoop(matches: seq<string>) returns (emails: seq<string>)
    ensures emails == Distinct(LowerAll(matches))
  {
    emails := [];
    var i := 0;
    while i < |matches|
      invariant 0 <= i <= |matches|
      invariant emails == Distinct(LowerAll(matches[..i]))
    {
      assert matches[..i + 1][..i] == matches[..i];
      var email := ToLowerCase(matches[i]);
      DistinctSnoc(LowerAll(matches[..i]), email);
      if email !in emails {
        emails := emails + [email];
      }
      i := i + 1;
    }
    assert matches[..i] == matches;
  }

  /**
   * `extractEmailsWithStream` (and the parallel variant: `distinct` on an
   * ordered stream keeps the first of equal elements): collect the
   * lower-cased matches, then drop repeats.
   */
  method ExtractEmailsWithStream(matches: seq<string>) returns (emails: seq<string>)
    ensures emails == Distinct(LowerAll(matches))
  {
    var lowered := [];
    var i := 0;
    while i < |matches|
      invariant 0 <= i <= |matches|
      invariant lowered == LowerAll(matches[..i])
    {
      assert matches[..i + 1][..i] == matches[..i];
      lowered := lowered + [ToLowerCase(matches[i])];
      i := i + 1;
    }
    assert matches[..i] == matches;
    emails := Distinct(lowered);
  }

  /**
   * What every variant returns: each address once, all lower-case, exactly
   * the lower-cased matches, in the order in which they first occur.
   */
  lemma ExtractedEmails(matches: seq<string>, e: string)
    ensures var r := Distinct(LowerAll(matches));
      NoDuplicates(r) &&
      (forall k :: 0 <= k < |r| ==> IsLowerCase(r[k])) &&
      (e in r <==> exists i :: 0 <= i < |matches| && ToLowerCase(matches[i]) == e)
  {
    var l := LowerAll(matches);
    var r := Distinct(l);
    forall k | 0 <= k < |r| ensures IsLowerCase(r[k]) {
      DistinctMembership(l, r[k]);
      var i :| 0 <= i < |l| && l[i] == r[k];
      LowerAllAt(matches, i);
      LowerCaseIsLowerCase(matches[i]);
    }
    DistinctMembership(l, e);
    if e in l {
      var i :| 0 <= i < |l| && l[i] == e;
      LowerAllAt(matches, i);
    }
    if exists i :: 0 <= i < |matches| && ToLowerCase(matches[i]) == e {
      var i :| 0 <= i < |matches| && ToLowerCase(matches[i]) == e;
      LowerAllAt(matches, i);
    }
  }
}
