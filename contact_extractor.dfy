/**
 * `ContactExtractor` of the example crawler. The regular expressions run
 * over the raw HTML are inputs: the `<title>` group, the phone and e-mail
 * matches in order, and the first Russian and English address matches.
 */
module ExampleContactExtractor {
  import opened Wrappers
  import opened JavaStrings
  import opened Seqs
  import opened Urls
  import opened EmailPattern
  import opened TitleSuffix
  import opened Entities

  /** What the extractor's patterns find in one page. */
  datatype PageMatches = PageMatches(
    titleGroup: Option<string>,
    phoneMatches: seq<string>,
    emailMatches: seq<string>,
    russianAddress: Option<string>,
    englishAddress: Option<string>)

  /** The characters `[\s\-\(\)]` that phone normalisation deletes. */
  predicate IsPhoneFiller(c: char)
  {
    IsRegexSpace(c) || c == '-' || c == '(' || c == ')'
  }

  function RemoveFillers(s: string): string
  {
    if s == [] then []
    else (if IsPhoneFiller(s[0]) then [] else [s[0]]) + RemoveFillers(s[1..])
  }

  /** `normalizePhone`: delete the fillers, then turn an 11-character `8...` into `+7...`. */
  function NormalizePhone(phone: string): string
  {
    var n := RemoveFillers(phone);
    if StartsWith(n, "8") && |n| == 11 then "+7" + n[1..] else n
  }

  /** `isValidPhone`: at least 10 characters, and all of `(\+7|8)\d{10}`. */
  predicate IsValidPhone(phone: string)
  {
    |phone| >= 10 &&
    ((|phone| == 12 && phone[..2] == "+7" && AllDigits(phone[2..])) ||
     (|phone| == 11 && phone[0] == '8' && AllDigits(phone[1..])))
  }

  lemma {:induction false} RemoveFillersClean(s: string)
    ensures var r := RemoveFillers(s);
      |r| <= |s| && forall i :: 0 <= i < |r| ==> !IsPhoneFiller(r[i])
  {
    if s != [] {
      RemoveFillersClean(s[1..]);
    }
  }

  lemma {:induction false} RemoveFillersOfClean(s: string)
    requires forall i :: 0 <= i < |s| ==> !IsPhoneFiller(s[i])
    ensures RemoveFillers(s) == s
  {
    if s != [] {
      RemoveFillersOfClean(s[1..]);
      assert s == [s[0]] + s[1..];
    }
  }

  /** Normalising a normalised number changes nothing. */
  lemma NormalizePhoneIdempotent(phone: string)
    ensures NormalizePhone(NormalizePhone(phone)) == NormalizePhone(phone)
  {
    var n := RemoveFillers(phone);
    RemoveFillersClean(phone);
    var r := NormalizePhone(phone);
    assert forall i :: 0 <= i < |r| ==> !IsPhoneFiller(r[i]) by {
      if StartsWith(n, "8") && |n| == 11 {
        forall i | 0 <= i < |r| ensures !IsPhoneFiller(r[i]) {
          if i >= 2 {
            assert r[i] == n[i - 1];
          }
        }
      }
    }
    RemoveFillersOfClean(r);
    if StartsWith(n, "8") && |n| == 11 {
      assert r[0] == '+';
    }
  }

  /** Every phone that survives normalisation and validation has the form `+7` and ten digits. */
  lemma NormalizedValidPhoneForm(phone: string)
    requires IsValidPhone(NormalizePhone(phone))
    ensures var p := NormalizePhone(phone);
      |p| == 12 && p[..2] == "+7" && AllDigits(p[2..])
  {
    var n := RemoveFillers(phone);
    assert |n| >= 1 ==> n[..1] == [n[0]];
  }

  lemma {:induction false} RemoveFillersAppend(a: string, b: string)
    ensures RemoveFillers(a + b) == RemoveFillers(a) + RemoveFillers(b)
  {
    if a == [] {
      assert a + b == b;
    } else {
      assert (a + b)[1..] == a[1..] + b;
      RemoveFillersAppend(a[1..], b);
    }
  }

  lemma NormalizePhoneExample()
    ensures NormalizePhone("8 (999) 123-45-67") == "+79991234567"
    ensures IsValidPhone("+79991234567")
  {
    RemoveFillersExample();
    PlusSevenExample();
    ValidPhoneExample();
  }

  lemma PlusSevenExample()
    ensures var n := "89991234567"; StartsWith(n, "8") && |n| == 11 && "+7" + n[1..] == "+79991234567"
  {
    var n := "89991234567";
    assert n[..1] == "8";
    assert n[1..] == "9991234567";
  }

  lemma RemoveFillersExample()
    ensures RemoveFillers("8 (999) 123-45-67") == "89991234567"
  {
    SplitExample();
    RemoveFillersAppend("8 (999) " + "123-", "45-67");
    RemoveFillersAppend("8 (999) ", "123-");
    RemoveFillersPieceA();
    RemoveFillersPieceB();
    RemoveFillersPieceC();
    JoinExample();
  }

  lemma SplitExample()
    ensures "8 (999) " + "123-" + "45-67" == "8 (999) 123-45-67"
  {
  }

  lemma JoinExample()
    ensures "8999" + "123" + "4567" == "89991234567"
  {
  }

  lemma RemoveFillersPieceA()
    ensures RemoveFillers("8 (999) ") == "8999"
  {
  }

  lemma RemoveFillersPieceB()
    ensures RemoveFillers("123-") == "123"
  {
  }

  lemma RemoveFillersPieceC()
    ensures RemoveFillers("45-67") == "4567"
  {
  }

  lemma ValidPhoneExample()
    ensures IsValidPhone("+79991234567")
  {
    var p := "+79991234567";
    assert p[..2] == "+7";
    assert p[2..] == "9991234567";
    assert AllDigits("9991234567");
  }

  /** The number one phone match contributes, if any. */
  function PhoneOf(m: string): Option<string>
  {
    var p := NormalizePhone(m);
    if IsValidPhone(p) then Some(p) else None
  }

  /** `matcher.group().toLowerCase().trim()`. */
  function CleanEmail(m: string): string
  {
    Trim(ToLowerCase(m))
  }

  /** `isValidEmail`. */
  predicate IsValidEmail(email: string)
  {
    |email| >= 5 &&
    MatchesEmailPattern(email) &&
    !StartsWith(email, ".") &&
    !Contains(email, "..") &&
    Span(email, "@") > 0 && Span(email, "@") < |email| - 1
  }

  /**
   * The `indexOf("@")` bounds add nothing to the pattern: a valid address
   * is a pattern match of five or more characters that does not start
   * with `.` and has no `..`.
   */
  lemma IsValidEmailIff(email: string)
    ensures IsValidEmail(email) <==>
      |email| >= 5 && InEmailLanguage(email) && email[0] != '.' && !Contains(email, "..")
  {
    MatchesEmailPatternIff(email);
    if InEmailLanguage(email) {
      var at: nat, dot: nat :| EmailSplit(email, at, dot);
      assert NoneOf(email[..at], "@") by {
        forall i | 0 <= i < at ensures email[..at][i] !in "@" {
          assert IsLocalChar(email[..at][i]);
        }
      }
      SpanAt(email, "@", at);
      assert StartsWith(email, ".") <==> email[0] == '.' by {
        assert email[..1] == [email[0]];
      }
    }
  }

  function EmailOf(m: string): Option<string>
  {
    var e := CleanEmail(m);
    if IsValidEmail(e) then Some(e) else None
  }

  /** `extractPhones`: the valid normalised numbers, each once, in page order. */
  method ExtractPhones(phoneMatches: seq<string>) returns (phones: seq<string>)
    ensures phones == Distinct(FilterMap(phoneMatches, PhoneOf))
  {
    phones := [];
    var i := 0;
    while i < |phoneMatches|
      invariant 0 <= i <= |phoneMatches|
      invariant phones == Distinct(FilterMap(phoneMatches[..i], PhoneOf))
    {
      assert phoneMatches[..i + 1] == phoneMatches[..i] + [phoneMatches[i]];
      FilterMapSnoc(phoneMatches[..i], phoneMatches[i], PhoneOf);
      var phone := PhoneOf(phoneMatches[i]);
      if phone.Some? {
        DistinctSnoc(FilterMap(phoneMatches[..i], PhoneOf), phone.value);
        if phone.value !in phones {
          phones := phones + [phone.value];
        }
      } else {
        assert FilterMap(phoneMatches[..i], PhoneOf) + [] == FilterMap(phoneMatches[..i], PhoneOf);
      }
      i := i + 1;
    }
    assert phoneMatches[..i] == phoneMatches;
  }

  /** `extractEmails`: the valid cleaned addresses, each once, in page order. */
  method ExtractEmails(emailMatches: seq<string>) returns (emails: seq<string>)
    ensures emails == Distinct(FilterMap(emailMatches, EmailOf))
  {
    emails := [];
    var i := 0;
    while i < |emailMatches|
      invariant 0 <= i <= |emailMatches|
      invariant emails == Distinct(FilterMap(emailMatches[..i], EmailOf))
    {
      assert emailMatches[..i + 1] == emailMatches[..i] + [emailMatches[i]];
      FilterMapSnoc(emailMatches[..i], emailMatches[i], EmailOf);
      var email := EmailOf(emailMatches[i]);
      if email.Some? {
        DistinctSnoc(FilterMap(emailMatches[..i], EmailOf), email.value);
        if email.value !in emails {
          emails := emails + [email.value];
        }
      } else {
        assert FilterMap(emailMatches[..i], EmailOf) + [] == FilterMap(emailMatches[..i], EmailOf);
      }
      i := i + 1;
    }
    assert emailMatches[..i] == emailMatches;
  }

  /** Each extracted phone is `+7` and ten digits, and occurs once. */
  lemma ExtractedPhonesForm(phoneMatches: seq<string>, p: string)
    requires p in Distinct(FilterMap(phoneMatches, PhoneOf))
    ensures |p| == 12 && p[..2] == "+7" && AllDigits(p[2..])
  {
    DistinctMembership(FilterMap(phoneMatches, PhoneOf), p);
    FilterMapMembership(phoneMatches, PhoneOf, p);
    var i :| 0 <= i < |phoneMatches| && PhoneOf(phoneMatches[i]) == Some(p);
    NormalizedValidPhoneForm(phoneMatches[i]);
  }

  /** Each extracted address is lower-case and a valid address. */
  lemma ExtractedEmailsForm(emailMatches: seq<string>, e: string)
    requires e in Distinct(FilterMap(emailMatches, EmailOf))
    ensures IsLowerCase(e) && IsValidEmail(e)
  {
    DistinctMembership(FilterMap(emailMatches, EmailOf), e);
    FilterMapMembership(emailMatches, EmailOf, e);
    var i :| 0 <= i < |emailMatches| && EmailOf(emailMatches[i]) == Some(e);
    LowerCaseIsLowerCase(emailMatches[i]);
    TrimOfLowerIsLower(ToLowerCase(emailMatches[i]));
  }

  /** `extractCompanyName`: the trimmed title group without its `-`/`|` suffix; null when empty. */
  function ExtractCompanyName(titleGroup: Option<string>): Option<string>
  {
    match titleGroup
    case None => None
    case Some(g) =>
      var name := Trim(StripSuffix(Trim(g), "-|"));
      if |name| > 0 then Some(name) else None
  }

  /**
   * For a one-line title the name is the trimmed text before the first `-`
   * or `|`, or no name when that text is blank.
   */
  lemma CompanyNameSingleLine(g: string, k: nat)
    requires SingleLine(Trim(g))
    requires k < |Trim(g)| && Trim(g)[k] in "-|" && forall j :: 0 <= j < k ==> Trim(g)[j] !in "-|"
    ensures var before := Trim(Trim(g)[..k]);
      ExtractCompanyName(Some(g)) == if before == [] then None else Some(before)
  {
    StripSuffixSingleLine(Trim(g), "-|", k);
  }

  /** `extractAddress`: the Russian match wins over the English one; both are trimmed. */
  function ExtractAddress(russianAddress: Option<string>, englishAddress: Option<string>): Option<string>
  {
    if russianAddress.Some? then Some(Trim(russianAddress.value))
    else if englishAddress.Some? then Some(Trim(englishAddress.value))
    else None
  }

  /**
   * An address is found exactly when either pattern matched; the Russian
   * match wins, and the address never starts or ends with a character
   * that `trim` removes.
   */
  lemma ExtractAddressFacts(russianAddress: Option<string>, englishAddress: Option<string>)
    ensures var a := ExtractAddress(russianAddress, englishAddress);
      (a.None? <==> russianAddress.None? && englishAddress.None?) &&
      (russianAddress.Some? ==> a == Some(Trim(russianAddress.value))) &&
      (a.Some? && a.value != [] ==> !IsTrimmable(a.value[0]) && !IsTrimmable(a.value[|a.value| - 1]))
  {
    if russianAddress.Some? {
      TrimFacts(russianAddress.value);
    } else if englishAddress.Some? {
      TrimFacts(englishAddress.value);
    }
  }

  /** `extractWebsite`: `protocol://host`, or the URL itself when `new URL` rejects it. */
  function ExtractWebsite(url: Option<string>, newUrl: string -> ParsedUrl): Option<string>
  {
    if url.None? || IsBlank(url.value) then None
    else
      match newUrl(url.value)
      case Some(u) => Some(u.protocol + "://" + u.host)
      case None => url
  }

  /** `generateDefaultCompanyName`. */
  function GenerateDefaultCompanyName(sourceUrl: string, newUrl: string -> ParsedUrl): string
  {
    match newUrl(sourceUrl)
    case Some(u) => "Company from " + StripWww(u.host)
    case None => "Unknown Company from " + sourceUrl
  }

  /**
   * `extractContacts(htmlContent, sourceUrl)`, with `page` the patterns'
   * matches in `htmlContent` and `now` the clock reading the new
   * `Company` takes.
   */
  function Contacts(htmlContent: Option<string>, sourceUrl: Option<string>, page: PageMatches,
                    newUrl: string -> ParsedUrl, now: int): Option<Company>
  {
    if htmlContent.None? || IsBlank(htmlContent.value) then None
    else if sourceUrl.None? || IsBlank(sourceUrl.value) then None
    else
      var url := sourceUrl.value;
      var extracted := ExtractCompanyName(page.titleGroup);
      var name := if extracted.None? || IsBlank(extracted.value)
                  then GenerateDefaultCompanyName(url, newUrl) else extracted.value;
      var site := ExtractWebsite(sourceUrl, newUrl);
      var website := if site.None? || IsBlank(site.value) then url else site.value;
      Some(Company(Some(name), Some(website),
                   Distinct(FilterMap(page.phoneMatches, PhoneOf)),
                   Distinct(FilterMap(page.emailMatches, EmailOf)),
                   ExtractAddress(page.russianAddress, page.englishAddress),
                   sourceUrl, Some(now)))
  }

  method ExtractContacts(htmlContent: Option<string>, sourceUrl: Option<string>, page: PageMatches,
                         newUrl: string -> ParsedUrl, now: int) returns (company: Option<Company>)
    ensures company == Contacts(htmlContent, sourceUrl, page, newUrl, now)
  {
    if htmlContent.None? || IsBlank(htmlContent.value) {
      return None;
    }
    if sourceUrl.None? || IsBlank(sourceUrl.value) {
      return None;
    }
    var companyName := ExtractCompanyName(page.titleGroup);
    var phones := ExtractPhones(page.phoneMatches);
    var emails := ExtractEmails(page.emailMatches);
    var address := ExtractAddress(page.russianAddress, page.englishAddress);
    var name := if companyName.None? || IsBlank(companyName.value)
                then GenerateDefaultCompanyName(sourceUrl.value, newUrl) else companyName.value;
    var site := ExtractWebsite(sourceUrl, newUrl);
    var website := if site.None? || IsBlank(site.value) then sourceUrl.value else site.value;
    return Some(Company(Some(name), Some(website), phones, emails, address, sourceUrl, Some(now)));
  }

  /**
   * There is no company exactly for missing or blank HTML or source URL;
   * otherwise the company always has a non-blank name, keeps the source URL
   * and has duplicate-free phone and e-mail lists.
   */
  lemma ContactsShape(htmlContent: Option<string>, sourceUrl: Option<string>, page: PageMatches,
                      newUrl: string -> ParsedUrl, now: int)
    ensures var c := Contacts(htmlContent, sourceUrl, page, newUrl, now);
      (c.None? <==> htmlContent.None? || IsBlank(htmlContent.value) || sourceUrl.None? || IsBlank(sourceUrl.value)) &&
      (c.Some? ==> c.value.name.Some? && !IsBlank(c.value.name.value) &&
                   c.value.sourceUrl == sourceUrl && c.value.website.Some? &&
                   NoDuplicates(c.value.phones) && NoDuplicates(c.value.emails))
  {
    var c := Contacts(htmlContent, sourceUrl, page, newUrl, now);
    if c.Some? {
      var url := sourceUrl.value;
      var extracted := ExtractCompanyName(page.titleGroup);
      if extracted.None? || IsBlank(extracted.value) {
        var d := GenerateDefaultCompanyName(url, newUrl);
        assert d[0] == 'C' || d[0] == 'U';
        assert !IsTrimmable(d[0]);
      }
    }
  }
}
