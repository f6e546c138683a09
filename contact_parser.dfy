/**
 * `ContactParser` of the Final crawler. Jsoup's parse of the page and the
 * two `find` loops of the e-mail and phone patterns over `doc.text()` are
 * inputs (a `Document`); what the parser does with them is modelled.
 * Every Java `HashSet` is a duplicate-free sequence in insertion order.
 */
module FinalContactParser {
  import opened Wrappers
  import opened JavaStrings
  import opened Seqs
  import opened EmailPattern
  import opened TitleSuffix

  /** What Jsoup and the two patterns give for one page. */
  datatype Document = Document(
    textEmailMatches: seq<string>,  // EMAIL_PATTERN matches in doc.text(), in order
    mailtoHrefs: seq<string>,       // href of each element a[href^=mailto:]
    textPhoneMatches: seq<string>,  // PHONE_PATTERN matches in doc.text(), in order
    telHrefs: seq<string>,          // href of each element a[href^=tel:]
    addressTexts: seq<string>,      // text() of each address-like element
    title: string,                  // doc.title()
    metaDescriptions: seq<string>)  // content of each meta[name=description]

  /** The observable state of a `ContactData`. */
  datatype Contacts = Contacts(
    emails: seq<string>,
    phones: seq<string>,
    addresses: seq<string>,
    organizationName: Option<string>,
    description: Option<string>)

  const NoContacts := Contacts([], [], [], None, None)

  // ---------------------------------------------------------------- phones

  predicate IsPhoneChar(c: char)
  {
    IsDigit(c) || c == '+'
  }

  predicate AllPhoneChars(s: string)
  {
    forall i :: 0 <= i < |s| ==> IsPhoneChar(s[i])
  }

  /** `replaceAll("[^0-9+]", "")`. */
  function KeepPhoneChars(s: string): string
  {
    if s == [] then []
    else (if IsPhoneChar(s[0]) then [s[0]] else []) + KeepPhoneChars(s[1..])
  }

  /** `normalizePhone`. */
  function NormalizePhone(phone: string): string
  {
    Trim(KeepPhoneChars(phone))
  }

  lemma {:induction false} KeepPhoneCharsFacts(s: string)
    ensures var r := KeepPhoneChars(s); |r| <= |s| && AllPhoneChars(r)
  {
    if s != [] {
      KeepPhoneCharsFacts(s[1..]);
    }
  }

  lemma {:induction false} KeepPhoneCharsOfClean(s: string)
    requires AllPhoneChars(s)
    ensures KeepPhoneChars(s) == s
  {
    if s != [] {
      KeepPhoneCharsOfClean(s[1..]);
      assert s == [s[0]] + s[1..];
    }
  }

  lemma {:induction false} KeepPhoneCharsAppend(a: string, b: string)
    ensures KeepPhoneChars(a + b) == KeepPhoneChars(a) + KeepPhoneChars(b)
  {
    if a == [] {
      assert a + b == b;
    } else {
      var head := if IsPhoneChar(a[0]) then [a[0]] else [];
      assert (a + b)[0] == a[0] && (a + b)[1..] == a[1..] + b;
      assert KeepPhoneChars(a + b) == head + KeepPhoneChars(a[1..] + b);
      assert KeepPhoneChars(a) == head + KeepPhoneChars(a[1..]);
      KeepPhoneCharsAppend(a[1..], b);
    }
  }

  /**
   * The `trim` in `normalizePhone` never removes anything: the result is
   * exactly the digits and `+` signs of the input, in order.
   */
  lemma NormalizePhoneKeepsPhoneChars(phone: string)
    ensures NormalizePhone(phone) == KeepPhoneChars(phone)
    ensures AllPhoneChars(NormalizePhone(phone)) && |NormalizePhone(phone)| <= |phone|
  {
    var k := KeepPhoneChars(phone);
    KeepPhoneCharsFacts(phone);
    assert TrimStart(k) == k;
    assert TrimEnd(k) == k;
  }

  /** Normalising a normalised number changes nothing. */
  lemma NormalizePhoneIdempotent(phone: string)
    ensures NormalizePhone(NormalizePhone(phone)) == NormalizePhone(phone)
  {
    var n := NormalizePhone(phone);
    NormalizePhoneKeepsPhoneChars(phone);
    NormalizePhoneKeepsPhoneChars(n);
    KeepPhoneCharsOfClean(n);
  }

  /** Normalisation works piece by piece: it distributes over concatenation. */
  lemma NormalizePhoneAppend(a: string, b: string)
    ensures NormalizePhone(a + b) == NormalizePhone(a) + NormalizePhone(b)
  {
    NormalizePhoneKeepsPhoneChars(a);
    NormalizePhoneKeepsPhoneChars(b);
    NormalizePhoneKeepsPhoneChars(a + b);
    KeepPhoneCharsAppend(a, b);
  }

  /** A phone found in the page text: kept when 7 to 20 characters long. */
  function TextPhone(m: string): Option<string>
  {
    var p := NormalizePhone(m);
    if 7 <= |p| <= 20 then Some(p) else None
  }

  /** The number of a `tel:` link: kept when at least 7 characters long. */
  function TelPhone(part: string): Option<string>
  {
    var p := NormalizePhone(part);
    if |p| >= 7 then Some(p) else None
  }

  // ---------------------------------------------------------------- e-mails

  /** An address found in the page text, lower-cased and trimmed: kept when shorter than 50. */
  function TextEmail(m: string): Option<string>
  {
    var e := Trim(ToLowerCase(m));
    if |e| < 50 then Some(e) else None
  }

  /** The address of a `mailto:` link: kept when it matches the pattern in full. */
  function MailtoEmail(part: string): Option<string>
  {
    var e := Trim(ToLowerCase(part));
    if MatchesEmailPattern(e) then Some(e) else None
  }

  // ---------------------------------------------------------------- String.split

  /** The pieces of `s` between the occurrences of `c`, empty pieces included. */
  function Pieces(s: string, c: char): (p: seq<string>)
    ensures |p| >= 1
    decreases |s|
  {
    var k := Span(s, [c]);
    if k == |s| then [s] else [s[..k]] + Pieces(s[k + 1..], c)
  }

  /** The pieces without the empty ones at the end. */
  function DropTrailingEmpty(p: seq<string>): (r: seq<string>)
    ensures |r| <= |p| && r == p[..|r|]
  {
    if p == [] || p[|p| - 1] != [] then p else DropTrailingEmpty(p[..|p| - 1])
  }

  /**
   * `s.split(regex)` for a regex matching the one character `c`: the input
   * itself when `c` does not occur, otherwise the pieces with trailing empty
   * ones removed.
   */
  function Split(s: string, c: char): seq<string>
  {
    if c !in s then [s] else DropTrailingEmpty(Pieces(s, c))
  }

  /** `s.split("[?]")[0]`, or `None` where the indexing throws. */
  function BeforeQuery(s: string): Option<string>
  {
    var parts := Split(s, '?');
    if |parts| == 0 then None else Some(parts[0])
  }

  predicate AllEmpty(p: seq<string>)
  {
    forall i :: 0 <= i < |p| ==> p[i] == []
  }

  predicate AllAre(s: string, c: char)
  {
    forall j :: 0 <= j < |s| ==> s[j] == c
  }

  lemma {:induction false} DropTrailingEmptyIsEmpty(p: seq<string>)
    ensures DropTrailingEmpty(p) == [] <==> AllEmpty(p)
  {
    if p != [] && p[|p| - 1] == [] {
      DropTrailingEmptyIsEmpty(p[..|p| - 1]);
      assert forall i :: 0 <= i < |p| - 1 ==> p[..|p| - 1][i] == p[i];
    }
  }

  lemma AllEmptyCons(x: string, q: seq<string>)
    ensures AllEmpty([x] + q) <==> x == [] && AllEmpty(q)
  {
    var p := [x] + q;
    assert p[0] == x;
    assert forall i :: 0 <= i < |q| ==> q[i] == p[i + 1];
  }

  lemma AllAreCons(x: char, t: string, c: char)
    ensures AllAre([x] + t, c) <==> x == c && AllAre(t, c)
  {
    var s := [x] + t;
    assert s[0] == x;
    assert forall j :: 0 <= j < |t| ==> t[j] == s[j + 1];
  }

  /** The pieces are all empty exactly when the string is the separator repeated. */
  lemma {:induction false} PiecesAllEmpty(s: string, c: char)
    ensures AllEmpty(Pieces(s, c)) <==> AllAre(s, c)
    decreases |s|
  {
    var k := Span(s, [c]);
    var p := Pieces(s, c);
    if k < |s| {
      var t := s[k + 1..];
      PiecesAllEmpty(t, c);
      assert p == [s[..k]] + Pieces(t, c);
      AllEmptyCons(s[..k], Pieces(t, c));
      assert s[k] == c;
      if k == 0 {
        assert s == [c] + t;
        AllAreCons(c, t, c);
      } else {
        assert s[..k][0] == s[0];
        assert s[0] != c;
        assert s[..k] != [];
      }
    } else if s != [] {
      assert p == [s];
      assert s[..k] == s;
      assert s[0] != c;
      AllEmptyCons(s, []);
    } else {
      assert p == [[]];
      AllEmptyCons([], []);
    }
  }

  /**
   * The `mailto:`/`tel:` split throws exactly for a non-empty string of
   * question marks only, and otherwise yields the text before the first `?`.
   */
  lemma BeforeQueryIff(s: string)
    ensures BeforeQuery(s).None? <==> s != [] && forall j :: 0 <= j < |s| ==> s[j] == '?'
    ensures BeforeQuery(s).Some? ==> BeforeQuery(s).value == s[..Span(s, "?")]
  {
    var k := Span(s, "?");
    if '?' in s {
      var p := Pieces(s, '?');
      var parts := DropTrailingEmpty(p);
      assert Split(s, '?') == parts;
      DropTrailingEmptyIsEmpty(p);
      PiecesAllEmpty(s, '?');
      assert k < |s| by {
        var j :| 0 <= j < |s| && s[j] == '?';
        assert j >= k ==> k < |s|;
        assert j < k ==> s[..k][j] == '?';
      }
      assert p == [s[..k]] + Pieces(s[k + 1..], '?');
      if parts != [] {
        assert parts[0] == p[0];
      }
    } else {
      assert Split(s, '?') == [s];
      assert k == |s|;
      assert s[..k] == s;
      assert s != [] ==> s[0] != '?';
    }
  }

  // ---------------------------------------------------------------- link loops

  /** What a loop over `mailto:`/`tel:` links has added, and whether it threw. */
  datatype Scan = Scan(found: seq<string>, aborted: bool)

  /**
   * One link: skipped unless it starts with `prefix`; the split after the
   * prefix may throw; otherwise the value, if kept, is added.
   */
  function ScanStep(s: Scan, href: string, prefix: string, value: string -> Option<string>): Scan
  {
    if !StartsWith(href, prefix) then s
    else
      match BeforeQuery(href[|prefix|..])
      case None => Scan(s.found, true)
      case Some(part) =>
        var v := value(part);
        if v.Some? then Scan(s.found + [v.value], s.aborted) else s
  }

  /** The links in order; once one throws, the rest are not looked at. */
  function ScanHrefs(hrefs: seq<string>, prefix: string, value: string -> Option<string>): Scan
  {
    if hrefs == [] then Scan([], false)
    else
      var s := ScanHrefs(hrefs[..|hrefs| - 1], prefix, value);
      if s.aborted then s else ScanStep(s, hrefs[|hrefs| - 1], prefix, value)
  }

  /** The value a link contributes when it does not throw. */
  function HrefValue(href: string, prefix: string, value: string -> Option<string>): Option<string>
  {
    if !StartsWith(href, prefix) then None
    else
      match BeforeQuery(href[|prefix|..])
      case None => None
      case Some(part) => value(part)
  }

  lemma ScanSnoc(hrefs: seq<string>, x: string, prefix: string, value: string -> Option<string>)
    ensures var s := ScanHrefs(hrefs, prefix, value);
      ScanHrefs(hrefs + [x], prefix, value) == if s.aborted then s else ScanStep(s, x, prefix, value)
  {
    assert (hrefs + [x])[..|hrefs|] == hrefs;
  }

  /** Once a link has thrown, the links after it change nothing. */
  lemma {:induction false} ScanAbortIsFinal(hrefs: seq<string>, n: nat, prefix: string, value: string -> Option<string>)
    requires n <= |hrefs| && ScanHrefs(hrefs[..n], prefix, value).aborted
    ensures ScanHrefs(hrefs, prefix, value) == ScanHrefs(hrefs[..n], prefix, value)
    decreases |hrefs|
  {
    if n < |hrefs| {
      var init := hrefs[..|hrefs| - 1];
      assert init[..n] == hrefs[..n];
      ScanAbortIsFinal(init, n, prefix, value);
    } else {
      assert hrefs[..n] == hrefs;
    }
  }

  /** Everything a link loop adds is the value of one of its links. */
  lemma {:induction false} ScanFound(hrefs: seq<string>, prefix: string, value: string -> Option<string>, v: string)
    requires v in ScanHrefs(hrefs, prefix, value).found
    ensures exists i :: 0 <= i < |hrefs| && HrefValue(hrefs[i], prefix, value) == Some(v)
  {
    var init := hrefs[..|hrefs| - 1];
    var s := ScanHrefs(init, prefix, value);
    if v in s.found {
      ScanFound(init, prefix, value, v);
      var i :| 0 <= i < |init| && HrefValue(init[i], prefix, value) == Some(v);
      assert hrefs[i] == init[i];
    } else {
      assert HrefValue(hrefs[|hrefs| - 1], prefix, value) == Some(v);
    }
  }

  // ---------------------------------------------------------------- addresses

  const AddressKeywords: seq<string> :=
    ["ул.", "улица", "пр.", "проспект", "д.", "дом", "г.", "город",
     "street", "avenue", "road", "city"]

  /** `containsAddressKeywords`: some keyword occurs in the lower-cased text. */
  predicate ContainsAddressKeywords(text: string)
  {
    exists i :: 0 <= i < |AddressKeywords| && Contains(ToLowerCase(text), AddressKeywords[i])
  }

  /** An address element's trimmed text: kept when 11 to 499 characters long and with a keyword. */
  function Address(text: string): Option<string>
  {
    var a := Trim(text);
    if 10 < |a| < 500 && ContainsAddressKeywords(a) then Some(a) else None
  }

  // ---------------------------------------------------------------- organisation name

  /** `extractOrganizationName`: strip a `-`/`|` suffix, then an em-dash suffix, then trim. */
  function OrganizationName(title: string): string
  {
    Trim(StripSuffix(StripSuffix(title, "-|"), "\U{2014}"))
  }

  lemma SingleLinePrefix(s: string, n: nat)
    requires SingleLine(s) && n <= |s|
    ensures SingleLine(s[..n])
  {
    assert forall i :: 0 <= i < n ==> s[..n][i] == s[i];
  }

  /** The first stop within the first `n` characters. */
  lemma SpanOfPrefix(s: string, n: nat, stops: string)
    requires n <= |s|
    ensures Span(s[..n], stops) == if Span(s, stops) < n then Span(s, stops) else n
  {
    var k := Span(s, stops);
    if k < n {
      assert s[..n] == s[..k] + s[k..n];
      SpanOfFree(s[..k], s[k..n], stops);
    } else {
      assert NoneOf(s[..n], stops) by {
        assert forall i :: 0 <= i < n ==> s[..n][i] == s[..k][i];
      }
      assert s[..n] == s[..n] + [];
      SpanOfFree(s[..n], [], stops);
    }
  }

  /** The first stop among `a + b` is the earlier of the first among `a` and among `b`. */
  lemma {:induction false} SpanOfUnion(s: string, a: string, b: string)
    ensures Span(s, a + b) == if Span(s, a) < Span(s, b) then Span(s, a) else Span(s, b)
  {
    if s != [] && s[0] !in a + b {
      SpanOfUnion(s[1..], a, b);
    }
  }

  /**
   * One suffix removal on a single line, in terms of the first separator
   * `k`: it keeps the text before the whitespace run ending at `k`, which
   * trims to the same as the text before `k`.
   */
  lemma StripSuffixOneLine(s: string, seps: string)
    requires SingleLine(s)
    ensures var k := Span(s, seps);
      StripSuffix(s, seps) == s[..if k < |s| then RunStart(s, k) else |s|] &&
      Trim(StripSuffix(s, seps)) == Trim(s[..k])
  {
    var k := Span(s, seps);
    assert NoneOf(s[..k], seps);
    assert forall j :: 0 <= j < k ==> s[j] !in seps by {
      assert forall j :: 0 <= j < k ==> s[..k][j] == s[j];
    }
    if k < |s| {
      StripSuffixSingleLine(s, seps, k);
    } else {
      StripSuffixNoSeparator(s, seps);
      assert s[..k] == s;
    }
  }

  lemma OrganizationSeparators()
    ensures "-|\U{2014}" == "-|" + "\U{2014}"
  {
  }

  /** An em dash before `n` is where the second removal cuts the first `n` characters. */
  lemma DashStripOfPrefix(title: string, n: nat)
    requires SingleLine(title) && Span(title, "\U{2014}") < n <= |title|
    ensures Trim(StripSuffix(title[..n], "\U{2014}")) == Trim(title[..Span(title, "\U{2014}")])
  {
    var kd := Span(title, "\U{2014}");
    var r := title[..n];
    SingleLinePrefix(title, n);
    SpanOfPrefix(title, n, "\U{2014}");
    assert Span(r, "\U{2014}") == kd;
    StripSuffixOneLine(r, "\U{2014}");
    PrefixOfPrefix(title, n, kd);
  }

  lemma PrefixOfPrefix(s: string, n: nat, m: nat)
    requires m <= n <= |s|
    ensures s[..n][..m] == s[..m]
  {
  }

  /** Without an em dash in the first `n` characters the second removal keeps them. */
  lemma NoDashStripOfPrefix(title: string, n: nat)
    requires n <= Span(title, "\U{2014}") && n <= |title|
    ensures StripSuffix(title[..n], "\U{2014}") == title[..n]
  {
    var kd := Span(title, "\U{2014}");
    assert forall j :: 0 <= j < n ==> title[..n][j] == title[..kd][j];
    StripSuffixNoSeparator(title[..n], "\U{2014}");
  }

  /**
   * For a one-line title the organisation name is the trimmed text before
   * the first `-`, `|` or em dash (the whole trimmed title if there is none).
   */
  lemma OrganizationNameSingleLine(title: string)
    requires SingleLine(title)
    ensures OrganizationName(title) == Trim(title[..Span(title, "-|\U{2014}")])
  {
    var k1 := Span(title, "-|");
    var kd := Span(title, "\U{2014}");
    OrganizationSeparators();
    SpanOfUnion(title, "-|", "\U{2014}");
    var k := Span(title, "-|\U{2014}");
    StripSuffixOneLine(title, "-|");
    var p1 := if k1 < |title| then RunStart(title, k1) else |title|;
    assert StripSuffix(title, "-|") == title[..p1];
    assert OrganizationName(title) == Trim(StripSuffix(title[..p1], "\U{2014}"));
    if kd < k1 {
      assert k == kd;
      assert !IsRegexSpace(title[kd]);
      assert kd < p1;
      DashStripOfPrefix(title, p1);
    } else {
      assert k == k1;
      assert p1 <= k1;
      NoDashStripOfPrefix(title, p1);
      assert Trim(title[..p1]) == Trim(title[..k1]);
    }
  }

  // ---------------------------------------------------------------- extractContacts

  /**
   * `extractContacts(html, baseUrl)` on a page that parses to `doc`. A
   * `mailto:` or `tel:` link whose split throws ends the `try` block:
   * what was gathered by then is returned, nothing after it is done.
   */
  function ContactsOf(html: Option<string>, doc: Document): Contacts
  {
    if html.None? || html.value == [] then NoContacts
    else
      var mailto := ScanHrefs(doc.mailtoHrefs, "mailto:", MailtoEmail);
      var emails := Distinct(FilterMap(doc.textEmailMatches, TextEmail) + mailto.found);
      if mailto.aborted then Contacts(emails, [], [], None, None)
      else
        var tel := ScanHrefs(doc.telHrefs, "tel:", TelPhone);
        var phones := Distinct(FilterMap(doc.textPhoneMatches, TextPhone) + tel.found);
        if tel.aborted then Contacts(emails, phones, [], None, None)
        else
          Contacts(emails, phones, Distinct(FilterMap(doc.addressTexts, Address)),
                   if doc.title == [] then None else Some(OrganizationName(doc.title)),
                   if doc.metaDescriptions == [] then None else Some(doc.metaDescriptions[0]))
  }

  /**
   * No HTML gives empty data; the three collections never hold an entry
   * twice. When both link loops went through, the name is set exactly for
   * a non-empty title, to the name cut from it, and the description exactly
   * when there is a meta description, to the first one; when a loop threw,
   * neither is set and no address is gathered.
   */
  lemma ContactsShape(html: Option<string>, doc: Document)
    ensures var c := ContactsOf(html, doc);
      (html.None? || html.value == [] ==> c == NoContacts) &&
      NoDuplicates(c.emails) && NoDuplicates(c.phones) && NoDuplicates(c.addresses) &&
      (c.organizationName.Some? ==> doc.title != []) &&
      (c.description.Some? ==> c.description.value == doc.metaDescriptions[0])
    ensures var c := ContactsOf(html, doc);
      var thrown := ScanHrefs(doc.mailtoHrefs, "mailto:", MailtoEmail).aborted ||
                    ScanHrefs(doc.telHrefs, "tel:", TelPhone).aborted;
      html.Some? && html.value != [] ==>
        (thrown ==> c.organizationName.None? && c.description.None? && c.addresses == []) &&
        (!thrown ==>
          c.organizationName == (if doc.title == [] then None else Some(OrganizationName(doc.title))) &&
          c.description == (if doc.metaDescriptions == [] then None else Some(doc.metaDescriptions[0])))
  {
  }

  /** The e-mails: the kept text matches, then the kept `mailto:` addresses, each once. */
  lemma ContactsEmails(html: Option<string>, doc: Document)
    requires html.Some? && html.value != []
    ensures ContactsOf(html, doc).emails ==
      Distinct(FilterMap(doc.textEmailMatches, TextEmail) + ScanHrefs(doc.mailtoHrefs, "mailto:", MailtoEmail).found)
  {
  }

  /**
   * The phones: none when a `mailto:` split threw before the phone loops;
   * otherwise the kept text matches, then the kept `tel:` numbers, each once.
   */
  lemma ContactsPhones(html: Option<string>, doc: Document)
    requires html.Some? && html.value != []
    ensures var c := ContactsOf(html, doc);
      var mailto := ScanHrefs(doc.mailtoHrefs, "mailto:", MailtoEmail);
      (mailto.aborted ==> c.phones == []) &&
      (!mailto.aborted ==>
        c.phones == Distinct(FilterMap(doc.textPhoneMatches, TextPhone) + ScanHrefs(doc.telHrefs, "tel:", TelPhone).found))
  {
  }

  /**
   * The addresses: none when a link split threw before the address loop;
   * otherwise the kept trimmed element texts, each once.
   */
  lemma ContactsAddresses(html: Option<string>, doc: Document)
    requires html.Some? && html.value != []
    ensures var c := ContactsOf(html, doc);
      var thrown := ScanHrefs(doc.mailtoHrefs, "mailto:", MailtoEmail).aborted ||
                    ScanHrefs(doc.telHrefs, "tel:", TelPhone).aborted;
      (thrown ==> c.addresses == []) &&
      (!thrown ==> c.addresses == Distinct(FilterMap(doc.addressTexts, Address)))
  {
  }

  lemma TextEmailForm(m: string, e: string)
    requires TextEmail(m) == Some(e)
    ensures IsLowerCase(e) && |e| < 50
  {
    LowerCaseIsLowerCase(m);
    TrimOfLowerIsLower(ToLowerCase(m));
  }

  lemma MailtoEmailForm(href: string, e: string)
    requires HrefValue(href, "mailto:", MailtoEmail) == Some(e)
    ensures IsLowerCase(e) && MatchesEmailPattern(e)
  {
    var part := BeforeQuery(href[7..]).value;
    LowerCaseIsLowerCase(part);
    TrimOfLowerIsLower(ToLowerCase(part));
  }

  /** Every stored e-mail is lower-case and comes from a text match or a `mailto:` link. */
  lemma ContactsEmailsForm(html: Option<string>, doc: Document, e: string)
    requires e in ContactsOf(html, doc).emails
    ensures IsLowerCase(e)
    ensures (exists i :: 0 <= i < |doc.textEmailMatches| && TextEmail(doc.textEmailMatches[i]) == Some(e)) ||
            (exists i :: 0 <= i < |doc.mailtoHrefs| && HrefValue(doc.mailtoHrefs[i], "mailto:", MailtoEmail) == Some(e))
    ensures |e| < 50 || MatchesEmailPattern(e)
  {
    ContactsEmails(html, doc);
    var found := ScanHrefs(doc.mailtoHrefs, "mailto:", MailtoEmail).found;
    var text := FilterMap(doc.textEmailMatches, TextEmail);
    DistinctMembership(text + found, e);
    if e in text {
      FilterMapMembership(doc.textEmailMatches, TextEmail, e);
      var i :| 0 <= i < |doc.textEmailMatches| && TextEmail(doc.textEmailMatches[i]) == Some(e);
      TextEmailForm(doc.textEmailMatches[i], e);
    } else {
      ScanFound(doc.mailtoHrefs, "mailto:", MailtoEmail, e);
      var i :| 0 <= i < |doc.mailtoHrefs| && HrefValue(doc.mailtoHrefs[i], "mailto:", MailtoEmail) == Some(e);
      MailtoEmailForm(doc.mailtoHrefs[i], e);
    }
  }

  lemma TelPhoneForm(href: string, p: string)
    requires HrefValue(href, "tel:", TelPhone) == Some(p)
    ensures 7 <= |p| && AllPhoneChars(p)
  {
    NormalizePhoneKeepsPhoneChars(BeforeQuery(href[4..]).value);
  }

  /** Every stored phone consists of digits and `+` only and has at least 7 of them. */
  lemma ContactsPhonesForm(html: Option<string>, doc: Document, p: string)
    requires p in ContactsOf(html, doc).phones
    ensures 7 <= |p| && AllPhoneChars(p)
    ensures (exists i :: 0 <= i < |doc.textPhoneMatches| && TextPhone(doc.textPhoneMatches[i]) == Some(p)) ||
            (exists i :: 0 <= i < |doc.telHrefs| && HrefValue(doc.telHrefs[i], "tel:", TelPhone) == Some(p))
  {
    ContactsPhones(html, doc);
    var found := ScanHrefs(doc.telHrefs, "tel:", TelPhone).found;
    var text := FilterMap(doc.textPhoneMatches, TextPhone);
    DistinctMembership(text + found, p);
    if p in text {
      FilterMapMembership(doc.textPhoneMatches, TextPhone, p);
      var i :| 0 <= i < |doc.textPhoneMatches| && TextPhone(doc.textPhoneMatches[i]) == Some(p);
      NormalizePhoneKeepsPhoneChars(doc.textPhoneMatches[i]);
    } else {
      ScanFound(doc.telHrefs, "tel:", TelPhone, p);
      var i :| 0 <= i < |doc.telHrefs| && HrefValue(doc.telHrefs[i], "tel:", TelPhone) == Some(p);
      TelPhoneForm(doc.telHrefs[i], p);
    }
  }

  /** Every stored address is the trimmed text of an element, 11 to 499 characters long, with a keyword. */
  lemma ContactsAddressesForm(html: Option<string>, doc: Document, a: string)
    requires a in ContactsOf(html, doc).addresses
    ensures 10 < |a| < 500 && ContainsAddressKeywords(a)
    ensures exists i :: 0 <= i < |doc.addressTexts| && Trim(doc.addressTexts[i]) == a
  {
    var all := FilterMap(doc.addressTexts, Address);
    DistinctMembership(all, a);
    FilterMapMembership(doc.addressTexts, Address, a);
  }

  // ---------------------------------------------------------------- ContactData

  /** A `HashSet<String>` of the parser, in insertion order. */
  class StringSet {
    var elements: seq<string>

    predicate Valid()
      reads this
    {
      NoDuplicates(elements)
    }

    constructor ()
      ensures elements == [] && Valid()
    {
      elements := [];
    }

    /** `Set.add`: a value already present leaves the set as it is. */
    method Add(x: string)
      requires Valid()
      modifies this
      ensures Valid()
      ensures elements == if x in old(elements) then old(elements) else old(elements) + [x]
    {
      if x !in elements {
        elements := elements + [x];
      }
    }
  }

  class ContactData {
    const emails: StringSet
    const phones: StringSet
    const addresses: StringSet
    var organizationName: Option<string>
    var description: Option<string>

    ghost predicate Valid()
      reads this, emails, phones, addresses
    {
      emails != phones && emails != addresses && phones != addresses &&
      emails.Valid() && phones.Valid() && addresses.Valid()
    }

    function View(): Contacts
      reads this, emails, phones, addresses
    {
      Contacts(emails.elements, phones.elements, addresses.elements, organizationName, description)
    }

    constructor ()
      ensures Valid() && View() == NoContacts
      ensures fresh(emails) && fresh(phones) && fresh(addresses)
    {
      emails := new StringSet();
      phones := new StringSet();
      addresses := new StringSet();
      organizationName := None;
      description := None;
    }

    method SetOrganizationName(name: string)
      modifies this
      ensures organizationName == Some(name) && description == old(description)
    {
      organizationName := Some(name);
    }

    method SetDescription(d: string)
      modifies this
      ensures description == Some(d) && organizationName == old(organizationName)
    {
      description := Some(d);
    }
  }

  /** One `find` loop: add the kept value of each match, in order. */
  method AddMatches(target: StringSet, ghost raw: seq<string>, matches: seq<string>, f: string -> Option<string>)
    requires target.Valid() && target.elements == Distinct(raw)
    modifies target
    ensures target.Valid() && target.elements == Distinct(raw + FilterMap(matches, f))
  {
    var i := 0;
    assert raw + FilterMap(matches[..0], f) == raw;
    while i < |matches|
      invariant 0 <= i <= |matches|
      invariant target.Valid() && target.elements == Distinct(raw + FilterMap(matches[..i], f))
    {
      var before := raw + FilterMap(matches[..i], f);
      assert matches[..i + 1] == matches[..i] + [matches[i]];
      FilterMapSnoc(matches[..i], matches[i], f);
      var v := f(matches[i]);
      if v.Some? {
        assert raw + FilterMap(matches[..i + 1], f) == before + [v.value];
        DistinctSnoc(before, v.value);
        target.Add(v.value);
      } else {
        assert raw + FilterMap(matches[..i + 1], f) == before;
      }
      i := i + 1;
    }
    assert matches[..i] == matches;
  }

  /**
   * One loop over `mailto:` or `tel:` links. `aborted` tells that a split
   * threw, which ends the caller's `try` block.
   */
  method AddHrefs(target: StringSet, ghost raw: seq<string>, hrefs: seq<string>, prefix: string,
                  value: string -> Option<string>) returns (aborted: bool)
    requires target.Valid() && target.elements == Distinct(raw)
    modifies target
    ensures target.Valid() && target.elements == Distinct(raw + ScanHrefs(hrefs, prefix, value).found)
    ensures aborted == ScanHrefs(hrefs, prefix, value).aborted
  {
    var i := 0;
    assert raw + ScanHrefs(hrefs[..0], prefix, value).found == raw;
    while i < |hrefs|
      invariant 0 <= i <= |hrefs|
      invariant !ScanHrefs(hrefs[..i], prefix, value).aborted
      invariant target.Valid() && target.elements == Distinct(raw + ScanHrefs(hrefs[..i], prefix, value).found)
    {
      var s := ScanHrefs(hrefs[..i], prefix, value);
      assert hrefs[..i + 1] == hrefs[..i] + [hrefs[i]];
      ScanSnoc(hrefs[..i], hrefs[i], prefix, value);
      var href := hrefs[i];
      if StartsWith(href, prefix) {
        var part := BeforeQuery(href[|prefix|..]);
        if part.None? {
          ScanAbortIsFinal(hrefs, i + 1, prefix, value);
          return true;
        }
        var v := value(part.value);
        if v.Some? {
          assert raw + (s.found + [v.value]) == (raw + s.found) + [v.value];
          DistinctSnoc(raw + s.found, v.value);
          target.Add(v.value);
        }
      }
      i := i + 1;
    }
    assert hrefs[..i] == hrefs;
    return false;
  }

  /** `extractContacts`: the new `ContactData` holds `ContactsOf(html, doc)`. */
  method ExtractContacts(html: Option<string>, doc: Document) returns (data: ContactData)
    ensures fresh(data) && data.Valid()
    ensures data.View() == ContactsOf(html, doc)
  {
    data := new ContactData();
    if html.None? || html.value == [] {
      return;
    }
    AddMatches(data.emails, [], doc.textEmailMatches, TextEmail);
    assert [] + FilterMap(doc.textEmailMatches, TextEmail) == FilterMap(doc.textEmailMatches, TextEmail);
    var aborted := AddHrefs(data.emails, FilterMap(doc.textEmailMatches, TextEmail),
                            doc.mailtoHrefs, "mailto:", MailtoEmail);
    if aborted {
      return;
    }
    AddMatches(data.phones, [], doc.textPhoneMatches, TextPhone);
    assert [] + FilterMap(doc.textPhoneMatches, TextPhone) == FilterMap(doc.textPhoneMatches, TextPhone);
    aborted := AddHrefs(data.phones, FilterMap(doc.textPhoneMatches, TextPhone),
                        doc.telHrefs, "tel:", TelPhone);
    if aborted {
      return;
    }
    AddMatches(data.addresses, [], doc.addressTexts, Address);
    assert [] + FilterMap(doc.addressTexts, Address) == FilterMap(doc.addressTexts, Address);
    if doc.title != [] {
      data.SetOrganizationName(OrganizationName(doc.title));
    }
    if doc.metaDescriptions != [] {
      data.SetDescription(doc.metaDescriptions[0]);
    }
  }
}
