/** `create_mailto_link` and a parser that reads its fields back. */
module Utils {
  import opened Wrappers
  import opened UrlQuote

  /**
   * `create_mailto_link(email, subject, body)`: the address is copied as it
   * is, subject and body are quoted.
   */
  function CreateMailtoLink(email: string, subject: string, body: string): (r: string)
    ensures |r| >= 7 + |email| + 15 && r[..7] == "mailto:" && r[7..7 + |email|] == email
  {
    "mailto:" + email + "?subject=" + Quote(subject) + "&body=" + Quote(body)
  }

  /** The fields a mail client reads from a mailto link. */
  datatype MailtoFields = MailtoFields(email: string, subject: string, body: string)

  /** The first position of `c` in `s`, if any. */
  function IndexOf(s: string, c: char): (r: Option<nat>)
    ensures r.Some? ==> r.value < |s| && s[r.value] == c && c !in s[..r.value]
    ensures r.None? ==> c !in s
  {
    if s == [] then None
    else if s[0] == c then Some(0)
    else
      match IndexOf(s[1..], c)
      case None => None
      case Some(k) =>
        assert s[..k + 1] == [s[0]] + s[1..][..k];
        Some(k + 1)
  }

  /**
   * Reads a link of the form `mailto:<address>?subject=<s>&body=<b>`: the
   * address runs to the first `?`, the subject to the first `&`; both values
   * are percent-decoded.
   */
  function ParseMailto(link: string): Option<MailtoFields> {
    if |link| < 7 || link[..7] != "mailto:" then None else ParseAddress(link[7..])
  }

  /** Splits `<address>?<query>` at the first `?`. */
  function ParseAddress(rest: string): Option<MailtoFields> {
    match IndexOf(rest, '?')
    case None => None
    case Some(q) => ParseQuery(rest[..q], rest[q + 1..])
  }

  /** Reads `subject=<s>&body=<b>`. */
  function ParseQuery(email: string, query: string): Option<MailtoFields> {
    if |query| < 8 || query[..8] != "subject=" then None
    else
      var params := query[8..];
      match IndexOf(params, '&')
      case None => None
      case Some(a) => ParseBody(email, params[..a], params[a..])
  }

  /** Reads `&body=<b>` and decodes both values. */
  function ParseBody(email: string, subject: string, tail: string): Option<MailtoFields> {
    if |tail| < 6 || tail[..6] != "&body=" then None
    else
      match (Unquote(subject), Unquote(tail[6..]))
      case (Some(s), Some(b)) => Some(MailtoFields(email, s, b))
      case _ => None
  }

  /** The first occurrence of `c` in `a + [c] + b` is at the end of `a` when `a` has none. */
  lemma {:induction false} IndexOfAfter(a: string, c: char, b: string)
    requires c !in a
    ensures IndexOf(a + [c] + b, c) == Some(|a|)
  {
    if a != [] {
      assert (a + [c] + b)[1..] == a[1..] + [c] + b;
      IndexOfAfter(a[1..], c, b);
    }
  }

  /** No `&` in a quoted value, so the subject ends at the first `&`. */
  lemma QuoteHasNoAmpersand(s: string)
    ensures '&' !in Quote(s)
  {
    QuoteHasNoDelimiters(s);
    var q := Quote(s);
    forall i | 0 <= i < |q| ensures q[i] != '&' {
      assert q[i] !in "&?=# +";
    }
  }

  /** The address of `<address>?<query>` ends at its `?` when it has no other. */
  lemma ParseAddressAt(email: string, query: string)
    requires '?' !in email
    ensures ParseAddress(email + "?" + query) == ParseQuery(email, query)
  {
    var rest := email + "?" + query;
    IndexOfAfter(email, '?', query);
    assert rest[..|email|] == email && rest[|email| + 1..] == query;
  }

  /** The subject of `subject=<qs>&body=<qb>` ends at its first `&` when `qs` has none. */
  lemma ParseQueryAt(email: string, qs: string, qb: string)
    requires '&' !in qs
    ensures ParseQuery(email, "subject=" + qs + "&body=" + qb) == ParseBody(email, qs, "&body=" + qb)
  {
    var params := qs + "&body=" + qb;
    var query := "subject=" + qs + "&body=" + qb;
    assert query[..8] == "subject=" && query[8..] == params;
    IndexOfAfter(qs, '&', "body=" + qb);
    assert params == qs + ['&'] + ("body=" + qb);
    assert params[..|qs|] == qs && params[|qs|..] == "&body=" + qb;
  }

  /** Reading a link assembled from an address without `?` and a subject value without `&`. */
  lemma ParseAssembledLink(email: string, qs: string, qb: string)
    requires '?' !in email && '&' !in qs
    ensures ParseMailto("mailto:" + email + "?subject=" + qs + "&body=" + qb)
         == ParseBody(email, qs, "&body=" + qb)
  {
    var query := "subject=" + qs + "&body=" + qb;
    var link := "mailto:" + email + "?subject=" + qs + "&body=" + qb;
    assert link == "mailto:" + (email + "?" + query);
    ParseAddressAt(email, query);
    ParseQueryAt(email, qs, qb);
  }

  /**
   * The link carries exactly the three inputs: reading it back gives the
   * address verbatim and the decoded subject and body. The address must not
   * itself contain `?`, since it is copied without encoding.
   */
  lemma MailtoRoundTrip(email: string, subject: string, body: string)
    requires '?' !in email
    ensures ParseMailto(CreateMailtoLink(email, subject, body)) == Some(MailtoFields(email, subject, body))
  {
    QuoteHasNoAmpersand(subject);
    UnquoteQuote(subject);
    UnquoteQuote(body);
    ParseAssembledLink(email, Quote(subject), Quote(body));
    assert ("&body=" + Quote(body))[6..] == Quote(body);
  }

  /** The first part of the test's body, quoted run by run. */
  lemma TestBodyPart1Runs(hello: string, i: string, d: string)
    requires hello == "Hello" && i == "I" && d == "d"
    ensures Quote(hello + [','] + [' '] + i + ['\''] + d) == hello + "%2C" + "%20" + i + "%27" + d
  {
    var s1, s2 := hello + [','], hello + [','] + [' '] + i;
    assert Quote(s1) == hello + "%2C" by {
      QuoteSafeText(hello);
      QuoteThenSafeRun(hello, ',', []);
      assert s1 + [] == s1;
    }
    assert Quote(s2) == hello + "%2C" + "%20" + i by {
      QuoteThenSafeRun(s1, ' ', i);
    }
    QuoteThenSafeRun(s2, '\'', d);
  }

  lemma TestBodyPart1(part: string)
    requires part == "Hello, I'd"
    ensures Quote(part) == "Hello" + "%2C" + "%20" + "I" + "%27" + "d"
  {
    var hello, i, d := part[..5], part[7..8], part[9..];
    assert part == hello + [','] + [' '] + i + ['\''] + d;
    TestBodyPart1Runs(hello, i, d);
  }

  /** The second part of the test's body, quoted run by run. */
  lemma TestBodyPart2Runs(like: string, to: string)
    requires like == "like" && to == "to"
    ensures Quote([' '] + like + [' '] + to) == "%20" + like + "%20" + to
  {
    assert Quote([' '] + like) == "%20" + like by {
      QuoteThenSafeRun([], ' ', like);
      assert [] + [' '] + like == [' '] + like;
    }
    QuoteThenSafeRun([' '] + like, ' ', to);
  }

  lemma TestBodyPart2(part: string)
    requires part == " like to"
    ensures Quote(part) == "%20" + "like" + "%20" + "to"
  {
    var like, to := part[1..5], part[6..];
    assert part == [' '] + like + [' '] + to;
    TestBodyPart2Runs(like, to);
  }

  /** The third part of the test's body, quoted run by run. */
  lemma TestBodyPart3Runs(discuss: string, a: string, role: string)
    requires discuss == "discuss" && a == "a" && role == "role."
    ensures Quote([' '] + discuss + [' '] + a + [' '] + role) == "%20" + discuss + "%20" + a + "%20" + role
  {
    var s1, s2 := [' '] + discuss, [' '] + discuss + [' '] + a;
    assert Quote(s1) == "%20" + discuss by {
      QuoteThenSafeRun([], ' ', discuss);
      assert [] + [' '] + discuss == s1;
    }
    assert Quote(s2) == "%20" + discuss + "%20" + a by {
      QuoteThenSafeRun(s1, ' ', a);
    }
    QuoteThenSafeRun(s2, ' ', role);
  }

  lemma TestBodyPart3(part: string)
    requires part == " discuss a role."
    ensures Quote(part) == "%20" + "discuss" + "%20" + "a" + "%20" + "role."
  {
    var discuss, a, role := part[1..8], part[9..10], part[11..];
    assert part == [' '] + discuss + [' '] + a + [' '] + role;
    TestBodyPart3Runs(discuss, a, role);
  }

  /** The test's subject, quoted run by run. */
  lemma TestSubjectRuns(job: string, opportunity: string)
    requires job == "Job" && opportunity == "Opportunity"
    ensures Quote(job + [' '] + opportunity) == job + "%20" + opportunity
  {
    QuoteSafeText(job);
    QuoteThenSafeRun(job, ' ', opportunity);
  }

  lemma TestSubject(subject: string)
    requires subject == "Job Opportunity"
    ensures Quote(subject) == "Job" + "%20" + "Opportunity"
  {
    var job, opportunity := subject[..3], subject[4..];
    assert subject == job + [' '] + opportunity;
    TestSubjectRuns(job, opportunity);
  }

  /**
   * The example the repository's test pins, character for character; each
   * quoted value is written as its runs of safe characters and its escapes.
   */
  lemma MailtoTestVector(email: string, subject: string, body: string)
    requires email == "test@example.com" && subject == "Job Opportunity"
    requires body == "Hello, I'd" + " like to" + " discuss a role."
    ensures CreateMailtoLink(email, subject, body)
         == "mailto:" + "test@example.com" + "?subject=" + ("Job" + "%20" + "Opportunity")
            + "&body=" + (("Hello" + "%2C" + "%20" + "I" + "%27" + "d") + ("%20" + "like" + "%20" + "to") + ("%20" + "discuss" + "%20" + "a" + "%20" + "role."))
  {
    TestSubject(subject);
    var p1, p2, p3 := "Hello, I'd", " like to", " discuss a role.";
    TestBodyPart1(p1);
    TestBodyPart2(p2);
    TestBodyPart3(p3);
    QuoteAppend(p1 + p2, p3);
    QuoteAppend(p1, p2);
  }
}
