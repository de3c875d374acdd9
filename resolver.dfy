/**
 * Per-company resolution. Each company gets an initial search on its name;
 * the website is the first link found, the LinkedIn page the first link that
 * includes "linkedin.com/company". Only when the initial links hold no such
 * link is a fallback search run on the name followed by " LinkedIn". A failed
 * search turns the company's record into an error record, discarding a
 * website already found. Companies are processed one after another, one
 * record each, in input order.
 */
module Resolver {
  import opened Wrappers
  import opened JsStrings
  import opened SearchParams
  import opened ResultPage

  /** What the browser gives for one search: a failure, or the rendered result entries. */
  datatype PageLoad = LoadFailed(message: string) | Loaded(entries: seq<ResultEntry>)

  /**
   * The browser and the search engine behind it: the page for a query,
   * given the queries already submitted on the same page (so the same query
   * may be answered differently later on).
   */
  type Browser = (seq<string>, string) -> PageLoad

  /** The outcome of `performSearch`: a thrown error's message, or the extracted links. */
  datatype SearchOutcome = SearchFailed(message: string) | Links(links: seq<string>)

  /** `performSearch(page, query)` with the page's history before the call. */
  function Search(browser: Browser, decode: Decoder, history: seq<string>, query: string): (o: SearchOutcome)
    ensures o.SearchFailed? <==> browser(history, query).LoadFailed?
    ensures o.SearchFailed? ==> o.message == browser(history, query).message
    ensures o.Links? ==> o.links == ExtractLinks(browser(history, query).entries, decode)
  {
    match browser(history, query)
    case LoadFailed(message) => SearchFailed(message)
    case Loaded(entries) => Links(ExtractLinks(entries, decode))
  }

  const LinkedInPattern: string := "linkedin.com/company"
  const FallbackSuffix: string := " LinkedIn"

  /** `link.includes("linkedin.com/company")` */
  predicate IsLinkedInCompany(link: string) {
    Contains(link, LinkedInPattern)
  }

  /** Any link with `linkedin.com/company` somewhere in it is a company page. */
  lemma CompanyPageMatches(before: string, after: string)
    ensures IsLinkedInCompany(before + LinkedInPattern + after)
  {
    ContainsInfix(before, LinkedInPattern, after);
  }

  /** A link shorter than `linkedin.com/company` is never a company page. */
  lemma ShortLinkNeverMatches(link: string)
    requires |link| < |LinkedInPattern|
    ensures !IsLinkedInCompany(link)
  {
    ContainsNotInShorter(link, LinkedInPattern);
  }

  /** The fallback query `${companyName} LinkedIn`. */
  function FallbackQuery(companyName: string): (q: string)
    ensures |q| == |companyName| + |FallbackSuffix| && q[..|companyName|] == companyName
    ensures q[|companyName|..] == FallbackSuffix
  {
    companyName + FallbackSuffix
  }

  /** `initialLinks.length > 0 ? initialLinks[0] : null` */
  function FirstLink(links: seq<string>): (r: Option<string>)
    ensures r.None? <==> links == []
    ensures r.Some? ==> r.value == links[0]
  {
    if links == [] then None else Some(links[0])
  }

  /** The first link, in order, that includes the LinkedIn company pattern. */
  function FirstLinkedIn(links: seq<string>): (r: Option<string>)
    ensures r.None? <==> forall i :: 0 <= i < |links| ==> !IsLinkedInCompany(links[i])
    ensures r.Some? ==> exists i :: 0 <= i < |links| && links[i] == r.value && IsLinkedInCompany(r.value)
                                    && forall j :: 0 <= j < i ==> !IsLinkedInCompany(links[j])
  {
    if links == [] then None
    else if IsLinkedInCompany(links[0]) then Some(links[0])
    else
      var r := FirstLinkedIn(links[1..]);
      assert r.Some? ==> exists i :: 0 <= i < |links| && links[i] == r.value && IsLinkedInCompany(r.value)
                                    && forall j :: 0 <= j < i ==> !IsLinkedInCompany(links[j]) by {
        if r.Some? {
          var k :| 0 <= k < |links| - 1 && links[1..][k] == r.value && IsLinkedInCompany(r.value)
                   && forall j :: 0 <= j < k ==> !IsLinkedInCompany(links[1..][j]);
          assert links[k + 1] == r.value;
          forall j | 0 <= j < k + 1 ensures !IsLinkedInCompany(links[j]) {
            if j > 0 { assert links[j] == links[1..][j - 1]; }
          }
        }
      }
      r
  }

  /** A company's row data: `{name, website, linkedin}` or `{name, website: null, linkedin: null, error}`. */
  datatype Record = Record(name: string, website: Option<string>, linkedin: Option<string>, error: Option<string>)

  /** The record the `catch` block pushes. */
  function ErrorRecord(companyName: string, message: string): (rec: Record)
    ensures rec.name == companyName && rec.error == Some(message)
    ensures rec.website.None? && rec.linkedin.None?
  {
    Record(companyName, None, None, Some(message))
  }

  /** What every record satisfies: an error record has no URLs, and a LinkedIn URL matches the pattern. */
  predicate WellFormed(rec: Record) {
    && (rec.error.Some? ==> rec.website.None? && rec.linkedin.None?)
    && (rec.linkedin.Some? ==> IsLinkedInCompany(rec.linkedin.value))
  }

  /** A company's record together with the queries submitted to get it. */
  datatype Resolution = Resolution(rec: Record, queries: seq<string>)

  /** The record for one company and the queries it submits, from the page history before it. */
  function Resolve(browser: Browser, decode: Decoder, history: seq<string>, companyName: string): (r: Resolution)
    ensures r.rec.name == companyName && WellFormed(r.rec)
    ensures 1 <= |r.queries| <= 2 && r.queries[0] == companyName
    ensures |r.queries| == 2 ==> r.queries[1] == FallbackQuery(companyName)
  {
    match Search(browser, decode, history, companyName)
    case SearchFailed(message) => Resolution(ErrorRecord(companyName, message), [companyName])
    case Links(initialLinks) =>
      var website := FirstLink(initialLinks);
      match FirstLinkedIn(initialLinks)
      case Some(url) => Resolution(Record(companyName, website, Some(url), None), [companyName])
      case None =>
        var fallback := FallbackQuery(companyName);
        match Search(browser, decode, history + [companyName], fallback)
        case SearchFailed(message) => Resolution(ErrorRecord(companyName, message), [companyName, fallback])
        case Links(fallbackLinks) =>
          Resolution(Record(companyName, website, FirstLinkedIn(fallbackLinks), None), [companyName, fallback])
  }

  /** The records for a list of companies, resolved one after another, and all the queries submitted. */
  datatype Run = Run(records: seq<Record>, queries: seq<string>)

  /** How one company is resolved, from the page history before it. */
  type Step = (seq<string>, string) -> Resolution

  /** Companies handled one after another, each seeing the queries of those before it. */
  function RunSteps(step: Step, history: seq<string>, companyNames: seq<string>): (run: Run)
    ensures |run.records| == |companyNames|
    decreases |companyNames|
  {
    if companyNames == [] then Run([], [])
    else
      var first := step(history, companyNames[0]);
      var rest := RunSteps(step, history + first.queries, companyNames[1..]);
      Run([first.rec] + rest.records, first.queries + rest.queries)
  }

  /** Running over `a + b` is running over `a`, then over `b` from the history `a` left. */
  lemma {:induction false} RunStepsAppend(step: Step, history: seq<string>, a: seq<string>, b: seq<string>)
    ensures var ra := RunSteps(step, history, a);
            var rb := RunSteps(step, history + ra.queries, b);
            RunSteps(step, history, a + b) == Run(ra.records + rb.records, ra.queries + rb.queries)
    decreases |a|
  {
    if a == [] {
      assert a + b == b;
      assert history + [] == history;
    } else {
      var first := step(history, a[0]);
      assert (a + b)[0] == a[0] && (a + b)[1..] == a[1..] + b;
      RunStepsAppend(step, history + first.queries, a[1..], b);
      var ra' := RunSteps(step, history + first.queries, a[1..]);
      assert history + first.queries + ra'.queries == history + (first.queries + ra'.queries);
    }
  }

  /** Handling one more company extends the run by that company's step. */
  lemma RunStepsSnoc(step: Step, history: seq<string>, companyNames: seq<string>, companyName: string)
    ensures var run := RunSteps(step, history, companyNames);
            var last := step(history + run.queries, companyName);
            RunSteps(step, history, companyNames + [companyName])
              == Run(run.records + [last.rec], run.queries + last.queries)
  {
    var run := RunSteps(step, history, companyNames);
    RunStepsAppend(step, history, companyNames, [companyName]);
    assert RunSteps(step, history + run.queries, [companyName]).records
           == [step(history + run.queries, companyName).rec];
  }

  /**
   * Record `i` of a run is the step for name `i`, taken from the history the
   * earlier names left behind, and its queries follow theirs.
   */
  lemma RunStepsAt(step: Step, history: seq<string>, companyNames: seq<string>, i: nat)
    requires i < |companyNames|
    ensures var before := RunSteps(step, history, companyNames[..i]);
            var run := RunSteps(step, history, companyNames);
            var at := step(history + before.queries, companyNames[i]);
            run.records[i] == at.rec && before.queries + at.queries <= run.queries
  {
    var before := RunSteps(step, history, companyNames[..i]);
    assert companyNames == companyNames[..i] + companyNames[i..];
    RunStepsAppend(step, history, companyNames[..i], companyNames[i..]);
    assert companyNames[i..][0] == companyNames[i];
  }

  /** The step the program takes: `Resolve` on the session's browser. */
  function ResolveStep(browser: Browser, decode: Decoder): Step {
    (history, companyName) => Resolve(browser, decode, history, companyName)
  }

  /** The whole run of the per-company loop over `companyNames`. */
  function ResolveEach(browser: Browser, decode: Decoder, history: seq<string>, companyNames: seq<string>): (run: Run)
    ensures |run.records| == |companyNames|
  {
    RunSteps(ResolveStep(browser, decode), history, companyNames)
  }

  /** The browser page, shared by all searches; it remembers the queries submitted to it. */
  class Session {
    const browser: Browser
    const decode: Decoder
    var history: seq<string>

    constructor (browser: Browser, decode: Decoder)
      ensures this.browser == browser && this.decode == decode && history == []
    {
      this.browser := browser;
      this.decode := decode;
      history := [];
    }

    /** `performSearch(page, query)`: one navigation, which also replaces the page's previous results. */
    method PerformSearch(query: string) returns (outcome: SearchOutcome)
      modifies this
      ensures history == old(history) + [query]
      ensures outcome == Search(browser, decode, old(history), query)
    {
      match browser(history, query) {
        case LoadFailed(message) => outcome := SearchFailed(message);
        case Loaded(entries) => outcome := Links(ExtractLinks(entries, decode));
      }
      history := history + [query];
    }
  }

  /** The `for ... of` loop with `break` that looks for the LinkedIn URL among some links. */
  method FindLinkedIn(links: seq<string>) returns (linkedinUrl: Option<string>)
    ensures linkedinUrl == FirstLinkedIn(links)
  {
    linkedinUrl := None;
    var i := 0;
    while i < |links|
      invariant 0 <= i <= |links|
      invariant FirstLinkedIn(links[i..]) == FirstLinkedIn(links)
      invariant linkedinUrl.None?
    {
      if IsLinkedInCompany(links[i]) {
        linkedinUrl := Some(links[i]);
        break;
      }
      assert links[i..][1..] == links[i + 1..];
      i := i + 1;
    }
  }

  /** The body of the per-company loop, `try` and `catch` included. */
  method ResolveCompany(session: Session, companyName: string) returns (rec: Record)
    modifies session
    ensures var r := Resolve(session.browser, session.decode, old(session.history), companyName);
            rec == r.rec && session.history == old(session.history) + r.queries
  {
    var initial := session.PerformSearch(companyName);
    if initial.SearchFailed? {
      return ErrorRecord(companyName, initial.message);
    }
    var initialLinks := initial.links;
    var websiteUrl := if |initialLinks| > 0 then Some(initialLinks[0]) else None;
    var linkedinUrl := FindLinkedIn(initialLinks);
    if linkedinUrl.None? {
      var fallback := session.PerformSearch(FallbackQuery(companyName));
      if fallback.SearchFailed? {
        return ErrorRecord(companyName, fallback.message);
      }
      linkedinUrl := FindLinkedIn(fallback.links);
    }
    rec := Record(companyName, websiteUrl, linkedinUrl, None);
  }

  /** The per-company `for` loop: one record pushed per name, in order. */
  method ResolveAll(session: Session, companyNames: seq<string>) returns (results: seq<Record>)
    modifies session
    ensures var run := ResolveEach(session.browser, session.decode, old(session.history), companyNames);
            results == run.records && session.history == old(session.history) + run.queries
  {
    ghost var start := session.history;
    results := [];
    var i := 0;
    while i < |companyNames|
      invariant 0 <= i <= |companyNames|
      invariant var run := ResolveEach(session.browser, session.decode, start, companyNames[..i]);
                results == run.records && session.history == start + run.queries
    {
      RunStepsSnoc(ResolveStep(session.browser, session.decode), start, companyNames[..i], companyNames[i]);
      assert companyNames[..i + 1] == companyNames[..i] + [companyNames[i]];
      var rec := ResolveCompany(session, companyNames[i]);
      results := results + [rec];
      i := i + 1;
    }
    assert companyNames[..i] == companyNames;
  }

  /** The fallback search runs exactly when the initial search succeeds without a LinkedIn link. */
  lemma FallbackIffNoInitialLinkedIn(browser: Browser, decode: Decoder, history: seq<string>, companyName: string)
    ensures var initial := Search(browser, decode, history, companyName);
            var r := Resolve(browser, decode, history, companyName);
            (|r.queries| == 2 <==> initial.Links? && FirstLinkedIn(initial.links).None?)
            && (|r.queries| == 2 ==> r.queries == [companyName, companyName + " LinkedIn"])
  {
  }

  /**
   * The record is an error record exactly when a search that was run failed,
   * and it carries that search's message.
   */
  lemma ErrorIffSearchFailed(browser: Browser, decode: Decoder, history: seq<string>, companyName: string)
    ensures var initial := Search(browser, decode, history, companyName);
            var fallback := Search(browser, decode, history + [companyName], FallbackQuery(companyName));
            var r := Resolve(browser, decode, history, companyName);
            && (initial.SearchFailed? ==> r.rec == ErrorRecord(companyName, initial.message))
            && ((initial.Links? && FirstLinkedIn(initial.links).None? && fallback.SearchFailed?)
                ==> r.rec == ErrorRecord(companyName, fallback.message))
            && (r.rec.error.Some? <==>
                  initial.SearchFailed? || (FirstLinkedIn(initial.links).None? && fallback.SearchFailed?))
  {
  }

  /**
   * A successful record's website is the first initial link, and its
   * LinkedIn URL the first initial match or, failing that, the first
   * fallback match.
   */
  lemma ResolvedUrls(browser: Browser, decode: Decoder, history: seq<string>, companyName: string)
    ensures var initial := Search(browser, decode, history, companyName);
            var fallback := Search(browser, decode, history + [companyName], FallbackQuery(companyName));
            var r := Resolve(browser, decode, history, companyName);
            r.rec.error.None? ==>
              && initial.Links?
              && r.rec.website == FirstLink(initial.links)
              && r.rec.linkedin == if FirstLinkedIn(initial.links).Some? then FirstLinkedIn(initial.links)
                                   else FirstLinkedIn(fallback.links)
  {
  }

  /**
   * When the fallback search fails, the website found by the initial search
   * is discarded: the record holds no URL at all.
   */
  lemma FallbackFailureDiscardsWebsite(browser: Browser, decode: Decoder, history: seq<string>, companyName: string)
    requires var initial := Search(browser, decode, history, companyName);
             initial.Links? && initial.links != [] && FirstLinkedIn(initial.links).None?
    requires Search(browser, decode, history + [companyName], FallbackQuery(companyName)).SearchFailed?
    ensures var r := Resolve(browser, decode, history, companyName);
            r.rec.website.None? && r.rec.linkedin.None? && r.rec.error.Some?
            && FirstLink(Search(browser, decode, history, companyName).links).Some?
  {
  }

  /**
   * With no LinkedIn link among the initial links and one among the fallback
   * links, the website comes from the initial search and the LinkedIn URL
   * from the fallback search.
   */
  lemma LinkedInFromFallback(browser: Browser, decode: Decoder, history: seq<string>, companyName: string,
                             initialLinks: seq<string>, fallbackLinks: seq<string>, k: nat)
    requires Search(browser, decode, history, companyName) == Links(initialLinks)
    requires Search(browser, decode, history + [companyName], FallbackQuery(companyName)) == Links(fallbackLinks)
    requires forall i :: 0 <= i < |initialLinks| ==> !IsLinkedInCompany(initialLinks[i])
    requires k < |fallbackLinks| && IsLinkedInCompany(fallbackLinks[k])
    requires forall j :: 0 <= j < k ==> !IsLinkedInCompany(fallbackLinks[j])
    ensures var r := Resolve(browser, decode, history, companyName);
            r.rec == Record(companyName, FirstLink(initialLinks), Some(fallbackLinks[k]), None)
  {
    var found := FirstLinkedIn(fallbackLinks);
    assert found.Some?;
    var m :| 0 <= m < |fallbackLinks| && fallbackLinks[m] == found.value && IsLinkedInCompany(found.value)
             && forall j :: 0 <= j < m ==> !IsLinkedInCompany(fallbackLinks[j]);
    assert m == k;
  }

  /** A LinkedIn link among the initial links means a single search for that company. */
  lemma InitialLinkedInMeansOneSearch(browser: Browser, decode: Decoder, history: seq<string>, companyName: string,
                                      initialLinks: seq<string>, k: nat)
    requires Search(browser, decode, history, companyName) == Links(initialLinks)
    requires k < |initialLinks| && IsLinkedInCompany(initialLinks[k])
    ensures Resolve(browser, decode, history, companyName).queries == [companyName]
  {
    assert FirstLinkedIn(initialLinks).Some?;
  }

  /**
   * Exactly one record per company name, in input order, each well formed
   * and each the resolution of its name from the history the earlier names
   * left behind.
   */
  lemma RecordsFollowNames(browser: Browser, decode: Decoder, history: seq<string>, companyNames: seq<string>)
    ensures var run := ResolveEach(browser, decode, history, companyNames);
            && |run.records| == |companyNames|
            && forall i :: 0 <= i < |companyNames| ==>
                 var before := ResolveEach(browser, decode, history, companyNames[..i]);
                 && run.records[i] == Resolve(browser, decode, history + before.queries, companyNames[i]).rec
                 && run.records[i].name == companyNames[i]
                 && WellFormed(run.records[i])
  {
    forall i | 0 <= i < |companyNames|
      ensures var before := ResolveEach(browser, decode, history, companyNames[..i]);
              var run := ResolveEach(browser, decode, history, companyNames);
              && run.records[i] == Resolve(browser, decode, history + before.queries, companyNames[i]).rec
              && run.records[i].name == companyNames[i]
              && WellFormed(run.records[i])
    {
      RunStepsAt(ResolveStep(browser, decode), history, companyNames, i);
    }
  }

  /** Each record carries its company's name and is well formed. */
  lemma RecordsKeepNames(browser: Browser, decode: Decoder, history: seq<string>, companyNames: seq<string>)
    ensures var records := ResolveEach(browser, decode, history, companyNames).records;
            && |records| == |companyNames|
            && forall i :: 0 <= i < |companyNames| ==> records[i].name == companyNames[i] && WellFormed(records[i])
  {
    RecordsFollowNames(browser, decode, history, companyNames);
  }

  /** Each company costs one or two searches. */
  lemma {:induction false} SearchesPerCompany(browser: Browser, decode: Decoder, history: seq<string>, companyNames: seq<string>)
    ensures var run := ResolveEach(browser, decode, history, companyNames);
            |companyNames| <= |run.queries| <= 2 * |companyNames|
    decreases |companyNames|
  {
    if companyNames != [] {
      var first := Resolve(browser, decode, history, companyNames[0]);
      SearchesPerCompany(browser, decode, history + first.queries, companyNames[1..]);
    }
  }
}
