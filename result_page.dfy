/**
 * The link extraction run over a results page: for each `.results .result`
 * element, in page order, an entry with an ad badge gives nothing, an entry
 * without an `a.result__url` anchor gives nothing, and any other entry gives
 * the anchor's `uddg` parameter or, when that is missing or empty, the href.
 */
module ResultPage {
  import opened Wrappers
  import opened JsStrings
  import opened JsArrays
  import opened SearchParams

  /**
   * One result element: whether it holds a `button.badge--ad`, and the href
   * of its `a.result__url` anchor if it has one.
   */
  datatype ResultEntry = ResultEntry(hasAdBadge: bool, resultUrlHref: Option<string>)

  /** The query parameter of the search engine's outbound-link wrapper. */
  const RedirectParameter: string := "uddg"

  /** An entry that yields a link: no ad badge, and a result-URL anchor. */
  predicate YieldsLink(e: ResultEntry) {
    !e.hasAdBadge && e.resultUrlHref.Some?
  }

  /**
   * `new URLSearchParams(href).get("uddg") || href`: the parameter's value
   * when there is one and it is not empty, the href itself otherwise.
   */
  function LinkFromHref(href: string, decode: Decoder): string {
    match Get(FromString(href, decode), RedirectParameter)
    case Some(v) => if v != [] then v else href
    case None => href
  }

  /** The `map` callback: `null` for an ad or an entry without anchor. */
  function EntryLink(e: ResultEntry, decode: Decoder): (r: Option<string>)
    ensures r.Some? <==> YieldsLink(e)
    ensures r.Some? ==> r.value == LinkFromHref(e.resultUrlHref.value, decode)
  {
    if e.hasAdBadge then None
    else match e.resultUrlHref
      case None => None
      case Some(href) => Some(LinkFromHref(href, decode))
  }

  /** The `map` callback as a function value. */
  function EntryLinkOf(decode: Decoder): ResultEntry -> Option<string> {
    e => EntryLink(e, decode)
  }

  /** `results.map(EntryLink).filter((link) => link !== null)` */
  function ExtractLinks(entries: seq<ResultEntry>, decode: Decoder): (links: seq<string>)
    ensures |links| <= |entries|
  {
    Present(Map(entries, EntryLinkOf(decode)))
  }

  /**
   * Every link comes from an entry without ad badge that has a result-URL
   * anchor, and is that anchor's redirect target or href.
   */
  lemma LinksComeFromEntries(entries: seq<ResultEntry>, decode: Decoder, i: nat)
    requires i < |ExtractLinks(entries, decode)|
    ensures exists j :: 0 <= j < |entries| && YieldsLink(entries[j])
                        && ExtractLinks(entries, decode)[i] == LinkFromHref(entries[j].resultUrlHref.value, decode)
  {
    var mapped := Map(entries, EntryLinkOf(decode));
    var link := ExtractLinks(entries, decode)[i];
    var j :| 0 <= j < |mapped| && mapped[j] == Some(link);
    assert EntryLink(entries[j], decode) == Some(link);
  }

  /**
   * The link an href gives, in terms of the pairs the href parses to: when
   * pair `i` is the first one named `uddg`, its value if that is not empty
   * and the href otherwise; when no pair is named `uddg`, the href.
   */
  lemma LinkIsRedirectTargetOrHref(href: string, decode: Decoder)
    ensures var pairs := FromString(href, decode);
            forall i :: 0 <= i < |pairs| && pairs[i].0 == RedirectParameter
                        && (forall j :: 0 <= j < i ==> pairs[j].0 != RedirectParameter)
                        ==> LinkFromHref(href, decode) == if pairs[i].1 != [] then pairs[i].1 else href
    ensures var pairs := FromString(href, decode);
            (forall i :: 0 <= i < |pairs| ==> pairs[i].0 != RedirectParameter)
            ==> LinkFromHref(href, decode) == href
  {
    var pairs := FromString(href, decode);
    forall i | 0 <= i < |pairs| && pairs[i].0 == RedirectParameter
               && (forall j :: 0 <= j < i ==> pairs[j].0 != RedirectParameter)
      ensures LinkFromHref(href, decode) == if pairs[i].1 != [] then pairs[i].1 else href
    {
      GetFirstMatch(pairs, RedirectParameter, i);
    }
  }

  /** A page of one entry gives its link if it yields one, and nothing otherwise. */
  lemma ExtractSingle(e: ResultEntry, decode: Decoder)
    ensures ExtractLinks([e], decode)
            == if YieldsLink(e) then [LinkFromHref(e.resultUrlHref.value, decode)] else []
  {
    assert Map([e], EntryLinkOf(decode)) == [EntryLink(e, decode)];
  }

  /**
   * Extraction commutes with concatenation: links keep the page order of
   * their entries, with no sorting and no deduplication.
   */
  lemma ExtractAppend(a: seq<ResultEntry>, b: seq<ResultEntry>, decode: Decoder)
    ensures ExtractLinks(a + b, decode) == ExtractLinks(a, decode) + ExtractLinks(b, decode)
  {
    MapAppend(a, b, EntryLinkOf(decode));
    PresentAppend(Map(a, EntryLinkOf(decode)), Map(b, EntryLinkOf(decode)));
  }

  /** The number of entries that yield a link. */
  function CountYielding(entries: seq<ResultEntry>): nat {
    if entries == [] then 0
    else (if YieldsLink(entries[0]) then 1 else 0) + CountYielding(entries[1..])
  }

  /** Every entry that yields a link contributes exactly one: nothing is merged. */
  lemma {:induction false} ExtractCount(entries: seq<ResultEntry>, decode: Decoder)
    ensures |ExtractLinks(entries, decode)| == CountYielding(entries)
  {
    if entries != [] {
      assert entries == [entries[0]] + entries[1..];
      ExtractAppend([entries[0]], entries[1..], decode);
      ExtractSingle(entries[0], decode);
      ExtractCount(entries[1..], decode);
    }
  }

  /** A page whose entries all carry the ad badge gives no links. */
  lemma {:induction false} AllAdsGiveNoLinks(entries: seq<ResultEntry>, decode: Decoder)
    requires forall i :: 0 <= i < |entries| ==> entries[i].hasAdBadge
    ensures ExtractLinks(entries, decode) == []
  {
    if entries != [] {
      assert entries == [entries[0]] + entries[1..];
      ExtractAppend([entries[0]], entries[1..], decode);
      ExtractSingle(entries[0], decode);
      AllAdsGiveNoLinks(entries[1..], decode);
    }
  }

  /** When the first pair read from the href is a `uddg` pair with a non-empty value, that value is the link. */
  lemma FirstPairRedirect(href: string, decode: Decoder)
    requires var pairs := FromString(href, decode);
             |pairs| > 0 && pairs[0].0 == RedirectParameter && pairs[0].1 != []
    ensures LinkFromHref(href, decode) == FromString(href, decode)[0].1
  {
    GetFirst(FromString(href, decode), RedirectParameter);
  }

  /** When no pair read from the href is named `uddg`, the href itself is the link. */
  lemma NoRedirectPair(href: string, decode: Decoder)
    requires var pairs := FromString(href, decode);
             forall i :: 0 <= i < |pairs| ==> pairs[i].0 != RedirectParameter
    ensures LinkFromHref(href, decode) == href
  {
  }

  /** A query that starts with `uddg=` and a destination reads first as the pair (decoded `uddg`, decoded destination). */
  lemma RedirectFirstPair(v: string, rest: string, decode: Decoder)
    requires '&' !in v
    ensures var pairs := ParsePieces(Split(RedirectParameter + "=" + v + "&" + rest, '&'), decode);
            |pairs| > 0 && pairs[0] == (decode(PlusToSpace(RedirectParameter)), decode(PlusToSpace(v)))
  {
    var first := RedirectParameter + "=" + v;
    assert '&' !in first;
    FirstPieceFirstPair(first, rest, decode);
    CutAtFirstOfConcat(RedirectParameter, '=', v);
  }

  /**
   * An href that starts with `?uddg=` and a non-empty destination, followed by
   * `&` and any further parameters, gives the decoded destination.
   */
  lemma LeadingRedirectUnwrapped(href: string, query: string, v: string, rest: string, decode: Decoder)
    requires query == RedirectParameter + "=" + v + "&" + rest
    requires href == "?" + query
    requires '&' !in v
    requires decode(PlusToSpace(RedirectParameter)) == RedirectParameter
    requires decode(PlusToSpace(v)) != []
    ensures LinkFromHref(href, decode) == decode(PlusToSpace(v))
  {
    LeadingQuestionMarkDropped(query, decode);
    RedirectFirstPair(v, rest, decode);
    FirstPairRedirect(href, decode);
  }

  /**
   * An href without `&` whose text before its first "=" decodes to something
   * other than `uddg` is its own link.
   */
  lemma SingleForeignPairKeepsHref(key: string, v: string, decode: Decoder)
    requires key != [] && key[0] != '?'
    requires '&' !in key && '=' !in key && '&' !in v
    requires decode(PlusToSpace(key)) != RedirectParameter
    ensures LinkFromHref(key + "=" + v, decode) == key + "=" + v
  {
    SinglePair(key, v, decode);
    NoRedirectPair(key + "=" + v, decode);
  }

  /**
   * An href made of `&`-separated pieces whose piece `k` is `uddg=v`, no
   * earlier piece being named `uddg`, gives the decoded `v`: for an absolute
   * href this is the only way the lookup finds the parameter, as a later one
   * (`https://duckduckgo.com/l/?rut=r&uddg=v`).
   */
  lemma LaterRedirectUnwrapped(href: string, pieces: seq<string>, k: nat, v: string, decode: Decoder)
    requires href == Join(pieces, '&')
    requires forall i :: 0 <= i < |pieces| ==> pieces[i] != [] && '&' !in pieces[i]
    requires |pieces| >= 1 && pieces[0][0] != '?'
    requires k < |pieces| && pieces[k] == RedirectParameter + "=" + v
    requires forall j :: 0 <= j < k ==> ParsePair(pieces[j], decode).0 != RedirectParameter
    requires decode(PlusToSpace(RedirectParameter)) == RedirectParameter
    requires decode(PlusToSpace(v)) != []
    ensures LinkFromHref(href, decode) == decode(PlusToSpace(v))
  {
    FromStringJoin(pieces, decode);
    PairOfPiece(RedirectParameter, v, decode);
    LinkIsRedirectTargetOrHref(href, decode);
  }

  /**
   * An absolute redirector href such as `https://duckduckgo.com/l/?uddg=v&rut=r`
   * is NOT unwrapped: the whole href is read as a query string, so the name
   * of its first pair is everything before the first "=", which is not
   * `uddg`; when no later piece is named `uddg` either, the href itself is
   * the link.
   */
  lemma PrefixedRedirectNotUnwrapped(href: string, pieces: seq<string>, prefix: string, v: string, decode: Decoder)
    requires href == Join(pieces, '&')
    requires |pieces| >= 1 && pieces[0] == prefix + "?" + RedirectParameter + "=" + v
    requires prefix != [] && prefix[0] != '?' && '=' !in prefix
    requires forall i :: 0 <= i < |pieces| ==> pieces[i] != [] && '&' !in pieces[i]
    requires decode(PlusToSpace(prefix + "?" + RedirectParameter)) != RedirectParameter
    requires forall j :: 0 < j < |pieces| ==> ParsePair(pieces[j], decode).0 != RedirectParameter
    ensures LinkFromHref(href, decode) == href
  {
    var key := prefix + "?" + RedirectParameter;
    assert pieces[0] == key + "=" + v;
    assert pieces[0][0] == prefix[0];
    assert '=' !in key;
    FromStringJoin(pieces, decode);
    PairOfPiece(key, v, decode);
    LinkIsRedirectTargetOrHref(href, decode);
  }
}
