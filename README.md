# Company URL resolver — a Dafny model

The program reads a list of company names, one per line. For each company it runs a
search on DuckDuckGo's static-markup results page and takes the first non-sponsored
result link as the company's website. It then looks for a LinkedIn company page
(a link containing `linkedin.com/company`) among those links. If there is none, it runs a
second, fallback search for `<name> LinkedIn`. The results become a report with one row
per company: `S Number`, `Name`, `Website`, `LinkedIn`, `Error`.

This project models that pipeline in Dafny and proves what it does:

- `InputFile` (input_file.dfy): splitting the input text on `"\n"` and keeping the
  lines that are not blank once trimmed. Kept lines are not trimmed.
- `ResultPage` (result_page.dfy): extracting links from a results page. An entry
  with an ad badge gives nothing, and so does an entry without a result-URL anchor.
  Any other entry gives its href's `uddg` query parameter, or the href itself when
  that parameter is missing or empty.
- `SearchParams` (search_params.dfy): the parts of the URL query-string parser that
  the extraction relies on. Parsing a string strips one leading `?`, splits on `&`,
  drops empty pieces, cuts each piece at its first `=` and turns `+` into a space
  before percent-decoding. `get` returns the first pair with the given name.
- `Resolver` (resolver.dfy): the per-company resolution, covering the website choice,
  the LinkedIn scan, the fallback search and the try/catch that turns a failed search
  into an error record. It also models the loop over all names. One browser page is
  shared by every search: the `Session` class holds the history of queries sent
  through it, and each `PerformSearch` appends one query.
- `Report` (report.dfy): the CSV rows, numbered from 1 in input order, and
  `BuildReport`, the whole program from the input text to the rows.
- `JsStrings` and `JsArrays` (js_strings.dfy, js_arrays.dfy): the JavaScript built-ins
  the code uses, namely `trim`, `split`, `includes`, `map` and `filter`.

The browser is an oracle, `Browser = (history, query) -> PageLoad`. Given the queries
the page has already received and the new query, it returns either a load failure with
its message (a navigation or wait timeout) or the results page, as a sequence of
`ResultEntry` values. Because the answer depends on the history, the same query may get
different pages at different times. Percent-decoding is a parameter of type
`Decoder = string -> string`.

The `uddg` lookup (main.js:67-69) is evidently meant to unwrap the search engine's
outbound-link redirector, `https://duckduckgo.com/l/?uddg=<destination>&rut=...`, into
its destination. But the code gives the whole absolute `link.href` to
`new URLSearchParams(url)`, which reads its argument as a bare query string. The first
pair's name is then everything before the first `=`, that is
`https://duckduckgo.com/l/?uddg`, so a leading `uddg` parameter is never found and the
link is the redirector URL itself (`ResultPage.PrefixedRedirectNotUnwrapped`). The
lookup succeeds only when `uddg` comes after an `&`, as a later parameter
(`ResultPage.LaterRedirectUnwrapped`). The model follows the code as written.

## Model

| member | source | states |
|---|---|---|
| JsStrings.TrimStart | main.js:32 | the leading part of `trim`: the result is a suffix of the line, everything dropped is white space, and the result does not start with white space |
| JsStrings.TrimEnd | main.js:32 | the trailing part of `trim`: the result is a prefix of the line, everything dropped is white space, and the result does not end with white space |
| JsStrings.Trim | main.js:32 | `trim()` gives a string no longer than the line, neither starting nor ending with white space |
| JsStrings.TrimEmptyIffAllSpace | main.js:32 | `name.trim()` is empty if and only if every character of `name` is ECMAScript white space or a line terminator |
| JsStrings.Split | main.js:31 | `split("\n")` gives at least one piece, and no piece contains the separator |
| JsStrings.JoinSplit | main.js:31 | joining the pieces of `split` with the separator gives back the original text |
| JsStrings.SplitJoin | main.js:31 | splitting a join of separator-free pieces gives back exactly those pieces, empty ones included |
| JsStrings.JoinAppend | main.js:31 | joining two lists of lines one after the other puts exactly one separator between them |
| JsStrings.SplitWithoutSeparator | main.js:31 | a text without the separator splits into itself alone |
| JsStrings.PlusToSpace | main.js:68 | the query parser's `+` to space step keeps the length and changes only the `+` characters |
| JsStrings.CutAtFirst | main.js:68 | cutting a query piece at its first `=` gives a name without `=`. When `=` occurs, name + `=` + value is the piece; otherwise the value is empty |
| JsStrings.CutAtFirstOfConcat | main.js:68 | cutting `before + "=" + after` at `=` gives back `before` and `after` when `before` has no `=` |
| JsStrings.ContainsInfix | main.js:103 | `includes` holds of every string that sits inside the text, wherever it sits |
| JsStrings.ContainsNotInShorter | main.js:103 | `includes` never holds of a string longer than the text |
| JsArrays.Filter | main.js:32 | `filter` keeps no more elements than it was given, and every kept element passes the test |
| JsArrays.FilterMember | main.js:32 | an element is kept if and only if it is in the input and passes the test |
| JsArrays.FilterAppend | main.js:32 | filtering commutes with concatenation, so the order is kept |
| JsArrays.FilterKeepsAll | main.js:32 | when every element passes, `filter` returns the input unchanged (used for an input without blank lines) |
| JsArrays.FilterDropsAll | main.js:32 | when no element passes, `filter` returns the empty list (used for an all-blank input) |
| JsArrays.Map | main.js:61-72 | `map` has the input's length, and element `i` is the callback applied to element `i` |
| JsArrays.MapAppend | main.js:61-72 | `map` commutes with concatenation |
| JsArrays.Present | main.js:73 | `filter((link) => link !== null)` keeps no more elements than given, and each value kept was present in the input |
| JsArrays.PresentAppend | main.js:73 | dropping the nulls commutes with concatenation, so the order is kept |
| InputFile.CompanyNames | main.js:29-32 | the input filter gives no more names than the text has lines, and every name passes `name.trim() !== ""` |
| InputFile.IsNameIffNotAllSpace | main.js:32 | a line is kept if and only if it is not all white space |
| InputFile.NamesAreNonBlankLines | main.js:29-32 | a string is a company name if and only if it is a line of the text, untrimmed, that is not all white space |
| InputFile.NamesNotBlank | main.js:29-32 | no company name is all white space |
| InputFile.AllBlankLinesGiveNoNames | main.js:29-32 | a text whose lines are all blank, such as an empty file, gives no names |
| InputFile.NoBlankLineKeepsEveryLine | main.js:29-32 | a text without blank lines gives all of its lines as names, untrimmed and in order |
| InputFile.NamesInTextOrder | main.js:29-32 | the names of `a + "\n" + b` are the names of `a` followed by the names of `b`: file order, no dedup |
| InputFile.BlankLineSkipped | main.js:32 | an empty line between two names is dropped and the two names stay in order |
| InputFile.TwoNamesAroundBlankLine | main.js:29-32 | the text `a`, empty line, `b` (for instance `Acme Corp`, ``, `Globex Inc`) gives exactly the names `[a, b]` |
| SearchParams.ParsePieces | main.js:68 | the form-urlencoded parser gives at most one pair per `&`-separated piece |
| SearchParams.ParseOnePiece | main.js:68 | an empty piece gives no pair, and any other piece gives exactly its own pair |
| SearchParams.ParsePiecesAppend | main.js:68 | the parser works piece by piece: the pairs of `a + b` are those of `a` followed by those of `b` |
| SearchParams.ParseNonEmptyPieces | main.js:68 | non-empty pieces give one pair each, pair `i` from piece `i` |
| SearchParams.PairOfPiece | main.js:68 | `ParsePair` of a piece `name=value` whose name has no `=` is the decoded name and the decoded value; any later `=` stays in the value |
| SearchParams.PieceWithoutValue | main.js:68 | `ParsePair` of a piece without `=` is the decoded piece with the decoded empty value |
| SearchParams.FromStringJoin | main.js:68 | `new URLSearchParams(s)` for `s` made of non-empty `&`-free pieces joined by `&` (the first not starting with `?`) gives one pair per piece, in order |
| SearchParams.Get | main.js:69 | `get(name)` is absent if and only if no pair has that name. When present, it is the value of the first pair with that name |
| SearchParams.GetFirstMatch | main.js:69 | `get(name)` returns the value of the pair at the first index holding the name |
| SearchParams.GetFirst | main.js:69 | when the first pair has the name, `get` returns that pair's value |
| SearchParams.SinglePair | main.js:68 | a string `key=value` (no `&`, key without `=` and not starting with `?`) parses to the one pair of decoded key and decoded value |
| SearchParams.LeadingQuestionMarkDropped | main.js:68 | one leading `?` is stripped before the string is split into pieces |
| SearchParams.FirstPieceFirstPair | main.js:68 | the first non-empty `&`-piece gives the first pair, whatever follows it |
| ResultPage.EntryLink | main.js:61-72 | an entry gives a link if and only if it has no ad badge and has a result-URL anchor. The link is the one that anchor's href gives |
| ResultPage.ExtractLinks | main.js:59-74 | a page gives no more links than it has entries |
| ResultPage.LinksComeFromEntries | main.js:59-74 | every extracted link comes from an entry without an ad badge that has an anchor, and is the link that anchor's href gives |
| ResultPage.LinkIsRedirectTargetOrHref | main.js:67-69 | `LinkFromHref`, the `uddg` value or else the url, in terms of the href's parsed pairs: when pair `i` is the first named `uddg`, the link is its value if that is non-empty and the href otherwise; with no pair named `uddg`, the link is the href |
| ResultPage.ExtractSingle | main.js:59-74 | a one-entry page gives that entry's link if it yields one, and nothing otherwise |
| ResultPage.ExtractAppend | main.js:59-74 | extraction commutes with concatenation: links keep page order, with no sorting or deduplication |
| ResultPage.ExtractCount | main.js:59-74 | the number of links equals the number of entries with no ad badge and an anchor |
| ResultPage.AllAdsGiveNoLinks | main.js:62-63 | a page of ads only gives no links (an empty list, not an error) |
| ResultPage.FirstPairRedirect | main.js:68-69 | when the first parsed pair is a non-empty `uddg`, the link is its value |
| ResultPage.NoRedirectPair | main.js:68-69 | when no parsed pair is named `uddg`, the link is the href verbatim |
| ResultPage.RedirectFirstPair | main.js:68-69 | a query `uddg=v&...` parses with the decoded name `uddg` and the decoded `v` as its first pair |
| ResultPage.LeadingRedirectUnwrapped | main.js:67-69 | a relative query string `?uddg=v&rest` with a non-empty decoded `v` gives the decoded `v`; an anchor's absolute `href` never has this shape |
| ResultPage.SingleForeignPairKeepsHref | main.js:67-69 | an href of one pair whose name is not `uddg` gives the href verbatim |
| ResultPage.PrefixedRedirectNotUnwrapped | main.js:67-69 | an absolute redirector href `prefix?uddg=v&...` with no later piece named `uddg` gives the whole href, not its destination, because the first pair's name is `prefix?uddg` |
| ResultPage.LaterRedirectUnwrapped | main.js:67-69 | an href whose `&`-piece `k` is `uddg=v`, with no earlier piece named `uddg`, gives the decoded `v`: the only way an absolute href is unwrapped |
| Resolver.Search | main.js:42-78 | a search fails, with the oracle's message, if and only if the page load fails. Otherwise its links are those extracted from the loaded page |
| Resolver.FallbackQuery | main.js:116-119 | the fallback query is the company name followed by exactly the suffix ` LinkedIn` |
| Resolver.CompanyPageMatches | main.js:103 | `IsLinkedInCompany` holds of every link with `linkedin.com/company` anywhere in it |
| Resolver.ShortLinkNeverMatches | main.js:123 | `IsLinkedInCompany` holds of no link shorter than `linkedin.com/company` |
| Resolver.FirstLink | main.js:97 | the website is absent if and only if there are no links; otherwise it is the first link |
| Resolver.FirstLinkedIn | main.js:101-107 | the LinkedIn URL is absent if and only if no link contains `linkedin.com/company`. Otherwise it is the first link that does |
| Resolver.ErrorRecord | main.js:140-145 | the catch branch records the name and the message, with no website and no LinkedIn URL |
| Resolver.Resolve | main.js:90-146 | a company's record keeps its name and is well formed: an error record has no URL, and a LinkedIn URL matches the pattern. One or two queries are sent, the first the name and the second the fallback query |
| Resolver.RunSteps | main.js:89-147 | the loop produces exactly one record per name |
| Resolver.RunStepsAppend | main.js:89-147 | running over `a + b` is running over `a` and then over `b`, from the history `a` left behind |
| Resolver.RunStepsSnoc | main.js:89-147 | one more name appends exactly one record, and that name's queries go after all earlier ones |
| Resolver.RunStepsAt | main.js:89-147 | record `i` is the resolution of name `i` from the history the earlier names left, and its queries come right after theirs |
| Resolver.ResolveEach | main.js:89-147 | the run over all names has one record per name |
| Resolver.Session.constructor | main.js:85-86 | a fresh page over the given browser with no queries yet |
| Resolver.Session.PerformSearch | main.js:42-78 | the query is appended to the page's history, and the outcome is the search of that query from the earlier history |
| Resolver.FindLinkedIn | main.js:101-107 | the loop with `break` returns the first link containing `linkedin.com/company`, or nothing |
| Resolver.ResolveCompany | main.js:90-146 | the record is the one `Resolve` specifies, and the page history grows by exactly the queries `Resolve` lists |
| Resolver.ResolveAll | main.js:89-147 | the records and the page history are those of the run over all names, in order |
| Resolver.FallbackIffNoInitialLinkedIn | main.js:109-128 | the fallback search runs if and only if the initial search succeeded without a LinkedIn link, and its query is `name LinkedIn` |
| Resolver.ErrorIffSearchFailed | main.js:138-146 | a failed initial search, or a failed fallback search, gives an error record with that search's message. The record is an error if and only if one of them failed |
| Resolver.ResolvedUrls | main.js:94-137 | a successful record's website is the first initial link. Its LinkedIn URL is the first initial match or, when there is none, the first fallback match |
| Resolver.FallbackFailureDiscardsWebsite | main.js:110-146 | a failed fallback search discards the website that the initial search found |
| Resolver.LinkedInFromFallback | main.js:94-137 | with no initial match and a first fallback match at `k`, the record has the first initial link and fallback link `k` |
| Resolver.InitialLinkedInMeansOneSearch | main.js:100-110 | a LinkedIn link among the initial results means only one search for that company |
| Resolver.RecordsFollowNames | main.js:89-147 | record `i` resolves name `i` from the history the earlier names left, keeps that name, and is well formed |
| Resolver.RecordsKeepNames | main.js:89-147 | one record per name, in input order, each keeping its name and well formed; duplicate names give separate records |
| Resolver.SearchesPerCompany | main.js:89-147 | the run sends between one and two queries per company |
| Report.RowsFrom | main.js:150-156 | one row per record. Row `i` is numbered `first + i`, copies the name, website and LinkedIn URL, and has the error message or an empty error column |
| Report.Rows | main.js:150-156 | one row per record; row `i` has `S Number` `i + 1` and the record's name |
| Report.RowsFromAppend | main.js:150-156 | the rows of two runs of records put together are numbered on from the first run |
| Report.ErrorColumn | main.js:155 | `ErrorText`, the error column (the message, or else the empty string), is empty if and only if the record has no error or an empty message, and is the message otherwise |
| Report.BuildReport | main.js:27-156 | the program's rows are those of the run over the input's names, from a fresh page |
| Report.RowsFollowRecords | main.js:150-156 | rows are numbered from 1 in record order, carry the record's name, and a row with a URL has an empty error column |
| Report.RowsFollowNames | main.js:89-156 | there is one row per name. Row `i` is numbered `i + 1` and carries name `i`; a row with a URL has no error |
| Report.RowsFollowInput | main.js:27-156 | there is one row per non-blank input line. Row `i` is numbered `i + 1`, carries line `i` and is not blank; a row with a URL has no error |
| Report.BlankInputGivesNoRows | main.js:27-156 | an input whose lines are all blank gives an empty report and sends no search |
| Report.AcmeGlobexRows | main.js:27-156 | the input `a`, empty line, `b` gives two rows: 1 for `a` and 2 for `b` |

## Left out

- Command-line parsing with yargs and the exit when `--input` or `--output` is missing (main.js:1-13): process glue with no decisions to model.
- Reading the input file and its failure (main.js:28-36), and writing the CSV file and its failure (main.js:160-166): file I/O. The model starts from the file's text and ends with the rows.
- Launching the browser and closing it (main.js:80-86, 168-170): the page is the `Session` object, with the browser as an oracle parameter.
- Inside `performSearch` (main.js:42-56): navigating, clearing the field, typing, pressing Enter and waiting for `.results` are not modelled. Their only effect that matters, a loaded page or a failure with a message, is what the `Browser` oracle returns.
- The randomized delay (main.js:20-24): timing and `Math.random` only pace the requests, and no result depends on them.
- The DOM itself, and the conversion of an anchor into its absolute `href`: a result entry is reduced to whether it has an ad badge, plus the href string of its anchor.
- Percent-decoding: it is the `Decoder` parameter, and no lemma depends on its definition.
- CSV serialization with csv-stringify, the header row, and the rendering of absent values as empty fields (main.js:17, 158): the model stops at the row values, where an absent URL is `None`.
- Console logging (main.js:43, 76, 91, 98, 111-113, 130, 139): it has no effect on the results.
- Exceptions other than a failed page load inside the try block: in this code, only the awaited browser calls can throw.
- Resolver.FindLinkedIn: `includes` is modelled on code points (`seq<char>`), not on UTF-16 code units; the result is the same for an ASCII pattern.
- Report.BuildReport: the promise is stated about the rows before CSV encoding, not about the bytes written.
- SearchParams.Get: only what the program relies on is modelled, the string form of the query-string parser and `get`. The rest of that API is not modelled.
