/**
 * The report: one row per record, in record order, numbered from 1, with
 * the error column empty for records that have no error. And the whole
 * program once the browser is given: names from the input text, one
 * session for every search, the rows.
 */
module Report {
  import opened Wrappers
  import opened JsStrings
  import opened SearchParams
  import opened InputFile
  import opened Resolver

  /** One CSV row: `S Number`, `Name`, `Website`, `LinkedIn`, `Error`. */
  datatype Row = Row(sNumber: nat, name: string, website: Option<string>, linkedIn: Option<string>, error: string)

  /** `result.error || ""` */
  function ErrorText(rec: Record): string {
    match rec.error
    case Some(message) => message
    case None => []
  }

  /** The rows for `records`, the first numbered `first`. */
  function RowsFrom(records: seq<Record>, first: nat): (rows: seq<Row>)
    ensures |rows| == |records|
    ensures forall i :: 0 <= i < |records| ==>
              && rows[i].sNumber == first + i
              && rows[i].name == records[i].name
              && rows[i].website == records[i].website
              && rows[i].linkedIn == records[i].linkedin
              && rows[i].error == ErrorText(records[i])
    decreases |records|
  {
    if records == [] then []
    else
      var rec := records[0];
      [Row(first, rec.name, rec.website, rec.linkedin, ErrorText(rec))] + RowsFrom(records[1..], first + 1)
  }

  /** `results.map((result, index) => ({"S Number": index + 1, ...}))` */
  function Rows(records: seq<Record>): (rows: seq<Row>)
    ensures |rows| == |records|
    ensures forall i :: 0 <= i < |records| ==> rows[i].sNumber == i + 1 && rows[i].name == records[i].name
  {
    RowsFrom(records, 1)
  }

  /**
   * Rows for two runs of records put together: the second run's numbers
   * continue where the first run's stop.
   */
  lemma RowsFromAppend(a: seq<Record>, b: seq<Record>, first: nat)
    ensures RowsFrom(a + b, first) == RowsFrom(a, first) + RowsFrom(b, first + |a|)
  {
    var whole, left, right := RowsFrom(a + b, first), RowsFrom(a, first), RowsFrom(b, first + |a|);
    forall i | 0 <= i < |whole| ensures whole[i] == (left + right)[i] {
      if i < |a| {
        assert (a + b)[i] == a[i];
      } else {
        assert (a + b)[i] == b[i - |a|];
      }
    }
  }

  /** The error column is empty exactly for records without an error (or with an empty message). */
  lemma ErrorColumn(rec: Record)
    ensures ErrorText(rec) == [] <==> rec.error.None? || rec.error == Some([])
    ensures rec.error.Some? ==> ErrorText(rec) == rec.error.value
  {
  }

  /** The program from the input text to the rows, the browser given. */
  method BuildReport(browser: Browser, decode: Decoder, inputText: string) returns (rows: seq<Row>)
    ensures rows == Rows(ResolveEach(browser, decode, [], CompanyNames(inputText)).records)
  {
    var companyNames := CompanyNames(inputText);
    var session := new Session(browser, decode);
    var results := ResolveAll(session, companyNames);
    rows := Rows(results);
  }

  /**
   * Rows of records that follow `names` one to one: row `i` is numbered
   * `i + 1` and carries name `i`; a row with a URL has an empty error column.
   */
  lemma RowsFollowRecords(records: seq<Record>, names: seq<string>)
    requires |records| == |names|
    requires forall i :: 0 <= i < |records| ==> records[i].name == names[i] && WellFormed(records[i])
    ensures var rows := Rows(records);
            && |rows| == |names|
            && forall i :: 0 <= i < |rows| ==>
                 && rows[i].sNumber == i + 1
                 && rows[i].name == names[i]
                 && (rows[i].website.Some? || rows[i].linkedIn.Some? ==> rows[i].error == [])
  {
    var rows := Rows(records);
    forall i | 0 <= i < |rows|
      ensures rows[i].website.Some? || rows[i].linkedIn.Some? ==> rows[i].error == []
    {
      assert WellFormed(records[i]);
    }
  }

  /**
   * Row `i` of the report is numbered `i + 1` and belongs to the `i`-th
   * non-blank line of the input; there are as many rows as such lines;
   * a row with a URL has an empty error column.
   */
  lemma RowsFollowInput(browser: Browser, decode: Decoder, inputText: string)
    ensures var names := CompanyNames(inputText);
            var rows := Rows(ResolveEach(browser, decode, [], names).records);
            && |rows| == |names|
            && forall i :: 0 <= i < |rows| ==>
                 && rows[i].sNumber == i + 1
                 && rows[i].name == names[i]
                 && !AllSpace(rows[i].name)
                 && (rows[i].website.Some? || rows[i].linkedIn.Some? ==> rows[i].error == [])
  {
    var names := CompanyNames(inputText);
    NamesNotBlank(inputText);
    RowsFollowNames(browser, decode, names);
  }

  /** `RowsFollowInput` for any list of names. */
  lemma RowsFollowNames(browser: Browser, decode: Decoder, names: seq<string>)
    ensures var rows := Rows(ResolveEach(browser, decode, [], names).records);
            && |rows| == |names|
            && forall i :: 0 <= i < |rows| ==>
                 && rows[i].sNumber == i + 1
                 && rows[i].name == names[i]
                 && (rows[i].website.Some? || rows[i].linkedIn.Some? ==> rows[i].error == [])
  {
    var records := ResolveEach(browser, decode, [], names).records;
    RecordsKeepNames(browser, decode, [], names);
    RowsFollowRecords(records, names);
  }

  /** An input whose lines are all blank gives an empty report, with no search at all. */
  lemma BlankInputGivesNoRows(browser: Browser, decode: Decoder, inputText: string)
    requires forall i :: 0 <= i < |Split(inputText, '\n')| ==> AllSpace(Split(inputText, '\n')[i])
    ensures var run := ResolveEach(browser, decode, [], CompanyNames(inputText));
            Rows(run.records) == [] && run.queries == []
  {
    AllBlankLinesGiveNoNames(inputText);
  }

  /** The input `Acme Corp`, an empty line, `Globex Inc` gives two rows, numbered 1 and 2. */
  lemma AcmeGlobexRows(browser: Browser, decode: Decoder, a: string, b: string)
    requires IsName(a) && IsName(b) && '\n' !in a && '\n' !in b
    ensures var rows := Rows(ResolveEach(browser, decode, [], CompanyNames(a + "\n\n" + b)).records);
            |rows| == 2 && rows[0].sNumber == 1 && rows[0].name == a
            && rows[1].sNumber == 2 && rows[1].name == b
  {
    TwoNamesAroundBlankLine(a, b);
    var records := ResolveEach(browser, decode, [], [a, b]).records;
    RecordsKeepNames(browser, decode, [], [a, b]);
    RowsFollowRecords(records, [a, b]);
  }
}
