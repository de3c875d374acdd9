/**
 * The input filter: the file's text is split on "\n" and the lines that are
 * empty once trimmed are dropped; the lines kept are NOT trimmed.
 */
module InputFile {
  import opened JsStrings
  import opened JsArrays

  /** `name.trim() !== ""` */
  predicate IsName(line: string) {
    Trim(line) != []
  }

  /** The company names read from the input text, in file order. */
  function CompanyNames(text: string): (names: seq<string>)
    ensures |names| <= |Split(text, '\n')|
    ensures forall i :: 0 <= i < |names| ==> IsName(names[i])
  {
    Filter(Split(text, '\n'), IsName)
  }

  /** A line is a name exactly when it holds a character that is not white space. */
  lemma IsNameIffNotAllSpace(line: string)
    ensures IsName(line) <==> !AllSpace(line)
  {
    TrimEmptyIffAllSpace(line);
  }

  /**
   * The names are exactly the lines of the text that are not all white space,
   * character for character (no trimming).
   */
  lemma NamesAreNonBlankLines(text: string, name: string)
    ensures name in CompanyNames(text) <==> name in Split(text, '\n') && !AllSpace(name)
  {
    FilterMember(Split(text, '\n'), IsName, name);
    IsNameIffNotAllSpace(name);
  }

  /** No name is all white space. */
  lemma NamesNotBlank(text: string)
    ensures forall i :: 0 <= i < |CompanyNames(text)| ==> !AllSpace(CompanyNames(text)[i])
  {
    var names := CompanyNames(text);
    forall i | 0 <= i < |names| ensures !AllSpace(names[i]) {
      IsNameIffNotAllSpace(names[i]);
    }
  }

  /** A text whose lines are all blank (an empty file, say) holds no names. */
  lemma AllBlankLinesGiveNoNames(text: string)
    requires forall i :: 0 <= i < |Split(text, '\n')| ==> AllSpace(Split(text, '\n')[i])
    ensures CompanyNames(text) == []
  {
    var lines := Split(text, '\n');
    forall i | 0 <= i < |lines| ensures !IsName(lines[i]) {
      IsNameIffNotAllSpace(lines[i]);
    }
    FilterDropsAll(lines, IsName);
  }

  /** A text without blank lines gives every line as a name, untrimmed. */
  lemma NoBlankLineKeepsEveryLine(text: string)
    requires forall i :: 0 <= i < |Split(text, '\n')| ==> !AllSpace(Split(text, '\n')[i])
    ensures CompanyNames(text) == Split(text, '\n')
  {
    var lines := Split(text, '\n');
    forall i | 0 <= i < |lines| ensures IsName(lines[i]) {
      IsNameIffNotAllSpace(lines[i]);
    }
    FilterKeepsAll(lines, IsName);
  }

  /** Names come out in the order their lines appear in the text. */
  lemma NamesInTextOrder(a: string, b: string)
    ensures CompanyNames(a + "\n" + b) == CompanyNames(a) + CompanyNames(b)
  {
    var lines := Split(a, '\n') + Split(b, '\n');
    SplitJoin(lines, '\n');
    JoinSplit(a, '\n');
    JoinSplit(b, '\n');
    JoinAppend(Split(a, '\n'), Split(b, '\n'), '\n');
    FilterAppend(Split(a, '\n'), Split(b, '\n'), IsName);
  }

  /** Between two names, an empty line is skipped and the names stay in order. */
  lemma BlankLineSkipped(a: string, b: string)
    requires IsName(a) && IsName(b)
    ensures Filter([a, "", b], IsName) == [a, b]
  {
    assert [a, "", b][1..] == ["", b];
    assert [a, "", b][1..][1..] == [b];
    assert Filter([b], IsName) == [b];
    assert Filter(["", b], IsName) == [b];
  }

  /**
   * A text of two names with an empty line between them (`Acme Corp`, ``,
   * `Globex Inc`) gives exactly those two names, in that order.
   */
  lemma TwoNamesAroundBlankLine(a: string, b: string)
    requires IsName(a) && IsName(b)
    requires '\n' !in a && '\n' !in b
    ensures CompanyNames(a + "\n\n" + b) == [a, b]
  {
    assert Join([a, "", b], '\n') == a + "\n\n" + b by {
      assert Join([b], '\n') == b;
      assert Join(["", b], '\n') == "\n" + b;
    }
    SplitJoin([a, "", b], '\n');
    BlankLineSkipped(a, b);
  }
}
