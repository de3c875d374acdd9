/**
 * `new URLSearchParams(s).get(name)` for a string `s`, as the WHATWG URL
 * Standard defines it: a leading "?" is dropped (the URLSearchParams
 * constructor, section 6.2) and the rest is read by the
 * application/x-www-form-urlencoded parser (section 5.1). Percent-decoding
 * (with the UTF-8 decoding that follows it) is a parameter: `decode`.
 */
module SearchParams {
  import opened Wrappers
  import opened JsStrings

  /** Percent-decoding followed by UTF-8 decoding, left abstract. */
  type Decoder = string -> string

  /** One name-value pair read from a non-empty `&`-separated piece. */
  function ParsePair(piece: string, decode: Decoder): (pair: (string, string))
  {
    var (name, value) := CutAtFirst(piece, '=');
    (decode(PlusToSpace(name)), decode(PlusToSpace(value)))
  }

  /** The form-urlencoded parser over the pieces between `&`s: empty pieces are skipped. */
  function ParsePieces(pieces: seq<string>, decode: Decoder): (pairs: seq<(string, string)>)
    ensures |pairs| <= |pieces|
  {
    if pieces == [] then []
    else if pieces[0] == [] then ParsePieces(pieces[1..], decode)
    else [ParsePair(pieces[0], decode)] + ParsePieces(pieces[1..], decode)
  }

  /** A piece `name=value` whose name has no `=` reads as (decoded name, decoded value); later `=`s stay in the value. */
  lemma PairOfPiece(name: string, value: string, decode: Decoder)
    requires '=' !in name
    ensures ParsePair(name + "=" + value, decode) == (decode(PlusToSpace(name)), decode(PlusToSpace(value)))
  {
    CutAtFirstOfConcat(name, '=', value);
  }

  /** A piece without `=` is a name whose value is the decoded empty string. */
  lemma PieceWithoutValue(piece: string, decode: Decoder)
    requires '=' !in piece
    ensures ParsePair(piece, decode) == (decode(PlusToSpace(piece)), decode([]))
  {
  }

  /** A single piece gives no pair when it is empty and its own pair otherwise. */
  lemma ParseOnePiece(piece: string, decode: Decoder)
    ensures ParsePieces([piece], decode) == if piece == [] then [] else [ParsePair(piece, decode)]
  {
    assert [piece][1..] == [];
  }

  /** The parser works piece by piece: the pairs of `a + b` are those of `a` followed by those of `b`. */
  lemma {:induction false} ParsePiecesAppend(a: seq<string>, b: seq<string>, decode: Decoder)
    ensures ParsePieces(a + b, decode) == ParsePieces(a, decode) + ParsePieces(b, decode)
    decreases |a|
  {
    if a == [] {
      assert a + b == b;
    } else {
      assert (a + b)[0] == a[0] && (a + b)[1..] == a[1..] + b;
      ParsePiecesAppend(a[1..], b, decode);
    }
  }

  /** Non-empty pieces give one pair each, in order. */
  lemma {:induction false} ParseNonEmptyPieces(pieces: seq<string>, decode: Decoder)
    requires forall i :: 0 <= i < |pieces| ==> pieces[i] != []
    ensures var pairs := ParsePieces(pieces, decode);
            |pairs| == |pieces| && forall i :: 0 <= i < |pieces| ==> pairs[i] == ParsePair(pieces[i], decode)
    decreases |pieces|
  {
    if pieces != [] {
      assert pieces[0] != [];
      ParseNonEmptyPieces(pieces[1..], decode);
      var pairs := ParsePieces(pieces, decode);
      forall i | 0 <= i < |pieces| ensures pairs[i] == ParsePair(pieces[i], decode) {
        if i > 0 { assert pieces[i] == pieces[1..][i - 1]; }
      }
    }
  }


  function FromString(init: string, decode: Decoder): seq<(string, string)> {
    var query := if |init| > 0 && init[0] == '?' then init[1..] else init;
    ParsePieces(Split(query, '&'), decode)
  }

  /**
   * Non-empty, `&`-free pieces joined with `&` (the first not starting with
   * `?`) read back as one pair per piece, in order.
   */
  lemma FromStringJoin(pieces: seq<string>, decode: Decoder)
    requires |pieces| >= 1
    requires forall i :: 0 <= i < |pieces| ==> pieces[i] != [] && '&' !in pieces[i]
    requires pieces[0][0] != '?'
    ensures var pairs := FromString(Join(pieces, '&'), decode);
            |pairs| == |pieces| && forall i :: 0 <= i < |pieces| ==> pairs[i] == ParsePair(pieces[i], decode)
  {
    var s := Join(pieces, '&');
    assert s[0] == pieces[0][0] by {
      if |pieces| > 1 {
        assert s == pieces[0] + ['&'] + Join(pieces[1..], '&');
      }
    }
    SplitJoin(pieces, '&');
    ParseNonEmptyPieces(pieces, decode);
  }

  /** `params.get(name)`: the value of the FIRST pair with that name, or `null`. */
  function Get(pairs: seq<(string, string)>, name: string): (r: Option<string>)
    ensures r.None? <==> forall i :: 0 <= i < |pairs| ==> pairs[i].0 != name
    ensures r.Some? ==> exists i :: 0 <= i < |pairs| && pairs[i] == (name, r.value)
                                    && forall j :: 0 <= j < i ==> pairs[j].0 != name
  {
    if pairs == [] then None
    else if pairs[0].0 == name then Some(pairs[0].1)
    else
      var r := Get(pairs[1..], name);
      assert r.Some? ==> exists i :: 0 <= i < |pairs| && pairs[i] == (name, r.value)
                                    && forall j :: 0 <= j < i ==> pairs[j].0 != name by {
        if r.Some? {
          var k :| 0 <= k < |pairs| - 1 && pairs[1..][k] == (name, r.value)
                   && forall j :: 0 <= j < k ==> pairs[1..][j].0 != name;
          assert pairs[k + 1] == (name, r.value);
          assert forall j :: 0 <= j < k + 1 ==> pairs[j].0 != name by {
            forall j | 0 <= j < k + 1 ensures pairs[j].0 != name {
              if j > 0 { assert pairs[j] == pairs[1..][j - 1]; }
            }
          }
        }
      }
      r
  }

  /** `get` returns the value of the pair at the first index holding the name. */
  lemma GetFirstMatch(pairs: seq<(string, string)>, name: string, i: nat)
    requires i < |pairs| && pairs[i].0 == name
    requires forall j :: 0 <= j < i ==> pairs[j].0 != name
    ensures Get(pairs, name) == Some(pairs[i].1)
  {
    var r := Get(pairs, name);
    var k :| 0 <= k < |pairs| && pairs[k] == (name, r.value)
             && forall j :: 0 <= j < k ==> pairs[j].0 != name;
    assert k == i;
  }

  /** A list whose first pair has the name gives that pair's value. */
  lemma GetFirst(pairs: seq<(string, string)>, name: string)
    requires |pairs| > 0 && pairs[0].0 == name
    ensures Get(pairs, name) == Some(pairs[0].1)
  {
  }

  /**
   * A string with no `&` whose first `=` follows `key` reads as the single
   * pair (decoded `key`, decoded rest): the whole text before the `=` is the
   * name, however much of a URL it holds.
   */
  lemma {:induction false} SinglePair(key: string, value: string, decode: Decoder)
    requires '&' !in key && '=' !in key && '&' !in value
    requires key == [] || key[0] != '?'
    ensures FromString(key + "=" + value, decode)
            == [(decode(PlusToSpace(key)), decode(PlusToSpace(value)))]
  {
    var s := key + "=" + value;
    assert '&' !in s;
    SplitWithoutSeparator(s, '&');
    assert s[0] != '?' by {
      if key == [] { assert s[0] == '='; }
    }
    CutAtFirstOfConcat(key, '=', value);
    assert ParsePieces([s], decode) == [ParsePair(s, decode)] + ParsePieces([], decode);
  }

  /** The constructor drops one leading "?" and parses the rest. */
  lemma LeadingQuestionMarkDropped(query: string, decode: Decoder)
    ensures FromString("?" + query, decode) == ParsePieces(Split(query, '&'), decode)
  {
    assert ("?" + query)[1..] == query;
  }

  /**
   * Adding further `&`-separated pairs after a first piece does not change
   * the first pair.
   */
  lemma {:induction false} FirstPieceFirstPair(first: string, rest: string, decode: Decoder)
    requires first != [] && '&' !in first
    ensures var pairs := ParsePieces(Split(first + "&" + rest, '&'), decode);
            |pairs| > 0 && pairs[0] == ParsePair(first, decode)
  {
    var parts := [first] + Split(rest, '&');
    SplitJoin(parts, '&');
    JoinSplit(rest, '&');
    assert Join(parts, '&') == first + "&" + rest by {
      assert parts[1..] == Split(rest, '&');
    }
  }
}
