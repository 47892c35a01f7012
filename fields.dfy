/** What the header loop (processHeaders) and the row loop (processLine)
    of ProcessInput compute, as pure functions over one line of text, and
    how the two relate. */
module Fields {

  import opened Text
  import opened Scanner

  /** The successive tokens of line from index i on: scan, keep the
      token, resume just past where the scan stopped, until the cursor
      reaches the end of the line. */
  function Tokens(line: string, i: nat, delimiter: char, q: char): seq<string>
    decreases |line| - i
  {
    if i >= |line| then []
    else
      var r := Scan(line, i, delimiter, q);
      [r.nextString] + Tokens(line, r.index + 1, delimiter, q)
  }

  /** n empty values. */
  function Padding(n: nat): (p: seq<string>)
    ensures |p| == n && forall k :: 0 <= k < n ==> p[k] == ""
  {
    seq(n, _ => "")
  }

  /** The n values the row loop collects from index i: one scan per
      value, whether or not the line has text left. */
  function RowValues(line: string, i: nat, n: nat, delimiter: char, q: char): (vals: seq<string>)
    decreases n
    ensures |vals| == n
  {
    if n == 0 then []
    else
      var r := Scan(line, i, delimiter, q);
      [r.nextString] + RowValues(line, r.index + 1, n - 1, delimiter, q)
  }

  /** A header line is empty exactly when it yields no columns. */
  lemma TokensEmptyIff(line: string, delimiter: char, q: char)
    ensures Tokens(line, 0, delimiter, q) == [] <==> line == ""
  {
  }

  /** One token of a quote-free line ends at the first delimiter. */
  lemma TokensQuoteFreeStep(line: string, i: nat, delimiter: char, q: char, k: nat)
    requires i < |line| && q !in line[i..] && k == FirstDelimiter(line, i, delimiter)
    ensures k < |line| ==> Tokens(line, i, delimiter, q) == [line[i..k]] + Tokens(line, k + 1, delimiter, q)
    ensures k == |line| ==> Tokens(line, i, delimiter, q) == [line[i..]]
  {
    var r := Scan(line, i, delimiter, q);
    ScanQuoteFree(line, i, delimiter, q);
    assert Tokens(line, i, delimiter, q) == [r.nextString] + Tokens(line, r.index + 1, delimiter, q);
    if k == |line| {
      assert line[i..k] == line[i..];
      assert Tokens(line, k + 1, delimiter, q) == [];
    }
  }

  /** On a line without the selected quote, the header tokens are the
      split of the line on the delimiter with one trailing empty piece
      dropped: "a," gives ["a"], "a,," gives ["a", ""] and "" gives []. */
  lemma {:induction false} TokensQuoteFreeFrom(line: string, i: nat, delimiter: char, q: char)
    requires i <= |line|
    requires q !in line
    ensures Tokens(line, i, delimiter, q) == DropTrailingEmpty(SplitFrom(line, i, delimiter))
    decreases |line| - i
  {
    var k := FirstDelimiter(line, i, delimiter);
    SplitFromStep(line, i, delimiter, k);
    if i == |line| {
      assert SplitFrom(line, i, delimiter) == [""];
      assert DropTrailingEmpty([""]) == [];
    } else {
      assert q !in line[i..];
      TokensQuoteFreeStep(line, i, delimiter, q, k);
      if k < |line| {
        var rest := SplitFrom(line, k + 1, delimiter);
        TokensQuoteFreeFrom(line, k + 1, delimiter, q);
        DropTrailingEmptyCons(line[i..k], rest);
      } else {
        assert line[i..] != "";
        assert DropTrailingEmpty([line[i..]]) == [line[i..]];
      }
    }
  }

  lemma TokensQuoteFree(line: string, delimiter: char, q: char)
    requires q !in line
    ensures Tokens(line, 0, delimiter, q) == DropTrailingEmpty(Split(line, delimiter))
  {
    TokensQuoteFreeFrom(line, 0, delimiter, q);
  }

  /** Cursor at or past the end of the line: every remaining value is "". */
  lemma {:induction false} RowValuesPastEnd(line: string, i: nat, n: nat, delimiter: char, q: char)
    requires i >= |line|
    ensures RowValues(line, i, n, delimiter, q) == Padding(n)
    decreases n
  {
    if n > 0 {
      RowValuesPastEnd(line, i + 1, n - 1, delimiter, q);
    }
  }

  /** The n values of a row are the first n tokens of the line, padded
      with "" when the line has fewer; tokens past the n-th are ignored. */
  lemma {:induction false} RowValuesAreTokens(line: string, i: nat, n: nat, delimiter: char, q: char)
    ensures RowValues(line, i, n, delimiter, q)
         == (Tokens(line, i, delimiter, q) + Padding(n))[..n]
    decreases n
  {
    if n == 0 {
    } else if i >= |line| {
      RowValuesPastEnd(line, i, n, delimiter, q);
    } else {
      var r := Scan(line, i, delimiter, q);
      var rest := Tokens(line, r.index + 1, delimiter, q);
      RowValuesAreTokens(line, r.index + 1, n - 1, delimiter, q);
      var lhs := RowValues(line, i, n, delimiter, q);
      var rhs := ([r.nextString] + rest + Padding(n))[..n];
      forall k | 0 <= k < n
        ensures lhs[k] == rhs[k]
      {
        if k > 0 {
          assert lhs[k] == (rest + Padding(n - 1))[k - 1];
        }
      }
      assert lhs == rhs;
    }
  }

  /** A row is read value by value: value k is token k of the line, or ""
      past the last token. */
  lemma RowValueAt(line: string, n: nat, k: nat, delimiter: char, q: char)
    requires k < n
    ensures var t := Tokens(line, 0, delimiter, q);
      RowValues(line, 0, n, delimiter, q)[k] == if k < |t| then t[k] else ""
  {
    RowValuesAreTokens(line, 0, n, delimiter, q);
  }

  /** An empty line gives a row of n empty values, not an empty row. */
  lemma BlankLineIsPadded(n: nat, delimiter: char, q: char)
    ensures RowValues("", 0, n, delimiter, q) == Padding(n)
  {
    RowValuesPastEnd("", 0, n, delimiter, q);
  }
}
