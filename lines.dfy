/** How processFile cuts the whole input text into lines: the scanner run
    with '\n' as the delimiter, resuming just past each line break it
    stops at, until it reports done. */
module LineSplitting {

  import opened Text
  import opened Scanner

  /** The lines of text from index i on; the last one is the token of
      the scan that reported done. */
  function LinesFrom(text: string, i: nat, q: char): (lines: seq<string>)
    requires i <= |text|
    decreases |text| - i
    ensures |lines| >= 1
  {
    var r := Scan(text, i, '\n', q);
    [r.nextString] + if r.done then [] else LinesFrom(text, r.index + 1, q)
  }

  /** All lines of the text: the header line first, then the row lines. */
  function Lines(text: string, q: char): seq<string>
  {
    LinesFrom(text, 0, q)
  }

  /** The lines loop's view of the text: header and rows are the lines
      found so far, and unless the last scan reported done, the remaining
      lines start at cursor i. */
  predicate LinesSoFar(text: string, q: char, header: string, rows: seq<string>, i: int, done: bool)
  {
    if done then Lines(text, q) == [header] + rows
    else 0 < i <= |text| && Lines(text, q) == [header] + rows + LinesFrom(text, i, q)
  }

  /** The first scan of the line loop finds the header line. */
  lemma LinesStart(text: string, q: char, r: NextString)
    requires r == Scan(text, 0, '\n', q)
    ensures LinesSoFar(text, q, r.nextString, [], r.index + 1, r.done)
  {
    LinesFromStep(text, 0, q, r);
    assert [r.nextString] + [] == [r.nextString];
  }

  /** One step of the line loop: the next scan's token is the next row line. */
  lemma LinesAdvance(text: string, q: char, header: string, rows: seq<string>, i: int, r: NextString)
    requires LinesSoFar(text, q, header, rows, i, false)
    requires r == Scan(text, i, '\n', q)
    ensures LinesSoFar(text, q, header, rows + [r.nextString], r.index + 1, r.done)
  {
    LinesFromStep(text, i, q, r);
    AppendAssoc([header], rows, [r.nextString]);
    if !r.done {
      AppendAssoc([header] + rows, [r.nextString], LinesFrom(text, r.index + 1, q));
    }
  }

  lemma LinesFromStep(text: string, i: nat, q: char, r: NextString)
    requires i <= |text|
    requires r == Scan(text, i, '\n', q)
    ensures !r.done ==> r.index + 1 <= |text|
                        && LinesFrom(text, i, q) == [r.nextString] + LinesFrom(text, r.index + 1, q)
    ensures r.done ==> LinesFrom(text, i, q) == [r.nextString]
  {
  }

  /** Every line break kept inside a line is preceded, within that line,
      by an odd number of quotes: it was inside quotes. */
  predicate BreaksQuoted(line: string, q: char)
  {
    forall k :: 0 <= k < |line| && line[k] == '\n' ==> !Even(QuoteCount(line[..k], q))
  }

  lemma {:induction false} JoinLinesFrom(text: string, i: nat, q: char)
    requires i <= |text|
    ensures Join(LinesFrom(text, i, q), '\n') == text[i..]
    decreases |text| - i
  {
    ScanSpec(text, i, '\n', q);
    var r := Scan(text, i, '\n', q);
    if !r.done {
      JoinLinesFrom(text, r.index + 1, q);
      JoinCons(r.nextString, LinesFrom(text, r.index + 1, q), '\n');
      assert text[i..] == text[i..r.index] + ['\n'] + text[r.index + 1..];
    }
  }

  /** The header line and the row lines, joined with '\n', give back the
      input text: no character is lost or added by the line split. */
  lemma JoinLines(text: string, q: char)
    ensures Join(Lines(text, q), '\n') == text
  {
    JoinLinesFrom(text, 0, q);
  }

  lemma {:induction false} LinesFromBreaksQuoted(text: string, i: nat, q: char)
    requires i <= |text|
    requires q != '\n'
    ensures forall line :: line in LinesFrom(text, i, q) ==> BreaksQuoted(line, q)
    decreases |text| - i
  {
    ScanSpec(text, i, '\n', q);
    ScanDelimitersInsideQuotes(text, i, '\n', q);
    var r := Scan(text, i, '\n', q);
    if !r.done {
      LinesFromBreaksQuoted(text, r.index + 1, q);
    }
  }

  /** A line break kept inside a line lies inside quotes. */
  lemma LinesBreaksQuoted(text: string, q: char)
    requires q != '\n'
    ensures forall line :: line in Lines(text, q) ==> BreaksQuoted(line, q)
  {
    LinesFromBreaksQuoted(text, 0, q);
  }

  lemma {:induction false} LinesFromEndOutsideQuotes(text: string, i: nat, q: char)
    requires i <= |text|
    ensures var ls := LinesFrom(text, i, q);
      forall k :: 0 <= k < |ls| - 1 ==> Even(QuoteCount(ls[k], q))
    decreases |text| - i
  {
    var r := Scan(text, i, '\n', q);
    LinesFromStep(text, i, q, r);
    ScanStopsOutsideQuotes(text, i, '\n', q);
    if !r.done {
      var rest := LinesFrom(text, r.index + 1, q);
      LinesFromEndOutsideQuotes(text, r.index + 1, q);
      var ls := LinesFrom(text, i, q);
      forall k | 0 <= k < |ls| - 1
        ensures Even(QuoteCount(ls[k], q))
      {
        if k > 0 {
          assert ls[k] == rest[k - 1];
        }
      }
    }
  }

  /** The converse direction: a line break inside quotes never ends a
      line. Every line but the last holds an even number of quotes, so
      the break that ends it lies outside quotes. */
  lemma LinesEndOutsideQuotes(text: string, q: char)
    ensures var ls := Lines(text, q);
      forall k :: 0 <= k < |ls| - 1 ==> Even(QuoteCount(ls[k], q))
  {
    LinesFromEndOutsideQuotes(text, 0, q);
    assert Lines(text, q) == LinesFrom(text, 0, q);
  }

  /** One line on quote-free text ends at the first line break. */
  lemma LinesFromQuoteFreeStep(text: string, i: nat, q: char, k: nat)
    requires i <= |text| && q !in text[i..] && k == FirstDelimiter(text, i, '\n')
    ensures k < |text| ==> LinesFrom(text, i, q) == [text[i..k]] + LinesFrom(text, k + 1, q)
    ensures k == |text| ==> LinesFrom(text, i, q) == [text[i..]]
  {
    var r := Scan(text, i, '\n', q);
    ScanQuoteFree(text, i, '\n', q);
    LinesFromStep(text, i, q, r);
    if k == |text| {
      assert text[i..k] == text[i..];
    }
  }

  lemma {:induction false} LinesFromQuoteFree(text: string, i: nat, q: char)
    requires i <= |text|
    requires q !in text
    ensures LinesFrom(text, i, q) == SplitFrom(text, i, '\n')
    decreases |text| - i
  {
    var k := FirstDelimiter(text, i, '\n');
    assert q !in text[i..];
    LinesFromQuoteFreeStep(text, i, q, k);
    SplitFromStep(text, i, '\n', k);
    if k < |text| {
      LinesFromQuoteFree(text, k + 1, q);
    }
  }

  /** On text without the selected quote character, the lines are the
      plain split of the text on '\n'. */
  lemma LinesQuoteFree(text: string, q: char)
    requires q !in text
    ensures Lines(text, q) == Split(text, '\n')
  {
    LinesFromQuoteFree(text, 0, q);
  }
}
