/** The quote-aware scanner of ProcessInput.getNextString, as a pure
    specification. The imperative scanner (a method with a loop) lives in
    the ProcessInput class and is proved equal to Scan. */
module Scanner {

  import opened Text

  /** The record getNextString returns: whether the end of the text was
      reached, the index it stopped at, and the token it collected. */
  datatype NextString = NextString(done: bool, index: int, nextString: string)

  /** The quote character the scanner toggles parity on: a single quote
      when useSingleQuotes is truthy, a double quote otherwise. */
  function QuoteChar(useSingleQuotes: bool): char
  {
    if useSingleQuotes then '\'' else '"'
  }

  /** Number of quote characters q in s. */
  function QuoteCount(s: string, q: char): nat
  {
    multiset(s)[q]
  }

  predicate Even(n: nat)
  {
    n % 2 == 0
  }

  /** Position j (at or after start) ends a token when it holds the
      delimiter, the delimiter is not itself the quote character (a quote
      is always tested first), and the text scanned so far holds an even
      number of quotes, i.e. the scan is outside quotes. */
  predicate IsSeparator(line: string, start: nat, j: nat, delimiter: char, q: char)
    requires start <= j < |line|
  {
    line[j] == delimiter && line[j] != q && Even(QuoteCount(line[start..j], q))
  }

  /** One step of the scanner loop per character: i is the cursor,
      matched is the parity flag (true means outside quotes) and acc the
      token built so far. */
  function ScanFrom(line: string, i: nat, delimiter: char, q: char, matched: bool, acc: string): (r: NextString)
    decreases |line| - i
    ensures i <= |line| ==> i <= r.index <= |line|
    ensures i > |line| ==> r.index == i
    ensures r.done <==> r.index >= |line|
  {
    if i >= |line| then NextString(true, i, acc)
    else if line[i] == q then ScanFrom(line, i + 1, delimiter, q, !matched, acc + [line[i]])
    else if line[i] == delimiter && matched then NextString(false, i, acc)
    else ScanFrom(line, i + 1, delimiter, q, matched, acc + [line[i]])
  }

  /** The scanner started at index: parity starts outside quotes and the
      token starts empty on every call. */
  function Scan(line: string, index: nat, delimiter: char, q: char): NextString
  {
    ScanFrom(line, index, delimiter, q, true, "")
  }

  lemma QuoteCountSnoc(s: string, c: char, q: char)
    ensures QuoteCount(s + [c], q) == QuoteCount(s, q) + (if c == q then 1 else 0)
  {
    assert multiset(s + [c]) == multiset(s) + multiset{c};
  }

  /** Invariant of the scanner loop, carried through the recursion: the
      accumulated token is the slice from start, the parity flag is the
      parity of the quotes in it, and no separator was passed. */
  lemma {:induction false} ScanFromSpec(line: string, start: nat, i: nat, delimiter: char, q: char, matched: bool, acc: string)
    requires start <= i <= |line|
    requires acc == line[start..i]
    requires matched == Even(QuoteCount(acc, q))
    requires forall j :: start <= j < i ==> !IsSeparator(line, start, j, delimiter, q)
    ensures var r := ScanFrom(line, i, delimiter, q, matched, acc);
      && r.nextString == line[start..r.index]
      && (!r.done ==> IsSeparator(line, start, r.index, delimiter, q))
      && (forall j :: start <= j < r.index ==> !IsSeparator(line, start, j, delimiter, q))
    decreases |line| - i
  {
    if i < |line| {
      var c := line[i];
      assert line[start..i + 1] == acc + [c];
      QuoteCountSnoc(acc, c, q);
      if c == q {
        ScanFromSpec(line, start, i + 1, delimiter, q, !matched, acc + [c]);
      } else if c == delimiter && matched {
      } else {
        ScanFromSpec(line, start, i + 1, delimiter, q, matched, acc + [c]);
      }
    }
  }

  /** The scanner's contract, started inside the text: it stops at the
      first separator after index, or at the end of the text, and the
      token is exactly the text in between, quotes and quoted delimiters
      kept verbatim. */
  lemma ScanSpec(line: string, index: nat, delimiter: char, q: char)
    requires index <= |line|
    ensures var r := Scan(line, index, delimiter, q);
      && index <= r.index <= |line|
      && (r.done <==> r.index == |line|)
      && r.nextString == line[index..r.index]
      && (!r.done ==> IsSeparator(line, index, r.index, delimiter, q))
      && (forall j :: index <= j < r.index ==> !IsSeparator(line, index, j, delimiter, q))
  {
    ScanFromSpec(line, index, index, delimiter, q, true, "");
  }

  /** Started past the end, the scanner returns an empty token, the start
      index unchanged, and done. */
  lemma ScanPastEnd(line: string, index: nat, delimiter: char, q: char)
    requires index > |line|
    ensures Scan(line, index, delimiter, q) == NextString(true, index, "")
  {
  }

  /** When the scan stops before the end, it stops on the delimiter and
      the token holds an even number of quotes. */
  lemma ScanStopsOutsideQuotes(line: string, index: nat, delimiter: char, q: char)
    requires index <= |line|
    ensures var r := Scan(line, index, delimiter, q);
      !r.done ==> r.index < |line| && line[r.index] == delimiter && Even(QuoteCount(r.nextString, q))
  {
    ScanSpec(line, index, delimiter, q);
  }

  /** Every delimiter kept inside a token is preceded, within the token,
      by an odd number of quotes. */
  lemma ScanDelimitersInsideQuotes(line: string, index: nat, delimiter: char, q: char)
    requires index <= |line|
    requires delimiter != q
    ensures var t := Scan(line, index, delimiter, q).nextString;
      forall k :: 0 <= k < |t| && t[k] == delimiter ==> !Even(QuoteCount(t[..k], q))
  {
    ScanSpec(line, index, delimiter, q);
    var r := Scan(line, index, delimiter, q);
    var t := r.nextString;
    forall k | 0 <= k < |t| && t[k] == delimiter
      ensures !Even(QuoteCount(t[..k], q))
    {
      assert t[..k] == line[index..index + k];
      assert !IsSeparator(line, index, index + k, delimiter, q);
    }
  }

  /** On text without the selected quote character (the other quote
      character may occur: it is ordinary content), the scanner stops at
      the very first delimiter. */
  lemma ScanQuoteFree(line: string, index: nat, delimiter: char, q: char)
    requires index <= |line|
    requires q !in line[index..]
    ensures var k := FirstDelimiter(line, index, delimiter);
      Scan(line, index, delimiter, q) == NextString(k == |line|, k, line[index..k])
  {
    ScanSpec(line, index, delimiter, q);
    var r := Scan(line, index, delimiter, q);
    var k := FirstDelimiter(line, index, delimiter);
    assert forall j :: index <= j < |line| ==> line[index..j] == line[index..][..j - index];
    forall j | index <= j < |line|
      ensures QuoteCount(line[index..j], q) == 0
    {
      assert q !in line[index..j];
    }
    if k < |line| {
      assert line[k] == line[index..][k - index];
      assert IsSeparator(line, index, k, delimiter, q);
    }
  }

  /** Two texts of the same length with the selected quote character and
      the delimiter at the same positions. */
  predicate SameShape(a: string, b: string, delimiter: char, q: char)
  {
    && |a| == |b|
    && forall j :: 0 <= j < |a| ==> (a[j] == q <==> b[j] == q) && (a[j] == delimiter <==> b[j] == delimiter)
  }

  lemma {:induction false} ScanFromSameShape(a: string, b: string, i: nat, delimiter: char, q: char,
                                             matched: bool, accA: string, accB: string)
    requires SameShape(a, b, delimiter, q)
    ensures var ra := ScanFrom(a, i, delimiter, q, matched, accA);
      var rb := ScanFrom(b, i, delimiter, q, matched, accB);
      ra.done == rb.done && ra.index == rb.index
    decreases |a| - i
  {
    if i < |a| {
      if a[i] == q {
        ScanFromSameShape(a, b, i + 1, delimiter, q, !matched, accA + [a[i]], accB + [b[i]]);
      } else if a[i] == delimiter && matched {
      } else {
        ScanFromSameShape(a, b, i + 1, delimiter, q, matched, accA + [a[i]], accB + [b[i]]);
      }
    }
  }

  /** Only the selected quote character and the delimiter steer the
      scanner: every other character, the other quote character included,
      is ordinary content, so changing it moves neither the stop index nor
      the done flag. */
  lemma ScanOnlySeesQuoteAndDelimiter(a: string, b: string, index: nat, delimiter: char, q: char)
    requires SameShape(a, b, delimiter, q)
    ensures Scan(a, index, delimiter, q).index == Scan(b, index, delimiter, q).index
    ensures Scan(a, index, delimiter, q).done == Scan(b, index, delimiter, q).done
  {
    ScanFromSameShape(a, b, index, delimiter, q, true, "", "");
  }
}
