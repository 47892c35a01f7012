/** The ProcessInput service: reads delimited text, parses its header line
    into columns and hands every later line's (columns, vals) to the output
    sink, through an optional input transform. */
module ProcessInputService {

  import opened Scanner
  import opened Fields
  import opened LineSplitting
  import opened Pipeline
  import opened ProcessOutputService

  /** The string[] a caller owns and processLine fills in place. */
  class ValueArray {
    var items: seq<string>

    constructor ()
      ensures items == []
    {
      items := [];
    }

    method Push(s: string)
      modifies this
      ensures items == old(items) + [s]
    {
      items := items + [s];
    }
  }

  /** How many values must be added to a row of have values to reach want. */
  function Deficit(have: nat, want: nat): nat
  {
    if have < want then want - have else 0
  }

  class ProcessInput {
    const output: ProcessOutput
    var columns: seq<string>

    constructor (output: ProcessOutput)
      ensures this.output == output && columns == []
    {
      this.output := output;
      columns := [];
    }

    /** Reads the text (or the error reading it failed with) and hands
        each row line to the output. The header line is split with the
        line-level quote choice, but columns and values always with the
        double quote: useSingleQuotes is not passed on. */
    method ProcessFile(file: Result<string>, transform: TransformInput, useSingleQuotes: bool)
      returns (settled: Settlement)
      modifies this, output
      ensures file.Err? ==> settled == Rejected(file.error) && columns == []
                            && output.received == old(output.received)
      ensures file.Ok? ==>
        var lines := Lines(file.value, QuoteChar(useSingleQuotes));
        var steps := Steps(columns, lines[1..], transform, output.rejects);
        && columns == Tokens(lines[0], 0, ',', FieldQuote)
        && output.received == old(output.received) + Delivered(steps)
        && settled == Outcome(steps)
    {
      columns := [];
      if file.Err? {
        settled := Reject(Pending, file.error);
        return;
      }
      var str := file.value;
      ghost var q := QuoteChar(useSingleQuotes);
      var line := GetNextString(str, 0, '\n', useSingleQuotes);
      LinesStart(str, q, line);
      ghost var header := line.nextString;
      ghost var rows: seq<string> := [];
      ProcessHeaders(line.nextString, false);
      var i := line.index + 1;
      var promise := Pending;
      while !line.done
        invariant columns == Tokens(header, 0, ',', FieldQuote)
        invariant LinesSoFar(str, q, header, rows, i, line.done)
        invariant !line.done ==> 0 < i <= |str|
        invariant RowsSoFar(columns, rows, transform, output.rejects, old(output.received), output.received, promise)
        decreases if line.done then 0 else |str| + 1 - i
      {
        line := GetNextString(str, i, '\n', useSingleQuotes);
        ghost var cursor := i;
        i := line.index + 1;
        LinesAdvance(str, q, header, rows, cursor, line);
        RowsAdvance(columns, rows, line.nextString, transform, output.rejects,
                    old(output.received), output.received, promise);
        promise := ForwardRow(line.nextString, transform, promise);
        rows := rows + [line.nextString];
      }
      assert Lines(str, q)[0] == header && Lines(str, q)[1..] == rows;
      settled := Resolve(promise);
    }

    /** The body of the row loop: collects the values of one row line and,
        when there are any, hands the transformed row to the output; a
        failure of the transform or of the write is passed to reject. */
    method ForwardRow(line: string, transform: TransformInput, promise: Settlement)
      returns (promise': Settlement)
      modifies output
      ensures var step := StepOf(columns, line, transform, output.rejects);
        && output.received == old(output.received) + Sent(step)
        && promise' == Record(promise, step)
    {
      promise' := promise;
      var vals := new ValueArray();
      ProcessLine(vals, line, 0, false);
      assert Deficit(0, |columns|) == |columns|;
      assert vals.items == RowOf(columns, line);
      if |vals.items| > 0 {
        var transformed := Apply(transform, columns, vals.items);
        if transformed.Err? {
          promise' := Reject(promise', transformed.error);
        } else {
          var failure := output.AddLine(transformed.value.columns, transformed.value.vals);
          if failure.Some? {
            promise' := Reject(promise', failure.value);
          }
        }
      }
    }

    /** Appends the tokens of the header line to columns. */
    method ProcessHeaders(line: string, useSingleQuotes: bool)
      modifies this
      ensures columns == old(columns) + Tokens(line, 0, ',', QuoteChar(useSingleQuotes))
    {
      ghost var q := QuoteChar(useSingleQuotes);
      var i := 0;
      while i < |line|
        invariant 0 <= i
        invariant old(columns) + Tokens(line, 0, ',', q) == columns + Tokens(line, i, ',', q)
        decreases |line| - i
      {
        var header := GetNextString(line, i, ',', useSingleQuotes);
        columns := columns + [header.nextString];
        i := header.index + 1;
      }
    }

    /** Fills vals with the values of line from index on, until vals holds
        as many values as there are columns. A negative index collects
        nothing. */
    method ProcessLine(vals: ValueArray, line: string, index: int, useSingleQuotes: bool)
      modifies vals
      ensures index < 0 ==> vals.items == old(vals.items)
      ensures index >= 0 ==>
        vals.items == old(vals.items)
                      + RowValues(line, index, Deficit(|old(vals.items)|, |columns|), ',', QuoteChar(useSingleQuotes))
    {
      ghost var q := QuoteChar(useSingleQuotes);
      var i := index;
      while |vals.items| < |columns| && i >= 0
        invariant index < 0 ==> i == index && vals.items == old(vals.items)
        invariant index >= 0 ==> i >= 0
        invariant index >= 0 ==>
          old(vals.items) + RowValues(line, index, Deficit(|old(vals.items)|, |columns|), ',', q)
          == vals.items + RowValues(line, i, Deficit(|vals.items|, |columns|), ',', q)
        decreases |columns| - |vals.items|
      {
        var val := GetNextString(line, i, ',', useSingleQuotes);
        vals.Push(val.nextString);
        i := val.index;
        i := i + 1;
      }
    }

    /** The scanner: collects characters from index on, toggling quote
        parity on each quote character, and stops at the first delimiter
        outside quotes or at the end of the line. */
    method GetNextString(line: string, index: nat, delimiter: char, useSingleQuotes: bool)
      returns (r: NextString)
      ensures r == Scan(line, index, delimiter, QuoteChar(useSingleQuotes))
    {
      ghost var q := QuoteChar(useSingleQuotes);
      var i := index;
      var nextString := "";
      var matchedQuoted := true;
      while i < |line|
        invariant index <= i
        invariant ScanFrom(line, i, delimiter, q, matchedQuoted, nextString) == Scan(line, index, delimiter, q)
        decreases |line| - i
      {
        var c := line[i];
        var isQuote;
        if useSingleQuotes {
          isQuote := c == '\'';
        } else {
          isQuote := c == '"';
        }
        if isQuote {
          matchedQuoted := !matchedQuoted;
          nextString := nextString + [c];
        } else if c == delimiter {
          if matchedQuoted {
            r := NextString(false, i, nextString);
            return;
          } else {
            nextString := nextString + [c];
          }
        } else {
          nextString := nextString + [c];
        }
        i := i + 1;
      }
      r := NextString(true, i, nextString);
    }
  }
}
