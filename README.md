# ProcessInput of csv-processor, modelled in Dafny

csv-processor reads a delimited text file and hands every data row to an
output service, which writes one rendered line per row. The `ProcessInput`
service does the reading. It has four parts:

- `getNextString` is a quote-aware scanner. From a start index it collects
  characters up to the first delimiter that is outside quotes, or up to the
  end of the text. Each quote character toggles a parity flag.
- `processFile` cuts the text into lines by scanning with `'\n'`. So a line
  break inside quotes does not end a line.
- `processHeaders` turns the first line into the `columns` field.
- For every later line, `processLine` fills a `vals` array with exactly
  `columns.length` values. The row `(columns, vals)` then goes through an
  optional input transform to the output's `addLine`.

This project models that service:

- The scanner is a pure function (`Scanner.ScanFrom`, `Scanner.Scan`). The
  lemmas about it say that the token is a slice, give the bounds and the done
  flag, and say where the scan stops.
- The header loop and the row loop have pure counterparts
  (`Fields.Tokens`, `Fields.RowValues`). They are compared with a plain split
  on text that holds no quote character (`Text.Split`, `Text.Join`).
- The line split has a pure counterpart (`LineSplitting.Lines`). It is proved
  to lose and add no character. In both directions, a line break ends a line
  exactly when it lies outside quotes. A break kept inside a line has an odd
  number of quotes before it. Every line but the last holds an even number of
  quotes, so the break that ends it is outside quotes.
- The row pipeline (`Pipeline`) gives what reaches the sink and how the
  returned promise settles.
- The class `ProcessInputService.ProcessInput` has the methods
  `GetNextString`, `ProcessHeaders`, `ProcessLine` and `ProcessFile`. They are
  written with the same loops as the source and proved equal to those
  functions.

Modules, one per file: `Text` (text.dfy), `Scanner` (scanner.dfy), `Fields`
(fields.dfy), `LineSplitting` (lines.dfy), `Pipeline` (pipeline.dfy),
`ProcessOutputService` (process_output.dfy, the output sink as the row loop
sees it), `ProcessInputService` (process_input.dfy).

Behaviour of `processFile` that is easy to miss:

- A blank or short row line is padded with `""` up to the number of columns.
  It is forwarded like any other row; it is not skipped. Only a file whose
  header line is empty has rows that are skipped, because it has no columns
  (`Pipeline.SkippedIffEmptyHeader`).
- A transform or write failure does not abort the loop. The catch block
  calls `reject` and the loop goes on, so the remaining rows still reach the
  sink. The promise keeps the FIRST error, and the final `resolve` then has
  no effect (`Pipeline.FirstFailureWins`).
- `processHeaders` and `processLine` are called without `useSingleQuotes`.
  Fields are therefore always split with the double quote, and only the line
  split honours the flag.

## Model

| member | source | states |
|---|---|---|
| Scanner.ScanFrom | src/modules/process-input/process-input.service.ts:94-129 | the cursor never moves backwards and stays within the text; done exactly when the cursor reaches the end |
| Scanner.ScanFromSpec | src/modules/process-input/process-input.service.ts:94-129 | loop invariant of the scanner: the token is the slice from the start, the parity flag is the parity of the quotes in it, and no separator is passed |
| Scanner.ScanSpec | src/modules/process-input/process-input.service.ts:94-129 | from an index inside the text: index <= stop <= length; done iff stop == length; token == line[index..stop], quotes kept; when not done the stop is a separator, and there is no separator before it |
| Scanner.ScanPastEnd | src/modules/process-input/process-input.service.ts:125-129 | from an index past the end: empty token, the same index, done |
| Scanner.ScanStopsOutsideQuotes | src/modules/process-input/process-input.service.ts:106-116 | when not done, the character at the stop is the delimiter and the token holds an even number of quotes |
| Scanner.ScanDelimitersInsideQuotes | src/modules/process-input/process-input.service.ts:106-119 | every delimiter kept in a token has an odd number of quotes before it within the token |
| Scanner.ScanQuoteFree | src/modules/process-input/process-input.service.ts:109-116 | on text free of the selected quote, the scan stops at the very first delimiter |
| Scanner.ScanFromSameShape | src/modules/process-input/process-input.service.ts:99-122 | two texts with the selected quote and the delimiter at the same positions, scanned from the same state, give the same stop and done flag |
| Scanner.ScanOnlySeesQuoteAndDelimiter | src/modules/process-input/process-input.service.ts:99-109 | only the selected quote character toggles parity: every other character, the other quote included, is ordinary content |
| Fields.RowValues | src/modules/process-input/process-input.service.ts:77-84 | the row loop collects exactly as many values as it is asked for |
| Fields.TokensEmptyIff | src/modules/process-input/process-input.service.ts:62-68 | a header line yields no columns iff it is empty |
| Fields.TokensQuoteFreeStep | src/modules/process-input/process-input.service.ts:64-67 | on a quote-free line, one header token ends at the first comma |
| Fields.TokensQuoteFreeFrom | src/modules/process-input/process-input.service.ts:62-68 | quote-free header tokens from any index are the comma split with one trailing empty piece dropped |
| Fields.TokensQuoteFree | src/modules/process-input/process-input.service.ts:62-68 | quote-free header columns are the comma split of the line with one trailing empty piece dropped ("a," gives ["a"], "" gives []) |
| Fields.RowValuesPastEnd | src/modules/process-input/process-input.service.ts:79-83 | once the cursor is past the line, every further value is "" |
| Fields.RowValuesAreTokens | src/modules/process-input/process-input.service.ts:77-84 | the n row values are the first n header-style tokens of the line, padded with ""; extra tokens are ignored |
| Fields.RowValueAt | src/modules/process-input/process-input.service.ts:77-84 | value k is token k of the line, or "" past the last token |
| Fields.BlankLineIsPadded | src/modules/process-input/process-input.service.ts:77-84 | an empty line gives n empty values, not an empty row |
| LineSplitting.LinesStart | src/modules/process-input/process-input.service.ts:28-30 | the first '\n' scan yields the header line, and the rest of the lines start just past it |
| LineSplitting.LinesFromStep | src/modules/process-input/process-input.service.ts:31-33 | each '\n' scan yields the next line and moves the cursor just past its break, within the text |
| LineSplitting.LinesAdvance | src/modules/process-input/process-input.service.ts:31-33 | one turn of the line loop extends the lines seen by the line the scan returns |
| LineSplitting.JoinLinesFrom | src/modules/process-input/process-input.service.ts:28-33 | the lines from any cursor, joined with '\n', are the text from that cursor |
| LineSplitting.JoinLines | src/modules/process-input/process-input.service.ts:28-33 | header line and row lines joined with '\n' give back the input text |
| LineSplitting.LinesFromBreaksQuoted | src/modules/process-input/process-input.service.ts:28-33 | in every line from any cursor, each kept '\n' is inside quotes |
| LineSplitting.LinesBreaksQuoted | src/modules/process-input/process-input.service.ts:28-33 | a line break kept inside a line has an odd number of quotes before it within that line: a kept break is a quoted one |
| LineSplitting.LinesFromEndOutsideQuotes | src/modules/process-input/process-input.service.ts:28-33 | from any cursor, every line but the last holds an even number of quotes |
| LineSplitting.LinesEndOutsideQuotes | src/modules/process-input/process-input.service.ts:15-33 | the converse: a line break inside quotes never ends a line; every line but the last holds an even number of quotes, so the break that ends it lies outside quotes |
| LineSplitting.LinesFromQuoteFreeStep | src/modules/process-input/process-input.service.ts:31-33 | on quote-free text, one line ends at the first '\n' |
| LineSplitting.LinesFromQuoteFree | src/modules/process-input/process-input.service.ts:28-33 | on quote-free text the lines from any cursor are the plain '\n' split |
| LineSplitting.LinesQuoteFree | src/modules/process-input/process-input.service.ts:28-33 | on text free of the selected quote, the lines are the plain '\n' split |
| Pipeline.StepsSnoc | src/modules/process-input/process-input.service.ts:31-50 | one more row line adds only its own row to the sink and only its own failure to the promise |
| Pipeline.RowsAdvance | src/modules/process-input/process-input.service.ts:31-50 | one turn of the row loop keeps the sink and the promise in step with the row lines seen |
| Pipeline.FoldFirstFailure | src/modules/process-input/process-input.service.ts:31-50 | during the loop the promise is never resolved; it is pending iff no row failed, otherwise rejected with the first failure |
| Pipeline.FirstFailureWins | src/modules/process-input/process-input.service.ts:31-51 | the promise resolves iff no row failed, otherwise it rejects with the first failing row's error; it never stays pending |
| Pipeline.IdentityForwardsEveryRow | src/modules/process-input/process-input.service.ts:34-44 | without a transform, every row line reaches the sink exactly once, in order, as (columns, its values), whatever the writes do |
| Pipeline.NoColumnsNoRows | src/modules/process-input/process-input.service.ts:36 | with no columns nothing reaches the sink and the promise resolves |
| Pipeline.SkippedIffEmptyHeader | src/modules/process-input/process-input.service.ts:29-36 | a row is skipped iff the header line was empty; blank row lines are not skipped |
| ProcessInputService.ValueArray.constructor | src/modules/process-input/process-input.service.ts:34 | a fresh vals array is empty |
| ProcessInputService.ValueArray.Push | src/modules/process-input/process-input.service.ts:81 | push appends one value and changes nothing else |
| ProcessOutputService.ProcessOutput.AddLine | src/modules/process-output/process-output.service.ts:31-37 | the sink records the pair it receives, after all earlier ones; its outcome is the write's outcome for that row |
| ProcessInputService.ProcessInput.constructor | src/modules/process-input/process-input.service.ts:11-13 | the service keeps the output it is given |
| ProcessInputService.ProcessInput.GetNextString | src/modules/process-input/process-input.service.ts:93-130 | the loop with its early return computes exactly Scan with the quote selected by useSingleQuotes |
| ProcessInputService.ProcessInput.ProcessHeaders | src/modules/process-input/process-input.service.ts:62-69 | columns gets the successive tokens of the header line appended; the loop ends because the cursor strictly grows |
| ProcessInputService.ProcessInput.ProcessLine | src/modules/process-input/process-input.service.ts:77-85 | vals gets the row values appended until it holds as many as there are columns; a negative index collects nothing |
| ProcessInputService.ProcessInput.ForwardRow | src/modules/process-input/process-input.service.ts:34-49 | one row line: the sink gets what its step sends, and the promise records its failure |
| ProcessInputService.ProcessInput.ProcessFile | src/modules/process-input/process-input.service.ts:21-56 | a read error rejects and sends nothing; otherwise columns are reset to the header tokens, the sink gets exactly the rows of all row lines in order, and the outcome is fixed by the first failing row |

## Left out

- Reading the file (`fs.readFile`, UTF-8 decoding) is I/O. The file content,
  or the error the read failed with, is an input of `ProcessFile`.
- The `Promise`, `async` and `await` plumbing is not modelled as concurrency.
  The awaited calls run in order, and the promise is a value that settles
  once (`Pipeline.Settlement`).
- The `TransformInput` implementation is a plug-in. It is modelled as an
  optional pure function that yields a row or an error.
- The `ProcessOutput` file handling (`initialize`, `close`, `fs.write`) and
  the `TransformOutput` it calls are not part of this model. `addLine` is a
  sink that records the pairs it receives; whether a write fails is given by
  a function of the row.
- The `typedi` `@Service` wiring and dependency injection are framework code
  and are left out.
- Characters are single code points, and `'\r'` is ordinary content. The
  source works on UTF-16 code units through `charAt`.
- ProcessInputService.ProcessInput.GetNextString: its index is a natural
  number. Every caller passes a non-negative index, and the guard in
  `processLine` keeps it that way. Its delimiter is a single character, as
  every call site passes one.
- ProcessInputService.ProcessInput.ProcessFile: an omitted `useSingleQuotes`
  (`undefined`) is modelled as `false`, which is what the source's truthiness
  test makes of it.
- ProcessInputService.ProcessInput.ProcessLine: the caller's `vals` array is
  a `ValueArray` object that is updated in place. Its contents are a
  sequence, so a `vals` array shared with other code is not modelled.
