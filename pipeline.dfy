/** What processFile does with each row line once the header is parsed:
    the row values, the optional input transform, the call to the output
    sink, and how failures settle the returned promise. */
module Pipeline {

  import opened Scanner
  import opened Fields

  datatype Option<T> = None | Some(value: T)

  /** A value, or the error a call threw. */
  datatype Result<T> = Ok(value: T) | Err(error: string)

  /** A (columns, vals) pair as it is handed to the output's addLine. */
  datatype Row = Row(columns: seq<string>, vals: seq<string>)

  /** The optional transform argument of processFile: absent, or a
      plug-in whose transformInput maps a row (or throws). */
  datatype TransformInput =
    | NoTransform
    | Transform(transformInput: (seq<string>, seq<string>) -> Result<Row>)

  /** The state of the promise processFile returns. Once settled, later
      reject and resolve calls leave it as it is. */
  datatype Settlement = Pending | Resolved | Rejected(error: string)

  /** reject: only a pending promise is settled, with the error. */
  function Reject(p: Settlement, error: string): Settlement
  {
    if p.Pending? then Rejected(error) else p
  }

  /** resolve: only a pending promise is settled. */
  function Resolve(p: Settlement): Settlement
  {
    if p.Pending? then Resolved else p
  }

  /** The quote character of every field-level scan: processHeaders and
      processLine are called without useSingleQuotes, so it is always the
      double quote. */
  const FieldQuote: char := QuoteChar(false)

  /** The values processLine collects from a row line, for the given
      header columns. */
  function RowOf(columns: seq<string>, line: string): seq<string>
  {
    RowValues(line, 0, |columns|, ',', FieldQuote)
  }

  /** The row the transform produces, or the identity pair without one. */
  function Apply(transform: TransformInput, columns: seq<string>, vals: seq<string>): Result<Row>
  {
    match transform
    case NoTransform => Ok(Row(columns, vals))
    case Transform(f) => f(columns, vals)
  }

  /** What one row line leads to: nothing (no values), a transform that
      threw, or a call of addLine with its outcome (None: the write
      succeeded). */
  datatype RowStep =
    | Skipped
    | TransformThrew(error: string)
    | Added(row: Row, failure: Option<string>)

  function StepOf(columns: seq<string>, line: string, transform: TransformInput,
                  rejects: Row -> Option<string>): RowStep
  {
    var vals := RowOf(columns, line);
    if |vals| == 0 then Skipped
    else match Apply(transform, columns, vals)
      case Err(e) => TransformThrew(e)
      case Ok(row) => Added(row, rejects(row))
  }

  /** The step of every row line, in order. */
  function Steps(columns: seq<string>, rowLines: seq<string>, transform: TransformInput,
                 rejects: Row -> Option<string>): (steps: seq<RowStep>)
    ensures |steps| == |rowLines|
  {
    seq(|rowLines|, k requires 0 <= k < |rowLines| => StepOf(columns, rowLines[k], transform, rejects))
  }

  /** The row a step hands to addLine, if any. */
  function Sent(step: RowStep): seq<Row>
  {
    if step.Added? then [step.row] else []
  }

  /** The rows handed to addLine, in order. */
  function Delivered(steps: seq<RowStep>): seq<Row>
  {
    if steps == [] then [] else Delivered(steps[..|steps| - 1]) + Sent(steps[|steps| - 1])
  }

  /** The error, if any, that the catch block passes to reject for a step. */
  function FailureOf(step: RowStep): Option<string>
  {
    match step
    case Skipped => None
    case TransformThrew(e) => Some(e)
    case Added(_, failure) => failure
  }

  /** The promise after one more step: its failure, if any, is passed to
      reject. */
  function Record(p: Settlement, step: RowStep): Settlement
  {
    match FailureOf(step)
    case None => p
    case Some(e) => Reject(p, e)
  }

  /** The promise after the row steps, starting pending: every failure is
      passed to reject, and the loop carries on. */
  function Fold(steps: seq<RowStep>): Settlement
  {
    if steps == [] then Pending else Record(Fold(steps[..|steps| - 1]), steps[|steps| - 1])
  }

  /** The final settlement: resolve is called after the loop. */
  function Outcome(steps: seq<RowStep>): Settlement
  {
    Resolve(Fold(steps))
  }

  /** One more row line extends what reached the sink and the promise by
      that line's step alone. */
  lemma StepsSnoc(columns: seq<string>, rowLines: seq<string>, line: string, transform: TransformInput,
                  rejects: Row -> Option<string>)
    ensures var steps := Steps(columns, rowLines, transform, rejects);
      var step := StepOf(columns, line, transform, rejects);
      var steps' := Steps(columns, rowLines + [line], transform, rejects);
      && Delivered(steps') == Delivered(steps) + Sent(step)
      && Fold(steps') == Record(Fold(steps), step)
  {
    var steps := Steps(columns, rowLines, transform, rejects);
    var steps' := Steps(columns, rowLines + [line], transform, rejects);
    assert steps'[..|steps|] == steps;
  }

  /** The row loop's view after the row lines rows: the sink got sent0
      followed by the rows those lines delivered, and the promise is the
      fold of their steps. */
  predicate RowsSoFar(columns: seq<string>, rows: seq<string>, transform: TransformInput,
                      rejects: Row -> Option<string>, sent0: seq<Row>, sent: seq<Row>, promise: Settlement)
  {
    var steps := Steps(columns, rows, transform, rejects);
    sent == sent0 + Delivered(steps) && promise == Fold(steps)
  }

  /** One more row line: the sink gets what its step sends, and the
      promise records its failure. */
  lemma RowsAdvance(columns: seq<string>, rows: seq<string>, line: string, transform: TransformInput,
                    rejects: Row -> Option<string>, sent0: seq<Row>, sent: seq<Row>, promise: Settlement)
    requires RowsSoFar(columns, rows, transform, rejects, sent0, sent, promise)
    ensures var step := StepOf(columns, line, transform, rejects);
      RowsSoFar(columns, rows + [line], transform, rejects, sent0, sent + Sent(step), Record(promise, step))
  {
    StepsSnoc(columns, rows, line, transform, rejects);
    var step := StepOf(columns, line, transform, rejects);
    assert (sent0 + Delivered(Steps(columns, rows, transform, rejects))) + Sent(step)
        == sent0 + (Delivered(Steps(columns, rows, transform, rejects)) + Sent(step));
  }

  /** While the rows are processed the promise is pending until the first
      failing row, and from then on rejected with that row's error. */
  lemma {:induction false} FoldFirstFailure(steps: seq<RowStep>)
    ensures !Fold(steps).Resolved?
    ensures Fold(steps) == Pending <==> forall k :: 0 <= k < |steps| ==> FailureOf(steps[k]) == None
    ensures forall k :: 0 <= k < |steps| && FailureOf(steps[k]).Some?
                        && (forall j :: 0 <= j < k ==> FailureOf(steps[j]) == None)
                        ==> Fold(steps) == Rejected(FailureOf(steps[k]).value)
    decreases |steps|
  {
    if steps != [] {
      var init := steps[..|steps| - 1];
      FoldFirstFailure(init);
      assert forall k :: 0 <= k < |init| ==> init[k] == steps[k];
    }
  }

  /** The promise resolves exactly when no row failed, and otherwise
      rejects with the error of the FIRST failing row; later failures do
      not change it. */
  lemma FirstFailureWins(steps: seq<RowStep>)
    ensures Outcome(steps) == Resolved <==> forall k :: 0 <= k < |steps| ==> FailureOf(steps[k]) == None
    ensures forall k :: 0 <= k < |steps| && FailureOf(steps[k]).Some?
                        && (forall j :: 0 <= j < k ==> FailureOf(steps[j]) == None)
                        ==> Outcome(steps) == Rejected(FailureOf(steps[k]).value)
    ensures Outcome(steps) != Pending
  {
    FoldFirstFailure(steps);
  }

  /** Without a transform, every row line is forwarded exactly once, in
      order, as (columns, its values), whatever the sink's writes do:
      a failed row does not stop the loop. */
  lemma {:induction false} IdentityForwardsEveryRow(columns: seq<string>, rowLines: seq<string>,
                                                   rejects: Row -> Option<string>)
    requires columns != []
    ensures Delivered(Steps(columns, rowLines, NoTransform, rejects))
         == seq(|rowLines|, k requires 0 <= k < |rowLines| => Row(columns, RowOf(columns, rowLines[k])))
    decreases |rowLines|
  {
    var steps := Steps(columns, rowLines, NoTransform, rejects);
    if rowLines != [] {
      var init := rowLines[..|rowLines| - 1];
      IdentityForwardsEveryRow(columns, init, rejects);
      assert steps[..|steps| - 1] == Steps(columns, init, NoTransform, rejects);
    }
  }

  /** With no header columns every row has zero values: nothing reaches
      the sink and the promise resolves. */
  lemma {:induction false} NoColumnsNoRows(rowLines: seq<string>, transform: TransformInput,
                                          rejects: Row -> Option<string>)
    ensures Delivered(Steps([], rowLines, transform, rejects)) == []
    ensures Outcome(Steps([], rowLines, transform, rejects)) == Resolved
    decreases |rowLines|
  {
    var steps := Steps([], rowLines, transform, rejects);
    if rowLines != [] {
      var init := rowLines[..|rowLines| - 1];
      NoColumnsNoRows(init, transform, rejects);
      assert steps[..|steps| - 1] == Steps([], init, transform, rejects);
    }
  }

  /** The vals.length > 0 test skips a row exactly when the header line
      was empty (and so gave no columns); blank row lines are not skipped. */
  lemma SkippedIffEmptyHeader(header: string, line: string, transform: TransformInput,
                              rejects: Row -> Option<string>)
    ensures StepOf(Tokens(header, 0, ',', FieldQuote), line, transform, rejects).Skipped?
        <==> header == ""
  {
    TokensEmptyIff(header, ',', FieldQuote);
  }
}
