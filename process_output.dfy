/** The ProcessOutput service as the row loop of ProcessInput sees it. */
module ProcessOutputService {

  import opened Pipeline

  /** The output sink at the boundary of the core: it records every
      (columns, vals) pair addLine receives. Whether the write behind a
      call fails is not known to the core; rejects stands for it (None:
      the promise of addLine resolves). */
  class ProcessOutput {
    var received: seq<Row>
    const rejects: Row -> Option<string>

    constructor (rejects: Row -> Option<string>)
      ensures received == [] && this.rejects == rejects
    {
      received := [];
      this.rejects := rejects;
    }

    method AddLine(columns: seq<string>, vals: seq<string>) returns (failure: Option<string>)
      modifies this
      ensures received == old(received) + [Row(columns, vals)]
      ensures failure == rejects(Row(columns, vals))
    {
      received := received + [Row(columns, vals)];
      failure := rejects(Row(columns, vals));
    }
  }
}
