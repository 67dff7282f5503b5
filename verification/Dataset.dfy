/** Dataset items, and what an evaluator or a judge says of one (src/eval.rs). */
module Dataset {
  import opened Wrappers
  import opened Scores

  datatype DatasetItem = DatasetItem(
    input: Option<string>,
    output: string,
    expected: Option<string>,
    spanId: Option<string>,
    traceId: Option<string>,
    context: Option<seq<string>>)
  {
    /** Where a score attaches: the span, else the trace, else the run. */
    function Target(runId: string): ScoreTarget {
      if spanId.Some? && spanId.value != "" then Span(spanId.value)
      else if traceId.Some? && traceId.value != "" then Trace(traceId.value)
      else Run(runId)
    }

    predicate HasSpanOrTrace() {
      (spanId.Some? && spanId.value != "") || (traceId.Some? && traceId.value != "")
    }
  }

  datatype ItemScore = ItemScore(value: real, passed: bool, comment: Option<string>)

  /** One outcome per item; none where the item was skipped. */
  type Outcomes = seq<Option<ItemScore>>
}
