/**
 * What evaluating one operator application produces: the resulting abstract
 * value and the warning, if any, reported at the current program point.
 */
module Evaluation {
  import opened Wrappers
  import opened Values
  import opened AnalysisWarnings

  datatype Outcome = Outcome(value: Value, warning: Option<Warning>)

  /** An outcome that reports nothing. */
  function Quiet(v: Value): Outcome { Outcome(v, None) }

  /** An outcome that reports a division-by-zero warning with the given message. */
  function DivisionByZeroWarning(v: Value, message: string): Outcome {
    Outcome(v, Some(Warning(message, DivisionByZero)))
  }

  /** The value of an interval as the analyser creates it. */
  function IntervalValue(i: Interval): Value { IntInterval(i.Start, i.End) }
}
