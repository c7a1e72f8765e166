/** Options, results and the fault tags that stand for the exceptions of the source. */
module Basics {

  datatype Option<+T> = None | Some(value: T)

  /** The kinds of `ValueError` (and related exceptions) the modelled code raises. */
  datatype Fault =
    | UnsupportedInterval
    | InvalidStream
    | InvalidZone
    | InvalidEvent
    | InvalidAnalysis
    | NotConfirmedBreak
    | ForeignBreak
    | ForeignBreakCandle
    | InvalidAttempt
    | MissingZone
    | MissingCandle
    | InvalidThreshold
    | InvalidPlan
    | InvalidBars
    | InvalidReference
    | MissingMedian

  datatype Result<+T> = Ok(value: T) | Err(fault: Fault)
}
