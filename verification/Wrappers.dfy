/** The result types and fixed-length lists shared by the model. */
module Wrappers {

  datatype Option<+T> = None | Some(value: T)

  /** The exception classes the modelled code raises. */
  datatype Error = ValueError | KeyError | TypeError | AttributeError | ProtocolError | PolicyError | ControlException

  datatype Result<+T> = Success(value: T) | Failure(error: Error) {
    predicate IsFailure() {
      Failure?
    }

    function PropagateFailure<U>(): Result<U>
      requires Failure?
    {
      Failure(error)
    }

    function Extract(): T
      requires Success?
    {
      value
    }
  }

  type Vector6 = v: seq<real> | |v| == 6 witness seq(6, _ => 0.0)

  type Vector7 = v: seq<real> | |v| == 7 witness seq(7, _ => 0.0)
}
