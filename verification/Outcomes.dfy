/** What every module shares: bytes, optional values, and the three ways a step on the outside world
    can end. */
module Outcomes {

  type Bytes = seq<bv8>

  datatype Option<+T> = None | Some(value: T)

  /** How an operation that touches disk, network or another process ends.
      `Refused` is an ordinary error return: clean-up code and deferred unlocks still run.
      `Crashed` is the process stopping where it stands: nothing after it runs. */
  datatype Outcome<+T, +E> = Done(value: T) | Refused(error: E) | Crashed {

    predicate IsFailure() {
      !Done?
    }

    function PropagateFailure<U>(): Outcome<U, E>
      requires !Done?
    {
      match this
      case Refused(e) => Refused(e)
      case Crashed => Crashed
    }

    function Extract(): T
      requires Done?
    {
      value
    }
  }

  /** A disk, clock or process operation whose only effect here is that it may fail or be the last one. */
  method Io<E>(error: E) returns (o: Outcome<(), E>)
    ensures o.Refused? ==> o.error == error
  {
    if * {
      return Done(());
    } else if * {
      return Refused(error);
    } else {
      return Crashed;
    }
  }
}
