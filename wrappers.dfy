/** Failure-compatible wrappers shared by the whole model. The source signals
    absence by raising exceptions (`PlayerNotFound`, `KeyError`, `IndexError`,
    `ValueError`); the model returns `None` instead. */
module Wrappers {

  datatype Option<+T> = None | Some(value: T) {
    predicate IsFailure() { None? }

    function PropagateFailure<U>(): Option<U>
      requires None?
    {
      None
    }

    function Extract(): T
      requires Some?
    {
      value
    }
  }
}
