/**
 * Optional values: a field that is absent. Wherever the source reads a field only
 * through optional chaining or a truthiness test, `null` behaves the same and is
 * folded into None; the one place the two differ has its own type (GenAI.Payload).
 */
module Wrappers {

  datatype Option<+T> = None | Some(value: T)
}
