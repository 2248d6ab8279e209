/**
 * The shapes shared by both reducers: an optional value (Swift's `T?`) and
 * the result of one reducer step.
 *
 * A reducer takes its state `inout` and returns an effect. Swift structs are
 * values, so a step is modelled as a function from the old state to the new
 * state together with the actions its effect feeds back, in order. The only
 * effects this program builds are `.none` (no action) and `.init(value:)`
 * (one action delivered synchronously), and `.combine` runs its reducers one
 * after the other and merges their effects in that order.
 */
module Reducers {

  datatype Option<T> = None | Some(value: T)

  /** The new state after one action, and the follow-up actions its effect emits. */
  datatype Step<S, A> = Step(state: S, effects: seq<A>)
}
