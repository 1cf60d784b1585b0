/** Optional values and success/failure outcomes, used wherever the source
    has `null`, an absent field, or a call that may throw. */
module Wrappers {

  /** `None` stands for JavaScript's `null` / `undefined`. */
  datatype Option<+T> = None | Some(value: T)

  /** The outcome of a call into code that is not modelled (a `fetch`, the
      authentication context): it either returns data or throws with a message. */
  datatype Outcome<+T> = Success(data: T) | Failure(message: string)
}
