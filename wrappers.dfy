/** Optional values and the outcome of a call that may throw. */
module Wrappers {

  /** `None` stands for JavaScript's `undefined` (or `null` returned by the code). */
  datatype Option<+T> = None | Some(value: T)

  /** `Ok(v)`: the awaited call resolved with `v`; `Err`: it threw (or its promise rejected). */
  datatype Result<+T> = Ok(value: T) | Err
}
