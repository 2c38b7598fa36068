/** What several components share. */
module Basics {

  /** Optional values; an absent address stands for a null pointer. */
  datatype Option<T> = None | Some(value: T)

  /** A coroutine handle; only its identity matters. 0 is the null handle. */
  type Handle = nat

  /** A list without its element `i`. */
  function Without<T>(list: seq<T>, i: nat): seq<T>
    requires i < |list|
  {
    list[..i] + list[i + 1..]
  }
}
