/** What several of the state machines count and remove. */
module Shared {

  /** A sequence without its element k. */
  function Without<T>(x: seq<T>, k: nat): seq<T>
    requires k < |x|
  {
    x[..k] + x[k + 1..]
  }

  function One(b: bool): nat {
    if b then 1 else 0
  }
}
