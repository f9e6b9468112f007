/** Small shared vocabulary: an optional value, and the way games.js turns a
    `Math.random()` draw into an index. */
module Prelude {

  /** `null` / `undefined` on one side, a present value on the other. */
  datatype Option<T> = None | Some(value: T)

  /** `Math.floor(r * n)` for a draw `r` of `Math.random()`, which lies in [0, 1):
      always a valid index into a collection of `n` elements. */
  function RandomBelow(r: real, n: nat): (k: nat)
    requires 0.0 <= r < 1.0 && n > 0
    ensures k < n
  {
    var x := r * (n as real);
    assert x < n as real by {
      assert r * (n as real) < 1.0 * (n as real);
    }
    x.Floor
  }
}
