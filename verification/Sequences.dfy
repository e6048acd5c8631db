/** Sequences of one value. */
module Sequences {
  function Repeated<T>(x: T, n: nat): seq<T> { seq(n, i => x) }
}
