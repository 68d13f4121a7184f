/** Order operations on exact reals. */
module Reals {
  function Abs(x: real): real {
    if x < 0.0 then -x else x
  }

  function MaxR(x: real, y: real): real {
    if x >= y then x else y
  }

  function MinR(x: real, y: real): real {
    if x <= y then x else y
  }

  function Negated(xs: seq<real>): (r: seq<real>)
    ensures |r| == |xs|
    ensures forall i | 0 <= i < |xs| :: r[i] == -xs[i]
  {
    seq(|xs|, i requires 0 <= i < |xs| => -xs[i])
  }
}
