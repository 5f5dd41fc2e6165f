/** Results of operations that may refuse, and the checked loop over a list. */
module Outcomes {

  datatype Outcome<+T> = Accepted(value: T) | Refused

  datatype Option<T> = None | Some(value: T)

  function Mapped<T, U>(xs: seq<T>, f: T -> U): (out: seq<U>)
    ensures |out| == |xs|
    ensures forall i :: 0 <= i < |xs| ==> out[i] == f(xs[i])
  {
    seq(|xs|, i requires 0 <= i < |xs| => f(xs[i]))
  }

  function Elements<T(==, !new)>(s: seq<T>): (out: set<T>)
    ensures forall x :: x in out <==> x in s
  {
    set x | x in s
  }

  /** The loop shape of a Go range with an early error return. */
  method MapChecked<T, U>(xs: seq<T>, ok: T -> bool, f: T -> U) returns (out: Outcome<seq<U>>)
    ensures out == if forall i :: 0 <= i < |xs| ==> ok(xs[i]) then Accepted(Mapped(xs, f)) else Refused
  {
    var done: seq<U> := [];
    var k := 0;
    while k < |xs|
      invariant 0 <= k <= |xs| == |Mapped(xs, f)|
      invariant forall n :: 0 <= n < k ==> ok(xs[n])
      invariant |done| == k && forall n :: 0 <= n < k ==> done[n] == f(xs[n])
    {
      if !ok(xs[k]) {
        return Refused;
      }
      done := done + [f(xs[k])];
      k := k + 1;
    }
    assert done == Mapped(xs, f);
    out := Accepted(done);
  }
}
