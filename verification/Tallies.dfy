/** Counts of one-sided operations per (source, destination, superstep), and their sums. */
module Tallies {

  /** How many operations `src` addressed to `dst` in superstep `step`: `t(src, dst, step)`. */
  type Tally = (nat, nat, nat) -> nat

  ghost function Bump(t: Tally, src: nat, dst: nat, step: nat): Tally {
    (a: nat, b: nat, c: nat) => if a == src && b == dst && c == step then t(a, b, c) + 1 else t(a, b, c)
  }

  ghost function Drop(t: Tally, src: nat, dst: nat, step: nat): Tally
    requires t(src, dst, step) > 0
  {
    var rest := t(src, dst, step) - 1;
    (a: nat, b: nat, c: nat) => if a == src && b == dst && c == step then rest else t(a, b, c)
  }

  /** What the first `n` processes addressed to `dst` in superstep `step`. */
  ghost function Incoming(t: Tally, n: nat, dst: nat, step: nat): nat {
    if n == 0 then 0 else Incoming(t, n - 1, dst, step) + t(n - 1, dst, step)
  }

  lemma {:induction false} IncomingEqual(t: Tally, u: Tally, n: nat, dst: nat, step: nat, step': nat)
    requires forall q: nat :: q < n ==> t(q, dst, step) == u(q, dst, step')
    ensures Incoming(t, n, dst, step) == Incoming(u, n, dst, step')
  {
    if n > 0 {
      IncomingEqual(t, u, n - 1, dst, step, step');
    }
  }

  lemma {:induction false} IncomingZero(t: Tally, n: nat, dst: nat, step: nat)
    requires forall q: nat :: q < n ==> t(q, dst, step) == 0
    ensures Incoming(t, n, dst, step) == 0
  {
    if n > 0 {
      IncomingZero(t, n - 1, dst, step);
    }
  }

  lemma {:induction false} IncomingBump(t: Tally, n: nat, src: nat, dst: nat, step: nat)
    requires src < n
    ensures Incoming(Bump(t, src, dst, step), n, dst, step) == Incoming(t, n, dst, step) + 1
  {
    if src == n - 1 {
      IncomingEqual(Bump(t, src, dst, step), t, n - 1, dst, step, step);
    } else {
      IncomingBump(t, n - 1, src, dst, step);
    }
  }

  lemma IncomingBumpElsewhere(t: Tally, n: nat, src: nat, dst: nat, step: nat, dst': nat, step': nat)
    requires dst' != dst || step' != step
    ensures Incoming(Bump(t, src, dst, step), n, dst', step') == Incoming(t, n, dst', step')
  {
    IncomingEqual(Bump(t, src, dst, step), t, n, dst', step', step');
  }

  /** A tally below another one has the smaller sum; equal sums leave no room for any difference. */
  lemma {:induction false} IncomingBelow(t: Tally, u: Tally, n: nat, dst: nat, step: nat)
    requires forall q: nat :: q < n ==> t(q, dst, step) <= u(q, dst, step)
    ensures Incoming(t, n, dst, step) <= Incoming(u, n, dst, step)
    ensures Incoming(t, n, dst, step) == Incoming(u, n, dst, step)
            ==> forall q: nat :: q < n ==> t(q, dst, step) == u(q, dst, step)
  {
    if n > 0 {
      IncomingBelow(t, u, n - 1, dst, step);
    }
  }
}
