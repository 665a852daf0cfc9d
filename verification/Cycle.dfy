/** Tables that are searched round: the cursor of the transaction table and that of the
    client table move alike. */
module Cycle {
  /** A cursor moves on by one, from the last position to the first. */
  function Following(n: nat, c: nat): (next: nat)
    requires c < n
    ensures next < n
  {
    if c < n - 1 then c + 1 else 0
  }

  /** How many moves take the cursor from `a` to `b`. */
  function Distance(n: nat, a: nat, b: nat): (d: nat)
    requires a < n && b < n
    ensures d < n && (d == 0 <==> a == b)
  {
    if a <= b then b - a else n - a + b
  }
}
