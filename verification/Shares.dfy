/** How the load driver of staging/kos/cmd/attachment-tput-driver/main.go divides a number among its threads. */
module Shares {
  import opened Arithmetic

  /** How many of the numbers below `total` leave the remainder `part` when divided by `parts`. */
  function Share(total: nat, parts: nat, part: nat): nat
    requires part < parts
  {
    (total + parts - 1 - part) / parts
  }

  lemma DivStep(x: nat, n: nat)
    requires n > 0
    ensures (x + 1) / n == x / n + if (x + 1) % n == 0 then 1 else 0
  {
    var q, r := x / n, x % n;
    assert x == q * n + r;
    if r + 1 == n {
      assert x + 1 == (q + 1) * n;
      QuotientIs(x + 1, n, q + 1, 0);
    } else {
      QuotientIs(x + 1, n, q, r + 1);
    }
  }

  lemma ShareOfNothing(parts: nat, part: nat)
    requires part < parts
    ensures Share(0, parts, part) == 0
  {
    QuotientIs(parts - 1 - part, parts, 0, parts - 1 - part);
  }

  /** One more number is one more for its remainder. */
  lemma ShareStep(total: nat, parts: nat, part: nat)
    requires part < parts
    ensures Share(total + 1, parts, part) == Share(total, parts, part) + if total % parts == part then 1 else 0
  {
    var x := total + parts - 1 - part;
    DivStep(x, parts);
    var q, r := total / parts, total % parts;
    assert total == q * parts + r;
    if r < part {
      QuotientIs(x + 1, parts, q, parts - part + r);
    } else {
      assert x + 1 == (q + 1) * parts + (r - part);
      QuotientIs(x + 1, parts, q + 1, r - part);
    }
  }

  /** At or up to a whole round before a number, its remainder has come up as often as there were full rounds. */
  lemma ShareInWindow(i: nat, d: nat, parts: nat)
    requires parts > 0 && d <= i < d + parts
    ensures Share(d, parts, i % parts) == i / parts
  {
    var q, r := i / parts, i % parts;
    assert i == q * parts + r;
    QuotientIs(d + parts - 1 - r, parts, q, d + parts - 1 - i);
  }

  function SumOfShares(total: nat, parts: nat, upto: nat): nat
    requires upto <= parts
  {
    if upto == 0 then 0 else SumOfShares(total, parts, upto - 1) + Share(total, parts, upto - 1)
  }

  lemma {:induction false} NoShares(parts: nat, upto: nat)
    requires upto <= parts
    ensures SumOfShares(0, parts, upto) == 0
  {
    if upto > 0 {
      NoShares(parts, upto - 1);
      ShareOfNothing(parts, upto - 1);
    }
  }

  lemma {:induction false} OneMoreShared(total: nat, parts: nat, upto: nat)
    requires upto <= parts && parts > 0
    ensures SumOfShares(total + 1, parts, upto)
            == SumOfShares(total, parts, upto) + if total % parts < upto then 1 else 0
  {
    hide Share;
    if upto > 0 {
      OneMoreShared(total, parts, upto - 1);
      ShareStep(total, parts, upto - 1);
    }
  }

  /** The shares of all parts add up to the total. */
  lemma {:induction false} SharesAddUp(total: nat, parts: nat)
    requires parts > 0
    ensures SumOfShares(total, parts, parts) == total
  {
    if total == 0 {
      NoShares(parts, parts);
    } else {
      SharesAddUp(total - 1, parts);
      OneMoreShared(total - 1, parts, parts);
    }
  }
}
