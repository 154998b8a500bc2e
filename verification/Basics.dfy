/** Numbers of the width the program uses: values stay in range and wrap explicitly. */
module UInt32 {
  const LAST: int := 0xFFFF_FFFF

  type uint32 = x: int | 0 <= x <= 0xFFFF_FFFF witness 0

  function Wrap(x: int): (r: uint32)
    ensures 0 <= x <= LAST ==> r == x
  {
    x % 0x1_0000_0000
  }
}

/** A value or its absence. */
module Options {
  datatype Option<+T> = None | Some(value: T)
}

/** What the solver does not see of products and quotients by itself. */
module Arithmetic {
  lemma TimesSign(k: int, n: nat)
    requires n > 0
    ensures k >= 1 ==> k * n >= n
    ensures k <= 0 ==> k * n <= 0
  {
    if k >= 1 {
      assert (k - 1) * n >= 0;
    } else {
      assert (-k) * n >= 0;
    }
  }

  lemma MulOrder(a: int, b: int, n: nat)
    requires n > 0
    ensures a < b <==> a * n < b * n
  {
    TimesSign(b - a, n);
    assert (b - a) * n == b * n - a * n;
  }

  /** Quotients are unique. */
  lemma QuotientIs(a: nat, n: nat, q: int, r: int)
    requires n > 0 && a == q * n + r && 0 <= r < n
    ensures a / n == q && a % n == r
  {
    var e := a / n;
    assert a == e * n + a % n;
    MulOrder(e, q + 1, n);
    MulOrder(q, e + 1, n);
    assert (q + 1) * n == q * n + n;
    assert (e + 1) * n == e * n + n;
  }

  lemma RoundsFit(x: nat, n: nat, i: nat)
    requires n > 0 && i < x / n
    ensures i * n + n <= x
  {
    var q := x / n;
    assert x == q * n + x % n;
    MulOrder(i + 1, q + 1, n);
    assert (q + 1) * n == q * n + n && (i + 1) * n == i * n + n;
    TimesSign(q - i, n);
    assert (q - i) * n == q * n - i * n;
  }

  /** Some number is greater than all of a set. */
  lemma {:induction false} NumberAbove(s: set<nat>) returns (u: nat)
    ensures forall v :: v in s ==> v < u
  {
    if s == {} {
      u := 0;
    } else {
      var v :| v in s;
      var u' := NumberAbove(s - {v});
      u := if u' > v then u' else v + 1;
      forall t | t in s ensures t < u {
        assert t == v || t in s - {v};
      }
    }
  }
}
