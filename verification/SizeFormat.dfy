/** The human-readable content length of cmd/podcli/check.go. */
module SizeFormat {

  const UNIT := 1000

  const MAX_INT64 := 0x7FFF_FFFF_FFFF_FFFF

  newtype int64 = x: int | -MAX_INT64 - 1 <= x <= MAX_INT64

  /** A size as printed: a plain number of bytes, or a quotient with the letter of its unit. */
  datatype Size = Bytes(b: int64) | Scaled(b: int64, div: int64, letter: char)

  function Power(n: nat): (p: nat)
    ensures p > 0
  {
    if n == 0 then 1 else UNIT * Power(n - 1)
  }

  /** 1000^7 does not fit into an int64, 1000^6 does. */
  lemma {:induction false} PowerBound(n: nat)
    ensures n >= 7 ==> Power(n) > MAX_INT64
    ensures n <= 6 ==> Power(n) <= 1_000_000_000_000_000_000
  {
    if n > 7 {
      PowerBound(n - 1);
    } else if n == 7 {
      assert Power(1) == 1000 && Power(2) == 1000_000 && Power(3) == 1000_000_000;
      assert Power(4) == 1000_000_000_000 && Power(5) == 1000_000_000_000_000;
      assert Power(6) == 1000_000_000_000_000_000 && Power(7) == 1000_000_000_000_000_000_000;
    } else {
      assert Power(1) == 1000 && Power(2) == 1000_000 && Power(3) == 1000_000_000;
      assert Power(4) == 1000_000_000_000 && Power(5) == 1000_000_000_000_000;
      assert Power(6) == 1000_000_000_000_000_000;
    }
  }

  lemma Distribute(r: nat, t: nat, d: nat)
    ensures (r * UNIT + t) * d == r * (d * UNIT) + t * d
  {
  }

  lemma Monotone(m: nat, n: nat, d: nat)
    requires m <= n
    ensures m * d <= n * d
  {
  }

  /** Dividing step by step is dividing by the product. */
  lemma NestedDivision(b: nat, div: nat)
    requires div > 0
    ensures (b / div) / UNIT == b / (div * UNIT)
  {
    var q := b / div;
    var r, t := q / UNIT, q % UNIT;
    Distribute(r, t, div);
    Monotone(t, UNIT - 1, div);
    Quotient(b, div * UNIT, r, t * div + b % div);
  }

  lemma Quotient(b: nat, d: nat, q: nat, r: nat)
    requires d > 0 && b == q * d + r && r < d
    ensures b / d == q
  {
    var q' := b / d;
    assert b == q' * d + b % d;
    assert q' < q ==> (q' + 1) * d <= q * d;
    assert q < q' ==> (q + 1) * d <= q' * d;
  }

  /** Sizes from 1000 on are divided by the one power of 1000 that leaves a quotient of at least 1
      and below 1000, and the letter is the one of that power; nothing overflows on the way. */
  method FmtContentLength(b: int64) returns (size: Size)
    ensures b < 1000 ==> size == Bytes(b)
    ensures b >= 1000 ==>
              exists exp: nat :: exp <= 5 && size.Scaled? && size.b == b && size.letter == "kMGTPE"[exp]
                && size.div as int == Power(exp + 1) && size.div <= b && b as int < UNIT * (size.div as int)
  {
    if b < 1000 {
      return Bytes(b);
    }
    var div: int64, exp := 1000, 0;
    var n := b / 1000;
    PowerBound(1);
    while n >= 1000
      invariant div as int == Power(exp + 1) && n as int == b as int / div as int && 1 <= n
      invariant exp <= 5
      decreases n
    {
      NestedDivision(b as int, div as int);
      FitsBelow(b as int, div as int);
      PowerBound(exp + 2);
      div := div * 1000;
      exp := exp + 1;
      n := n / 1000;
    }
    FitsBelow(b as int, div as int);
    size := Scaled(b, div, "kMGTPE"[exp]);
  }

  lemma FitsBelow(b: nat, div: nat)
    requires div > 0
    ensures b / div >= 1 ==> div <= b
    ensures b / div >= 1000 ==> div * 1000 <= b
    ensures b / div < 1000 ==> b < 1000 * div
  {
    var q, r := b / div, b % div;
    assert b == q * div + r && r < div;
    if q >= 1 { Monotone(1, q, div); }
    if q >= 1000 { Monotone(1000, q, div); }
    if q < 1000 { Monotone(q, 999, div); }
  }

  lemma {:induction false} PowerGrows(m: nat, n: nat)
    requires m < n
    ensures UNIT * Power(m) <= Power(n)
  {
    if m + 1 < n {
      PowerGrows(m, n - 1);
    }
  }

  /** No other power would do. */
  lemma PowerUnique(b: nat, m: nat, n: nat)
    requires Power(m) <= b < UNIT * Power(m) && Power(n) <= b < UNIT * Power(n)
    ensures m == n
  {
    if m < n {
      PowerGrows(m, n);
    } else if n < m {
      PowerGrows(n, m);
    }
  }
}
