// The C operators &, | and & ~ on non-negative ints, and what they do with the
// one-bit masks of the collectives.
module BitMask {
  import opened Basics

  function And(a: nat, b: nat): nat
    decreases a
  {
    if a == 0 || b == 0 then 0
    else 2 * And(a / 2, b / 2) + (if a % 2 == 1 && b % 2 == 1 then 1 else 0)
  }

  function Or(a: nat, b: nat): nat
    decreases a + b
  {
    if a == 0 then b else if b == 0 then a
    else 2 * Or(a / 2, b / 2) + (if a % 2 == 1 || b % 2 == 1 then 1 else 0)
  }

  // a & ~b
  function AndNot(a: nat, b: nat): nat
    decreases a
  {
    if a == 0 then 0
    else 2 * AndNot(a / 2, b / 2) + (if a % 2 == 1 && b % 2 == 0 then 1 else 0)
  }

  lemma DoubledMod(y: nat, m: nat)
    requires 0 < m
    ensures (2 * y) % (2 * m) == 2 * (y % m)
  {
    assert y == (y / m) * m + y % m;
    assert 2 * y == (y / m) * (2 * m) + 2 * (y % m);
    DivModUnique(2 * y, 2 * m, y / m, 2 * (y % m));
  }

  lemma Doubled(y: nat, m: nat)
    requires m > 0
    ensures And(2 * m, 2 * y) == 2 * And(m, y) && And(2 * y, 2 * m) == 2 * And(y, m)
    ensures Or(2 * y, 2 * m) == 2 * Or(y, m) && AndNot(2 * y, 2 * m) == 2 * AndNot(y, m)
  {
    assert (2 * y) / 2 == y && (2 * m) / 2 == m && (2 * y) % 2 == 0 == (2 * m) % 2;
  }

  // For a number with no bit below the mask 2^j: testing, setting and clearing
  // bit j, in terms of the remainder modulo 2^(j+1).
  lemma {:induction false} OneBit(x: nat, j: nat)
    requires x % Shifted(1, j) == 0
    ensures var m := Shifted(1, j);
            && x % (2 * m) == (if And(m, x) == 0 then 0 else m)
            && And(m, x) == And(x, m)
            && (And(m, x) == 0 ==> Or(x, m) == x + m && AndNot(x, m) == x)
            && (And(m, x) != 0 ==> x >= m && AndNot(x, m) == x - m)
  {
    var m := Shifted(1, j);
    if j > 0 {
      var y, m' := x / 2, Shifted(1, j - 1);
      assert x == 2 * y by {
        ModOfMultiple(x, 2, m');
      }
      DoubledMod(y, m');
      DoubledMod(y, 2 * m');
      OneBit(y, j - 1);
      Doubled(y, m');
    } else {
      assert And(1, x) == (if x % 2 == 1 then 1 else 0);
      assert And(x / 2, 0) == 0 && AndNot(x / 2, 0) == x / 2 by {
        AndNotZero(x / 2);
      }
    }
  }

  lemma {:induction false} AndNotZero(a: nat)
    ensures AndNot(a, 0) == a
  {
    if a > 0 {
      AndNotZero(a / 2);
    }
  }

  // x without its lowest set bit.
  function ClearLowest(x: nat): (y: nat)
    ensures y <= x && (x > 0 ==> y < x)
  {
    if x == 0 then 0 else if x % 2 == 1 then x - 1 else 2 * ClearLowest(x / 2)
  }

  lemma {:induction false} ClearLowestBit(x: nat, j: nat)
    requires x % Shifted(1, j) == 0 && And(Shifted(1, j), x) != 0
    ensures ClearLowest(x) == AndNot(x, Shifted(1, j)) == x - Shifted(1, j)
  {
    OneBit(x, j);
    if j > 0 {
      var y, m := x / 2, Shifted(1, j - 1);
      assert x == 2 * y by {
        ModOfMultiple(x, 2, m);
      }
      DoubledMod(y, m);
      Doubled(y, m);
      ClearLowestBit(y, j - 1);
    }
  }
}
