// Small definitions shared by every component: an option type, the integer
// widths of the C code, and the division facts the rank arithmetic needs.
module Basics {

  datatype Option<+T> = None | Some(value: T)

  // The C `int` the collectives compute ranks, masks and powers with.
  newtype int32 = x: int | -0x8000_0000 <= x < 0x8000_0000

  const INT_MAX: int := 0x7fff_ffff

  const INT_SPAN: int := 0x1_0000_0000

  // What is left of a number stored in an int.
  function ToInt(x: int): (r: int)
    ensures INT_MAX - INT_SPAN < r <= INT_MAX
    ensures 0 <= x ==> r <= x
    ensures 0 <= x <= INT_MAX ==> r == x
    decreases if x > INT_MAX then x + INT_SPAN else if x <= INT_MAX - INT_SPAN then -x else 0
  {
    if x > INT_MAX then ToInt(x - INT_SPAN) else if x <= INT_MAX - INT_SPAN then ToInt(x + INT_SPAN) else x
  }

  lemma ToIntSpan(x: int)
    ensures ToInt(x - INT_SPAN) == ToInt(x)
  {
  }

  // Wrapping after every addition is wrapping once.
  lemma {:induction false} ToIntAdd(a: int, b: int)
    ensures ToInt(ToInt(a) + b) == ToInt(a + b)
    decreases if a > INT_MAX then a + INT_SPAN else if a <= INT_MAX - INT_SPAN then -a else 0
  {
    if a > INT_MAX {
      ToIntAdd(a - INT_SPAN, b);
      ToIntSpan(a + b);
    } else if a <= INT_MAX - INT_SPAN {
      ToIntAdd(a + INT_SPAN, b);
      ToIntSpan(a + INT_SPAN + b);
    }
  }

  function Min(a: nat, b: nat): nat { if a < b then a else b }

  type byte = x: int | 0 <= x < 0x100

  lemma ConcatAssociative<T>(a: seq<T>, b: seq<T>, c: seq<T>)
    ensures a + (b + c) == a + b + c
  {
  }

  lemma MulMonotone(a: int, b: int, m: int)
    requires a <= b && 0 <= m
    ensures a * m <= b * m
  {
    assert 0 <= (b - a) * m;
  }

  lemma QuotientUnique(m: int, q: int, t: int, q': int, t': int)
    requires 0 < m && 0 <= t < m && 0 <= t' < m
    requires q * m + t == q' * m + t'
    ensures q == q' && t == t'
  {
    if q < q' {
      MulMonotone(q + 1, q', m);
    } else if q' < q {
      MulMonotone(q' + 1, q, m);
    }
  }

  lemma DivModUnique(x: int, m: int, q: int, t: int)
    requires 0 < m && 0 <= t < m && x == q * m + t
    ensures x / m == q && x % m == t
  {
    QuotientUnique(m, q, t, x / m, x % m);
  }

  // A multiple of p that is below another multiple of p is at least p below it.
  lemma MultiplesApart(a: int, b: int, p: int)
    requires 0 < p && a % p == 0 && b % p == 0 && a < b
    ensures a + p <= b
  {
    var i, j := a / p, b / p;
    if j <= i {
      MulMonotone(j, i, p);
    } else {
      MulMonotone(i + 1, j, p);
    }
  }

  // Splitting a multiple of p against p * k: the remainder is i * p for one digit i < k.
  lemma SplitDigit(x: int, p: int, k: int) returns (q: int, i: int)
    requires 0 < p && 0 < k && x % p == 0
    ensures 0 <= i < k && x == q * (p * k) + i * p
    ensures 0 <= i * p < p * k && x % (p * k) == i * p
  {
    var y := x / p;
    q, i := y / k, y % k;
    assert y == q * k + i;
    assert (q * k + i) * p == q * (p * k) + i * p;
    MulMonotone(0, i, p);
    MulMonotone(i + 1, k, p);
    DivModUnique(x, p * k, q, i * p);
  }

  lemma NextMultiple(c: nat, p: nat)
    requires 0 < p && c % p == 0
    ensures (c + p) % p == 0
  {
    DivModUnique(c + p, p, c / p + 1, 0);
  }

  lemma StrideMultiple(c: nat, p: nat, k: nat)
    requires 0 < p && c % p == 0
    ensures (c + p * k) % p == 0
  {
    assert (c / p + k) * p == (c / p) * p + k * p;
    DivModUnique(c + p * k, p, c / p + k, 0);
  }

  // Multiples of p * k are multiples of p.
  lemma ModOfMultiple(x: int, p: int, k: int)
    requires 0 < p && 0 < k && p * k > 0 && x % (p * k) == 0
    ensures x % p == 0
  {
    var q := x / (p * k);
    assert x == q * (p * k);
    assert x == (q * k) * p;
    DivModUnique(x, p, q * k, 0);
  }

  // mask after j iterations of `mask <<= 1`.
  function Shifted(mask: nat, j: nat): (m: nat)
    ensures mask > 0 ==> m > 0
  {
    if j == 0 then mask else 2 * Shifted(mask, j - 1)
  }

  lemma {:induction false} ShiftedOnce(mask: nat, j: nat)
    ensures Shifted(2 * mask, j) == 2 * Shifted(mask, j) == Shifted(mask, j + 1)
  {
    if j > 0 {
      ShiftedOnce(mask, j - 1);
    }
  }

  lemma {:induction false} ShiftedIncreases(mask: nat, i: nat, j: nat)
    requires i < j && 0 < mask
    ensures Shifted(mask, i) < Shifted(mask, j)
  {
    if i + 1 < j {
      ShiftedIncreases(mask, i, j - 1);
    }
  }

  // The ranks b above and b below a on a ring of n, written without division;
  // RingIsMod says these are the (a + b) % n and (a - b + n) % n of the C code.
  function Up(n: nat, a: nat, b: nat): (r: nat)
    requires a < n && b < n
    ensures r < n
  {
    if a + b < n then a + b else a + b - n
  }

  function Down(n: nat, a: nat, b: nat): (r: nat)
    requires a < n && b < n
    ensures r < n
  {
    if b <= a then a - b else a - b + n
  }

  lemma RingIsMod(n: nat, a: nat, b: nat)
    requires a < n && b < n
    ensures Up(n, a, b) == (a + b) % n
    ensures Down(n, a, b) == (a - b + n) % n
  {
    DivModUnique(a + b, n, if a + b < n then 0 else 1, Up(n, a, b));
    DivModUnique(a - b + n, n, if b <= a then 1 else 0, Down(n, a, b));
  }

  // The two modular ranks as the C code computes them in int.
  function AddRank(rank: int32, offset: int32, size: int32): (r: int32)
    requires 0 <= rank < size && 0 <= offset < size && size <= 0x4000_0000
    ensures r as int == Up(size as nat, rank as nat, offset as nat)
  {
    RingIsMod(size as nat, rank as nat, offset as nat);
    (rank + offset) % size
  }

  function SubRank(rank: int32, offset: int32, size: int32): (r: int32)
    requires 0 <= rank < size && 0 <= offset < size && size <= 0x4000_0000
    ensures r as int == Down(size as nat, rank as nat, offset as nat)
  {
    RingIsMod(size as nat, rank as nat, offset as nat);
    (rank - offset + size) % size
  }

  // The remainder, with its bounds.
  function Rem(a: nat, m: nat): (r: nat)
    requires m > 0
    ensures r <= a && r < m
  {
    a % m
  }
}
