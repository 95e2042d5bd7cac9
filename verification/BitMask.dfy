/** Bitwise "and" on unbounded naturals, and the two facts about powers of two that the
    ring buffers rely on: masking with 2^k - 1 is the remainder by 2^k, and `c & (c - 1)`
    is zero exactly for powers of two (and for zero). */
module BitMask {

  function And(a: nat, b: nat): nat {
    if a == 0 || b == 0 then 0 else 2 * And(a / 2, b / 2) + (a % 2) * (b % 2)
  }

  ghost predicate IsPowerOfTwo(c: nat) {
    c == 1 || (c > 1 && c % 2 == 0 && IsPowerOfTwo(c / 2))
  }

  lemma {:induction false} AndSelf(a: nat)
    ensures And(a, a) == a
  {
    if a > 0 { AndSelf(a / 2); }
  }

  lemma {:induction false} MaskIsRemainder(x: nat, c: nat)
    requires IsPowerOfTwo(c)
    ensures And(x, c - 1) == x % c
  {
    if c > 1 {
      var h := c / 2;
      MaskIsRemainder(x / 2, h);
      AndOdd(x, h);
      RemainderDoubles(x, h);
    }
  }

  lemma AndOdd(x: nat, h: nat)
    requires h > 0
    ensures And(x, 2 * h - 1) == 2 * And(x / 2, h - 1) + x % 2
  {
    assert (2 * h - 1) / 2 == h - 1 && (2 * h - 1) % 2 == 1;
  }

  lemma RemainderDoubles(x: nat, h: nat)
    requires h > 0
    ensures x % (2 * h) == 2 * ((x / 2) % h) + x % 2
  {
    var q, r := (x / 2) / h, (x / 2) % h;
    assert x / 2 == h * q + r;
    assert (2 * h) * q == 2 * (h * q);
    RemainderUnique(x, 2 * h, q, 2 * r + x % 2);
  }

  lemma RemainderUnique(x: int, c: int, q: int, r: int)
    requires 0 <= r < c && x == c * q + r
    ensures x / c == q && x % c == r
  {
    var q', r' := x / c, x % c;
    assert c * (q - q') == r' - r;
    if q > q' { MulAtLeast(c, q - q'); }
    if q < q' { MulAtLeast(c, q' - q); }
  }

  lemma MulAtLeast(c: int, k: int)
    requires c > 0 && k >= 1
    ensures c * k >= c
  {
    assert c * k == c * (k - 1) + c;
    assert c * (k - 1) >= 0;
  }

  /** The test made by WorkStealingQueue::init. */
  lemma {:induction false} PowerOfTwoTest(c: nat)
    requires c > 0
    ensures And(c, c - 1) == 0 <==> IsPowerOfTwo(c)
  {
    if c > 1 {
      if c % 2 == 1 {
        assert (c - 1) / 2 == c / 2;
        AndSelf(c / 2);
      } else {
        assert (c - 1) / 2 == c / 2 - 1;
        PowerOfTwoTest(c / 2);
      }
    }
  }

  /** Two indices less than `c` apart fall into different slots of a ring of `c` slots. */
  lemma SlotsDiffer(i: int, j: int, c: int)
    requires c > 0 && i < j < i + c
    ensures i % c != j % c
  {
    if i % c == j % c {
      var d := j / c - i / c;
      assert j - i == c * d;
      if d >= 1 { MulAtLeast(c, d); }
    }
  }
}
