/**
 The 64-bit counters of a session: the login lifecycle and the chunk-group
 generation.  Both start at zero and are incremented by an unsigned 64-bit
 addition that steps over zero when it wraps.
 */
module Counter {

  const WIDTH: nat := 0x1_0000_0000_0000_0000

  /** The number of values the counter takes before it repeats. */
  const CYCLE: nat := WIDTH - 1

  /** One increment: `c++`, then zero becomes one. */
  function Bump(c: nat): nat {
    var wrapped := (c + 1) % WIDTH;
    if wrapped == 0 then 1 else wrapped
  }

  /** The value of the counter after n increments. */
  function After(n: nat): nat {
    if n == 0 then 0 else Bump(After(n - 1))
  }

  lemma ModStep(x: nat, c: nat)
    requires c > 1
    ensures (x + 1) % c == if x % c == c - 1 then 0 else x % c + 1
  {
    var q, r := x / c, x % c;
    if r == c - 1 {
      Quotient(x + 1, q + 1, 0, c);
    } else {
      Quotient(x + 1, q, r + 1, c);
    }
  }

  lemma Quotient(x: nat, q: int, r: nat, c: nat)
    requires r < c && x == q * c + r
    ensures x % c == r
  {
    var k := x / c - q;
    assert k * c == r - x % c by {
      assert x == (x / c) * c + x % c;
      assert k * c == (x / c) * c - q * c;
    }
    if k >= 1 {
      Times(k, c);
    } else if k <= -1 {
      Times(-k, c);
    }
  }

  lemma Times(k: nat, c: nat)
    requires k >= 1
    ensures k * c >= c
  {
    assert k * c == (k - 1) * c + c;
  }

  lemma Distributes(x: int, y: int, c: int)
    ensures (x + y) * c == x * c + y * c
  {
  }

  /** What is a multiple away has the same remainder. */
  lemma CyclesApart(a: nat, d: nat, c: nat)
    requires c > 0
    ensures (a + d * c) % c == a % c
  {
    Distributes(a / c, d, c);
    Quotient(a + d * c, a / c + d, a % c, c);
  }

  /** What has the same remainder is a multiple away. */
  lemma SameRemainder(a: nat, b: nat, c: nat)
    requires a <= b && c > 0 && a % c == b % c
    ensures (b - a) % c == 0
  {
    Distributes(b / c - a / c, a / c, c);
    Quotient(b - a, b / c - a / c, 0, c);
  }

  lemma SameResidue(a: nat, b: nat, c: nat)
    requires a <= b && c > 0
    ensures a % c == b % c <==> (b - a) % c == 0
  {
    if a % c == b % c {
      SameRemainder(a, b, c);
    } else if (b - a) % c == 0 {
      CyclesApart(a, (b - a) / c, c);
    }
  }

  lemma {:induction false} AfterClosedForm(n: nat)
    ensures After(n) == if n == 0 then 0 else (n - 1) % CYCLE + 1
  {
    if n > 1 {
      AfterClosedForm(n - 1);
      ModStep(n - 2, CYCLE);
    }
  }

  /** Two stamps of one counter agree exactly when they are a whole number of cycles apart. */
  lemma SameStamp(m: nat, n: nat)
    requires m <= n
    ensures After(m) == After(n) <==> m == n || (1 <= m && (n - m) % CYCLE == 0)
  {
    AfterClosedForm(m);
    AfterClosedForm(n);
    if m >= 1 {
      SameResidue(m - 1, n - 1, CYCLE);
    }
  }

  /** A stamp that is less than a whole cycle old is current only if nothing was counted since. */
  lemma YoungStamp(m: nat, n: nat)
    requires m <= n < m + CYCLE
    ensures After(m) == After(n) <==> m == n
  {
    SameStamp(m, n);
  }

  /** A counter that was incremented is never zero, and it fits in 64 bits. */
  lemma NeverZero(n: nat)
    ensures 1 <= After(n + 1) < WIDTH
  {
    AfterClosedForm(n + 1);
  }
}
