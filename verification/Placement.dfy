/** Where the RAID layer puts a block: arithmetic of ChooseMinions on block-aligned offsets. */
module Placement {
  import opened Blocks

  const TWO_31 := 0x8000_0000
  const TWO_32 := 0x1_0000_0000
  const TWO_64 := 0x1_0000_0000_0000_0000

  // ------------------------------------------------------------ the choice

  /** The two replicas, or a computation C++ does not define (n = 0, or INT_MAX + 1). */
  datatype Choice = Undefined | Choice(first: int, second: int)

  /** Conversion of an unsigned value to a 32-bit int. */
  function ToInt(x: nat): int { if x % TWO_32 < TWO_31 then x % TWO_32 else x % TWO_32 - TWO_32 }

  /** Conversion of an int to a 32-bit unsigned value. */
  function ToUnsigned(x: int): nat { x % TWO_32 }

  function ChooseMinions(offset: nat, n: nat): Choice {
    if n == 0 then Undefined
    else
      var first := ToInt(offset % n);
      if first == TWO_31 - 1 then Undefined
      else Choice(first, ToInt(ToUnsigned(first + 1) % n))
  }

  predicate ValidPair(c: Choice, n: nat) { c.Choice? && 0 <= c.first < n && 0 <= c.second < n }

  /**
    The choice is a pair of minion numbers for every 64-bit offset if and only if there is
    at least one minion and fewer than 2^31.
  */
  lemma ChoiceIsValidIff(n: nat)
    requires n < TWO_32
    ensures (forall offset: nat | offset < TWO_64 :: ValidPair(ChooseMinions(offset, n), n)) <==> 1 <= n < TWO_31
  {
    if n == 0 || n >= TWO_31 { LargestIntIsBad(n); }
    hide ChooseMinions;
    if 1 <= n < TWO_31 {
      forall offset: nat | offset < TWO_64 ensures ValidPair(ChooseMinions(offset, n), n) {
        ChoiceIsModular(offset, n);
      }
    } else {
      assert !ValidPair(ChooseMinions(TWO_31 - 1, n), n);
    }
  }

  lemma LargestIntIsBad(n: nat)
    requires n == 0 || n >= TWO_31
    ensures ChooseMinions(TWO_31 - 1, n) == Undefined
  {
    if n > 0 { SmallMod(TWO_31 - 1, n); }
  }

  /** In that range: offset mod n and its successor mod n, which differ exactly when n >= 2. */
  lemma ChoiceIsModular(offset: nat, n: nat)
    requires 1 <= n < TWO_31
    ensures var p := offset % n;
            && ChooseMinions(offset, n) == Choice(p, (p + 1) % n)
            && ValidPair(ChooseMinions(offset, n), n)
            && (p != (p + 1) % n <==> n >= 2)
  {
    var p := offset % n;
    SuccessorMod(p, n);
    SmallMod(p, TWO_32);
    SmallMod(p + 1, TWO_32);
    SmallMod((p + 1) % n, TWO_32);
  }

  lemma SuccessorMod(p: nat, n: nat)
    requires p < n
    ensures (p + 1) % n == if p + 1 < n then p + 1 else 0
  {
  }

  // -------------------------------------------------------- divisibility

  ghost predicate Divides(a: int, b: int) { exists q :: b == a * q }

  lemma DividesBy(a: int, b: int, q: int)
    requires b == a * q
    ensures Divides(a, b)
  {
  }

  /** Multiples of n other than zero are at least n away from zero. */
  lemma Apart(n: int, t: int)
    requires n > 0
    ensures t >= 1 ==> n * t >= n
    ensures t <= -1 ==> n * t <= -n
  {
  }

  lemma Distribute(a: int, b: int, c: int)
    ensures a * (b + c) == a * b + a * c && a * (b - c) == a * b - a * c && a * -b == -(a * b)
  {
  }

  lemma Associate(a: int, b: int, c: int)
    ensures (a * b) * c == a * (b * c) == (a * c) * b
  {
  }

  /** Equal remainders if and only if the difference is a multiple. */
  lemma SameRemainder(a: int, b: int, n: int)
    requires n > 0
    ensures a % n == b % n <==> Divides(n, a - b)
  {
    Remainders(a, b, a / n, b / n, a % n, b % n, n);
  }

  lemma Remainders(a: int, b: int, qa: int, qb: int, ra: int, rb: int, n: int)
    requires n > 0 && a == n * qa + ra && b == n * qb + rb && 0 <= ra < n && 0 <= rb < n
    ensures ra == rb <==> Divides(n, a - b)
  {
    Distribute(n, qa, qb);
    if ra == rb {
      DividesBy(n, a - b, qa - qb);
    }
    if Divides(n, a - b) {
      var q :| a - b == n * q;
      Distribute(n, q, qa - qb);
      Apart(n, q - (qa - qb));
    }
  }

  function Gcd(a: nat, b: nat): (g: nat)
    requires a > 0
    ensures g > 0
    decreases b
  {
    if b == 0 then a else Gcd(b, a % b)
  }

  /** g divides a and b, with cofactors p and c, and is their combination by x and y. */
  predicate Combines(g: int, a: int, b: int, p: int, c: int, x: int, y: int) {
    a == g * p && b == g * c && g == a * x + b * y
  }

  /** The greatest common divisor divides both numbers and is a combination of them. */
  lemma {:induction false} Bezout(a: nat, b: nat) returns (p: int, c: int, x: int, y: int)
    requires a > 0
    ensures Combines(Gcd(a, b), a, b, p, c, x, y)
    decreases b
  {
    if b == 0 {
      p, c, x, y := 1, 0, 1, 0;
    } else {
      var p', c', x', y' := Bezout(b, a % b);
      var q := a / b;
      hide Combines;
      BezoutStep(Gcd(a, b), a, b, q, a % b, p', c', x', y');
      p, c, x, y := p' * q + c', p', y', x' - q * y';
    }
  }

  lemma BezoutStep(g: int, a: int, b: int, q: int, r: int, p: int, c: int, x: int, y: int)
    requires a == b * q + r && Combines(g, b, r, p, c, x, y)
    ensures Combines(g, a, b, p * q + c, p, y, x - q * y)
  {
    Distribute(g, p * q, c);
    Associate(g, p, q);
    Distribute(b, x, q * y);
    Associate(b, q, y);
    Distribute(y, b * q, r);
  }

  /** Cofactors of the greatest common divisor are coprime. */
  lemma Coprime(g: int, a: int, b: int, p: int, c: int, x: int, y: int)
    requires g > 0 && Combines(g, a, b, p, c, x, y)
    ensures p * x + c * y == 1
  {
    Associate(g, p, x);
    Associate(g, c, y);
    Distribute(g, p * x, c * y);
    Cancel(g, 1, p * x + c * y);
  }

  lemma Cancel(g: int, a: int, b: int)
    requires g > 0 && g * a == g * b
    ensures a == b
  {
    Distribute(g, a, b);
    Apart(g, a - b);
  }

  /** With n = g p and m = g c for coprime p and c: n divides m d if and only if p divides d. */
  lemma DividesProduct(g: int, n: int, m: int, p: int, c: int, x: int, y: int, d: int)
    requires g > 0 && Combines(g, n, m, p, c, x, y)
    ensures Divides(n, m * d) <==> Divides(p, d)
  {
    if Divides(p, d) {
      var q :| d == p * q;
      ProductUp(g, p, c, q);
      DividesBy(n, m * d, c * q);
    }
    if Divides(n, m * d) {
      var t :| m * d == n * t;
      Associate(g, c, d);
      Associate(g, p, t);
      Cancel(g, c * d, p * t);
      Coprime(g, n, m, p, c, x, y);
      ProductDown(p, c, x, y, d, t);
      DividesBy(p, d, x * d + t * y);
    }
  }

  lemma ProductUp(g: int, p: int, c: int, q: int)
    ensures (g * c) * (p * q) == (g * p) * (c * q)
  {
    Associate(g, c, p * q);
    Associate(g, p, c * q);
    Associate(c, p, q);
    Associate(p, c, q);
  }

  lemma ProductDown(p: int, c: int, x: int, y: int, d: int, t: int)
    requires p * x + c * y == 1 && c * d == p * t
    ensures d == p * (x * d + t * y)
  {
    Distribute(d, p * x, c * y);
    Associate(p, x, d);
    Associate(c, y, d);
    Associate(p, t, y);
    Distribute(p, x * d, t * y);
  }

  lemma Quotient(n: int, g: int, p: int)
    requires g > 0 && n == g * p
    ensures n / g == p
  {
    QuotientIs(n, g, p, n / g, n % g);
  }

  lemma QuotientIs(n: int, g: int, p: int, q: int, r: int)
    requires g > 0 && n == g * p && n == g * q + r && 0 <= r < g
    ensures q == p
  {
    Distribute(g, p, q);
    Apart(g, p - q);
  }

  // ----------------------------------------------------------- placement

  /** The primary minion of block number k. */
  function Primary(k: int, n: nat): int
    requires n > 0
  {
    (BLOCK * k) % n
  }

  function Step(n: nat): nat
    requires n > 0
  {
    Gcd(n, BLOCK)
  }

  /** Blocks share a primary if and only if n / gcd(n, 4096) divides their distance. */
  lemma SamePrimaryIff(k: int, k': int, n: nat)
    requires n > 0
    ensures Primary(k, n) == Primary(k', n) <==> Divides(n / Step(n), k - k')
  {
    var p, c, x, y := Bezout(n, BLOCK);
    Quotient(n, Step(n), p);
    SameRemainder(BLOCK * k, BLOCK * k', n);
    assert BLOCK * k - BLOCK * k' == BLOCK * (k - k');
    DividesProduct(Step(n), n, BLOCK, p, c, x, y, k - k');
  }

  /** Every primary is a multiple of gcd(n, 4096). */
  lemma PrimaryIsMultiple(k: int, n: nat)
    requires n > 0
    ensures Divides(Step(n), Primary(k, n))
  {
    var p, c, x, y := Bezout(n, BLOCK);
    MultipleIs(Step(n), n, BLOCK, p, c, k, (BLOCK * k) / n, Primary(k, n));
  }

  lemma MultipleIs(g: int, n: int, m: int, p: int, c: int, k: int, q: int, r: int)
    requires n == g * p && m == g * c && m * k == n * q + r
    ensures Divides(g, r)
  {
    Associate(g, c, k);
    Associate(g, p, q);
    Distribute(g, c * k, p * q);
    DividesBy(g, r, c * k - p * q);
  }

  /** A block, possibly of negative number, whose primary is g m. */
  lemma SomeBlockHits(g: int, n: nat, p: int, c: int, x: int, y: int, m: nat)
    requires n > 0 && Combines(g, n, BLOCK, p, c, x, y) && 0 <= g * m < n
    ensures Primary(y * m, n) == g * m
  {
    var t := g * m;
    HitDistance(g, n, BLOCK, x, y, m);
    DividesBy(n, BLOCK * (y * m) - t, -(x * m));
    SameRemainder(BLOCK * (y * m), t, n);
    SmallMod(t, n);
  }

  lemma SmallMod(t: int, n: int)
    requires 0 <= t < n
    ensures t % n == t
  {
  }

  lemma HitDistance(g: int, n: int, b: int, x: int, y: int, m: int)
    requires g == n * x + b * y
    ensures b * (y * m) - g * m == n * -(x * m)
  {
    Associate(n, x, m);
    Associate(b, y, m);
    Distribute(m, n * x, b * y);
    Distribute(n, x * m, 0);
  }

  /** The representative of k0 among p consecutive numbers. */
  lemma Shift(start: int, k0: int, p: int) returns (k: int)
    requires p > 0
    ensures start <= k < start + p && Divides(p, k - k0)
  {
    var q, r := (k0 - start) / p, (k0 - start) % p;
    k := start + r;
    Distribute(p, q, 0);
    DividesBy(p, k - k0, -q);
  }

  /**
    Any n / gcd(n, 4096) consecutive blocks hit each multiple of gcd(n, 4096) below n
    exactly once.
  */
  lemma WindowHitsOnce(start: int, m: nat, n: nat) returns (k: int)
    requires n > 0 && Step(n) * m < n
    ensures start <= k < start + n / Step(n) && Primary(k, n) == Step(n) * m
    ensures forall k' | start <= k' < start + n / Step(n) && Primary(k', n) == Step(n) * m :: k' == k
  {
    var p, c, x, y := Bezout(n, BLOCK);
    Quotient(n, Step(n), p);
    SomeBlockHits(Step(n), n, p, c, x, y, m);
    assert p > 0 by { Apart(Step(n), p); }
    k := Shift(start, y * m, p);
    SamePrimaryIff(k, y * m, n);
    hide Primary, Step, Combines;
    forall k' | start <= k' < start + p && Primary(k', n) == Step(n) * m ensures k' == k {
      SamePrimaryIff(k', k, n);
      var q :| k' - k == p * q;
      Apart(p, q);
    }
  }

  /** Minion i is the primary of one of the first n blocks. */
  ghost predicate Serves(i: int, n: nat)
    requires n > 0
  {
    exists k :: 0 <= k < n && Primary(k, n) == i
  }

  /**
    Every minion is the primary of one of the first n blocks if and only if their number is
    odd; if it is even, minion 1 is the primary of no block at all.
  */
  lemma BalancedIffOdd(n: nat)
    requires n > 0
    ensures (forall i | 0 <= i < n :: Serves(i, n)) <==> n % 2 == 1
    ensures n % 2 == 0 ==> forall k :: Primary(k, n) != 1
  {
    if n % 2 == 1 {
      OddHasStepOne(n);
      forall i | 0 <= i < n ensures Serves(i, n) {
        var k := WindowHitsOnce(0, i, n);
        assert n / 1 == n;
      }
    } else {
      EvenMissesOne(n);
      hide Primary;
      assert !Serves(1, n);
    }
  }

  lemma EvenMissesOne(n: nat)
    requires n > 1 && n % 2 == 0
    ensures forall k :: Primary(k, n) != 1
  {
    var p, c, x, y := Bezout(n, BLOCK);
    EvenCombination(n, x, y);
    forall k ensures Primary(k, n) != 1 {
      PrimaryIsMultiple(k, n);
      var q :| Primary(k, n) == Step(n) * q;
      Parity(Step(n), q);
    }
  }

  lemma EvenCombination(n: int, x: int, y: int)
    requires n % 2 == 0
    ensures (n * x + BLOCK * y) % 2 == 0
  {
    Parity(n, x);
    EvenSum(n * x, y);
  }

  lemma EvenSum(a: int, y: int)
    requires a % 2 == 0
    ensures (a + BLOCK * y) % 2 == 0
  {
    assert a + BLOCK * y == 2 * (a / 2 + 2048 * y);
  }

  /** The parity of a product. */
  lemma Parity(a: int, b: int)
    ensures (a * b) % 2 == if a % 2 == 0 then 0 else b % 2
  {
    ParityOf(a, b, a / 2, a % 2);
  }

  lemma ParityOf(a: int, b: int, h: int, r: int)
    requires a == 2 * h + r && 0 <= r < 2
    ensures (a * b) % 2 == if r == 0 then 0 else b % 2
  {
    Associate(2, h, b);
    Distribute(b, 2 * h, r);
    EvenPlus(h * b, if r == 0 then 0 else b, a * b);
  }

  lemma EvenPlus(t: int, b: int, c: int)
    requires c == 2 * t + b
    ensures c % 2 == b % 2
  {
  }

  lemma OddHasStepOne(n: nat)
    requires n % 2 == 1
    ensures Step(n) == 1
  {
    var p, c, x, y := Bezout(n, BLOCK);
    Parity(Step(n), p);
    OddDividesPower(Step(n), c, 12);
  }

  function Power2(e: nat): nat { if e == 0 then 1 else 2 * Power2(e - 1) }

  /** An odd divisor of a power of two is one. */
  lemma {:induction false} OddDividesPower(g: nat, c: int, e: nat)
    requires g % 2 == 1 && g * c == Power2(e)
    ensures g == 1
  {
    Parity(g, c);
    if e == 0 {
      Apart(g, c);
      if c <= 0 { Apart(g, -c); }
    } else {
      HalfProduct(g, c);
      OddDividesPower(g, c / 2, e - 1);
    }
  }

  lemma HalfProduct(g: int, c: int)
    requires c % 2 == 0
    ensures g * c == 2 * (g * (c / 2))
  {
    Associate(g, c / 2, 2);
  }
}
