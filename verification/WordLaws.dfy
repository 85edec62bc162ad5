/** The laws of the machine's 64-bit arithmetic: what each operation means, without saying how it is
    computed. */
module WordLaws {
  import opened Mir
  import B = Bytecode

  // ---- congruence -----------------------------------------------------------------------------

  /** Equal but for the bits beyond the 64th. */
  ghost predicate Congruent(a: int, b: int) {
    exists k: int :: Apart(a, b, k)
  }

  predicate Apart(a: int, b: int, k: int) { a == b + k * B.WORD64 }

  lemma WrapCongruent(v: int)
    ensures Congruent(Wrap(v), v)
  {
    assert Apart(Wrap(v), v, (Wrap(v) - v) / B.WORD64);
  }

  lemma CongruentWords(a: int, b: int)
    requires Word(a) && Word(b) && Congruent(a, b)
    ensures a == b
  {
    var k :| Apart(a, b, k);
  }

  /** A word is known once it is known up to congruence. */
  lemma WrapIs(w: int, v: int)
    requires Word(w) && Congruent(w, v)
    ensures Wrap(v) == w
  {
    WrapCongruent(v);
    var k :| Apart(w, v, k);
    var j :| Apart(Wrap(v), v, j);
    assert Apart(w, Wrap(v), k - j);
    CongruentWords(w, Wrap(v));
  }

  lemma SameWrap(a: int, b: int)
    requires Congruent(a, b)
    ensures Wrap(a) == Wrap(b)
  {
    WrapCongruent(a);
    var k :| Apart(a, b, k);
    var j :| Apart(Wrap(a), a, j);
    assert Apart(Wrap(a), b, k + j);
    WrapIs(Wrap(a), b);
  }

  lemma SumsCongruent(a: int, a': int, b: int, b': int)
    requires Congruent(a, a') && Congruent(b, b')
    ensures Congruent(a + b, a' + b') && Congruent(a - b, a' - b')
  {
    var j :| Apart(a, a', j);
    var k :| Apart(b, b', k);
    assert Apart(a + b, a' + b', j + k) && Apart(a - b, a' - b', j - k);
  }

  lemma SelfCongruent(a: int)
    ensures Congruent(a, a)
  {
    assert Apart(a, a, 0);
  }

  lemma ProductsCongruent(a: int, b: int, b': int)
    requires Congruent(b, b')
    ensures Congruent(a * b, a * b')
  {
    var k :| Apart(b, b', k);
    assert a * (b' + k * B.WORD64) == a * b' + a * k * B.WORD64 by { Distributes(a, b', k); }
    assert Apart(a * b, a * b', a * k);
  }

  lemma Distributes(a: int, b: int, k: int)
    ensures a * (b + k * B.WORD64) == a * b + a * k * B.WORD64
  {
  }

  // ---- sums and products ----------------------------------------------------------------------

  /** Addition is a commutative group with subtraction as its inverse, and exact while it fits. */
  lemma SumLaws(a: int, b: int, c: int)
    requires Word(a) && Word(b) && Word(c)
    ensures Word(Alu64(Add, a, b)) && Alu64(Sub, Alu64(Add, a, b), b) == a && Alu64(Add, a, 0) == a
    ensures Alu64(Add, a, b) == Alu64(Add, b, a)
    ensures Alu64(Add, Alu64(Add, a, b), c) == Alu64(Add, a, Alu64(Add, b, c))
    ensures Word(a + b) ==> Alu64(Add, a, b) == a + b
  {
    SubUndoesAdd(a, b);
    AddAssociates(a, b, c);
  }

  lemma SubUndoesAdd(a: int, b: int)
    requires Word(a)
    ensures Alu64(Sub, Alu64(Add, a, b), b) == a
  {
    WrapTwice(a + b, -b);
    assert Wrap(a + b) + -b == Wrap(a + b) - b && a + b + -b == a;
  }

  lemma AddAssociates(a: int, b: int, c: int)
    ensures Alu64(Add, Alu64(Add, a, b), c) == Alu64(Add, a, Alu64(Add, b, c))
  {
    WrapTwice(a + b, c);
    WrapTwice(b + c, a);
  }

  /** Wrapping in between does not matter. */
  lemma WrapTwice(v: int, d: int)
    ensures Wrap(Wrap(v) + d) == Wrap(v + d)
  {
    WrapCongruent(v);
    SelfCongruent(d);
    SumsCongruent(Wrap(v), v, d, d);
    SameWrap(Wrap(v) + d, v + d);
  }

  /** Multiplication is commutative, has 1 as unit and distributes over addition. */
  lemma ProductLaws(a: int, b: int, c: int)
    requires Word(a) && Word(b) && Word(c)
    ensures Word(Alu64(Mul, a, b)) && Alu64(Mul, a, 1) == a && Alu64(Mul, a, b) == Alu64(Mul, b, a)
    ensures Alu64(Mul, a, Alu64(Add, b, c)) == Alu64(Add, Alu64(Mul, a, b), Alu64(Mul, a, c))
    ensures Word(a * b) ==> Alu64(Mul, a, b) == a * b
  {
    WrapCongruent(b + c);
    ProductsCongruent(a, Wrap(b + c), b + c);
    SameWrap(a * Wrap(b + c), a * (b + c));
    WrapTwice(a * b, Wrap(a * c));
    WrapTwice(a * c, a * b);
    assert a * (b + c) == a * b + a * c;
  }

  // ---- division -------------------------------------------------------------------------------

  lemma QuotientIsWord(l: int, r: int)
    requires Word(l) && Word(r) && r != 0 && !(l == -B.HALF64 && r == -1)
    ensures Word(Quotient(l, r)) && Word(l - Quotient(l, r) * r)
  {
    QuotientTruncates(l, r);
    QuotientSmall(Abs(l), Abs(r));
    if Abs(r) > 1 { QuotientHalf(Abs(l), Abs(r)); }
  }

  lemma QuotientSmall(a: nat, b: nat)
    requires b > 0
    ensures a / b <= a && (b == 1 ==> a / b == a)
  {
    DivisionLeaves(a, b);
    if a / b > a { MoreThan(a / b, b); }
  }

  lemma MoreThan(q: nat, b: nat)
    requires b > 0
    ensures q * b >= q
  {
  }

  lemma QuotientHalf(a: nat, b: nat)
    requires b > 1
    ensures 2 * (a / b) <= a
  {
    DivisionLeaves(a, b);
    AtLeastTwice(a / b, b);
  }

  lemma AtLeastTwice(q: nat, b: nat)
    requires b > 1
    ensures q * b >= 2 * q
  {
    assert q * b == 2 * q + q * (b - 2);
  }

  /** The quotient leaves less than the divisor, with the dividend's sign; the remainder is what it
      leaves; and no other quotient does. */
  lemma DivisionLaws(l: int, r: int, q: int)
    requires Word(l) && Word(r) && r != 0 && !(l == -B.HALF64 && r == -1)
    ensures Leftover(l, r, l - Alu64(Div, l, r) * r)
    ensures Alu64(Rem, l, r) == l - Alu64(Div, l, r) * r
    ensures Leftover(l, r, l - q * r) ==> q == Alu64(Div, l, r)
  {
    QuotientIsWord(l, r);
    QuotientTruncates(l, r);
    if Leftover(l, r, l - q * r) { LeftoverUnique(l, r, q, Quotient(l, r)); }
  }

  lemma LeftoverUnique(l: int, r: int, p: int, q: int)
    requires r != 0 && Leftover(l, r, l - p * r) && Leftover(l, r, l - q * r)
    ensures p == q
  {
    CloseTogether(l, r, p * r, q * r);
    Difference(p, q, r);
    if p != q { AtLeastOnce(p - q, r); }
  }

  lemma CloseTogether(l: int, r: int, x: int, y: int)
    requires Leftover(l, r, l - x) && Leftover(l, r, l - y)
    ensures Abs(x - y) < Abs(r)
  {
  }

  lemma Difference(p: int, q: int, r: int)
    ensures (p - q) * r == p * r - q * r
  {
  }

  lemma AtLeastOnce(d: int, r: int)
    requires d != 0
    ensures Abs(d * r) >= Abs(r)
  {
    if d > 0 {
      assert d * r == r + (d - 1) * r;
      SameSign(d - 1, r);
    } else {
      assert d * r == -r + (d + 1) * r;
      SameSign(-d - 1, r);
      assert (d + 1) * r == -((-d - 1) * r);
    }
  }

  lemma SameSign(k: nat, r: int)
    ensures r >= 0 ==> k * r >= 0
    ensures r <= 0 ==> k * r <= 0
  {
  }

  // ---- shifts ---------------------------------------------------------------------------------

  /** A shift to the left by one more place doubles once more; by none it changes nothing. */
  lemma ShiftLeftLaws(l: int, n: nat)
    requires Word(l) && n < 64
    ensures Alu64(Shl, l, 0) == l
    ensures n < 63 ==> Alu64(Shl, l, n + 1) == Alu64(Add, Alu64(Shl, l, n), Alu64(Shl, l, n))
  {
    PowerZero();
    ShiftIs(l, 0);
    if n < 63 {
      ShiftIs(l, n);
      ShiftIs(l, n + 1);
      PowerNext(n);
      Doubled(l, Power2(n), Power2(n + 1));
    }
  }

  lemma ShiftIs(l: int, n: nat)
    requires n < 64
    ensures Alu64(Shl, l, n) == Wrap(Raised(l, n)) && Alu64(Shr, l, n) == Wrap(Lowered(l, n))
  {
    SmallCount(n);
  }

  lemma SmallCount(n: nat)
    requires n < 64
    ensures n % 64 == n
  {
  }

  lemma PowerNext(n: nat)
    ensures Power2(n + 1) == 2 * Power2(n)
  {
  }

  lemma Doubled(l: int, p: nat, q: nat)
    requires q == 2 * p
    ensures Wrap(l * q) == Wrap(Wrap(l * p) + Wrap(l * p))
  {
    WrapCongruent(l * p);
    SumsCongruent(Wrap(l * p), l * p, Wrap(l * p), l * p);
    SameWrap(Wrap(l * p) + Wrap(l * p), l * p + l * p);
    assert l * (2 * p) == l * p + l * p;
  }

  lemma PowerZero()
    ensures Power2(0) == 1
  {
  }

  /** A shift to the right is the floor of the division by the power, so it undoes a shift to the left
      that lost nothing. */
  lemma ShiftRightLaws(l: int, n: nat)
    requires Word(l) && n < 64
    ensures var q := Alu64(Shr, l, n); q * Power2(n) <= l < (q + 1) * Power2(n)
    ensures Word(l * Power2(n)) ==> Alu64(Shr, Alu64(Shl, l, n), n) == l
  {
    ShiftIs(l, n);
    FloorIs(l, Power2(n));
    FloorIsWord(l, Power2(n));
    if Word(l * Power2(n)) {
      ShiftIs(Wrap(l * Power2(n)), n);
      FloorExact(l, Power2(n));
    }
  }

  lemma FloorIs(l: int, p: nat)
    requires p > 0
    ensures l / p * p <= l < (l / p + 1) * p
  {
    assert l == l / p * p + l % p;
    assert (l / p + 1) * p == l / p * p + p;
  }

  lemma FloorIsWord(l: int, p: nat)
    requires Word(l) && p > 0
    ensures Word(l / p)
  {
    FloorIs(l, p);
    var q := l / p;
    if q >= B.HALF64 { Bigger(q, p); }
    if q < -B.HALF64 {
      Opposite(q + 1, p);
      Bigger(-q - 1, p);
    }
  }

  lemma Opposite(a: int, p: nat)
    ensures a * p == -(-a * p)
  {
  }

  lemma Bigger(q: nat, p: nat)
    requires p > 0
    ensures q * p >= q
  {
  }

  lemma FloorExact(l: int, p: nat)
    requires p > 0
    ensures l * p / p == l
  {
    FloorIs(l * p, p);
    var q := l * p / p;
    assert (l - q) * p == l * p - q * p;
    if l > q { Bigger(l - q, p); OneMore(l - q, p); }
    Opposite(l - q, p);
    if l < q { OneMore(q - l, p); }
  }

  lemma OneMore(k: nat, p: nat)
    requires k > 0 && p > 0
    ensures k * p >= p
  {
    assert k * p == p + (k - 1) * p;
    Bigger(k - 1, p);
  }

  // ---- bits -----------------------------------------------------------------------------------

  /** Bit `k` of a number. */
  function BitAt(v: nat, k: nat): nat
    decreases k
  {
    if k == 0 then v % 2 else BitAt(v / 2, k - 1)
  }

  /** Bit `k` of a word in two's complement. */
  predicate HasBit(v: int, k: nat) { BitAt(v % B.WORD64, k) == 1 }

  lemma {:induction false} BitIsBit(v: nat, k: nat)
    ensures BitAt(v, k) == 0 || BitAt(v, k) == 1
    decreases k
  {
    if k > 0 { BitIsBit(v / 2, k - 1); }
  }

  lemma OnBitIsBit(b: BinOp, x: nat, y: nat)
    requires x < 2 && y < 2
    ensures OnBit(b, x, y) < 2
  {
  }

  lemma {:induction false} OnBitsAt(b: BinOp, x: nat, y: nat, n: nat, k: nat)
    requires k < n
    ensures BitAt(OnBits(b, x, y, n), k) == OnBit(b, BitAt(x, k), BitAt(y, k))
    decreases n
  {
    OnBitIsBit(b, x % 2, y % 2);
    var rest := OnBits(b, x / 2, y / 2, n - 1);
    var o := OnBit(b, x % 2, y % 2);
    assert (o + 2 * rest) % 2 == o && (o + 2 * rest) / 2 == rest;
    if k > 0 { OnBitsAt(b, x / 2, y / 2, n - 1, k - 1); }
  }

  lemma {:induction false} OnBitsSmall(b: BinOp, x: nat, y: nat, n: nat)
    ensures OnBits(b, x, y, n) < Power2(n)
    decreases n
  {
    if n > 0 {
      OnBitIsBit(b, x % 2, y % 2);
      OnBitsSmall(b, x / 2, y / 2, n - 1);
    }
  }

  lemma {:induction false} PowerSum(a: nat, b: nat)
    ensures Power2(a + b) == Power2(a) * Power2(b)
    decreases b
  {
    if b > 0 {
      PowerSum(a, b - 1);
      assert Power2(a + b) == 2 * Power2(a + b - 1);
      Twice(Power2(a), Power2(b - 1));
    }
  }

  lemma Twice(x: nat, y: nat)
    ensures 2 * (x * y) == x * (2 * y)
  {
  }

  lemma WordPower()
    ensures Power2(64) == B.WORD64
  {
    assert Power2(8) == 256;
    PowerSum(8, 8);
    PowerSum(16, 16);
    PowerSum(32, 32);
  }

  lemma BitwiseBits(b: BinOp, l: int, r: int, k: nat)
    requires k < 64
    ensures BitAt(Bitwise(b, l, r) % B.WORD64, k) == OnBit(b, BitAt(l % B.WORD64, k), BitAt(r % B.WORD64, k))
  {
    var x, y := l % B.WORD64, r % B.WORD64;
    WordPower();
    OnBitsSmall(b, x, y, 64);
    assert Bitwise(b, l, r) % B.WORD64 == OnBits(b, x, y, 64);
    OnBitsAt(b, x, y, 64, k);
  }

  /** The bitwise operations work bit by bit. */
  lemma BitLaws(l: int, r: int, k: nat)
    requires k < 64
    ensures HasBit(Alu64(BitAnd, l, r), k) <==> HasBit(l, k) && HasBit(r, k)
    ensures HasBit(Alu64(BitOr, l, r), k) <==> HasBit(l, k) || HasBit(r, k)
    ensures HasBit(Alu64(BitXor, l, r), k) <==> HasBit(l, k) != HasBit(r, k)
  {
    BitIsBit(l % B.WORD64, k);
    BitIsBit(r % B.WORD64, k);
    BitwiseBits(BitAnd, l, r, k);
    BitwiseBits(BitOr, l, r, k);
    BitwiseBits(BitXor, l, r, k);
  }

  lemma {:induction false} SameBits(x: nat, y: nat, n: nat)
    requires x < Power2(n) && y < Power2(n) && forall k: nat :: k < n ==> BitAt(x, k) == BitAt(y, k)
    ensures x == y
    decreases n
  {
    if n > 0 {
      assert BitAt(x, 0) == BitAt(y, 0);
      forall k: nat | k < n - 1 ensures BitAt(x / 2, k) == BitAt(y / 2, k) { assert BitAt(x, k + 1) == BitAt(y, k + 1); }
      SameBits(x / 2, y / 2, n - 1);
    }
  }

  /** Two words with the same bits are equal. */
  lemma BitsDetermine(v: int, w: int)
    requires Word(v) && Word(w) && forall k: nat :: k < 64 ==> (HasBit(v, k) <==> HasBit(w, k))
    ensures v == w
  {
    var x, y := v % B.WORD64, w % B.WORD64;
    forall k: nat | k < 64 ensures BitAt(x, k) == BitAt(y, k) {
      assert HasBit(v, k) <==> HasBit(w, k);
      BitIsBit(x, k);
      BitIsBit(y, k);
    }
    WordPower();
    SameBits(x, y, 64);
  }

  // ---- comparisons ----------------------------------------------------------------------------

  /** Of less, equal and greater exactly one holds, and the others follow from them. */
  lemma OrderLaws(a: int, b: int)
    ensures Compared(Lt, a, b) == Compared(Gt, b, a) && Compared(Le, a, b) != Compared(Gt, a, b)
    ensures Compared(Ge, a, b) != Compared(Lt, a, b) && Compared(Ne, a, b) != Compared(Eq, a, b)
    ensures Compared(Eq, a, b) <==> !Compared(Lt, a, b) && !Compared(Gt, a, b)
    ensures Compared(Lt, a, b + 1) == Compared(Le, a, b) && (Compared(Eq, a, b) <==> a == b)
  {
  }
}
