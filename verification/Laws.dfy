/** What the operators compute, said by laws between their results: each is the inverse
    of another, a repetition of a simpler one, or acts bit by bit. */
module Laws {
  import opened Syntax
  import opened Values
  import Hashing

  /** The operator gives this integer. */
  predicate Gives(op: BinOp, a: int, b: int, c: int) { ApplyBinary(op, IntV(a), IntV(b)) == Yield(IntV(c)) }

  /** The comparison gives this truth value. */
  predicate Says(op: BinOp, a: Value, b: Value, holds: bool) { ApplyBinary(op, a, b) == Yield(BoolV(holds)) }

  /** The texts of the errors. */
  lemma Texts()
    ensures Overflow("+") == StrV("Integer overflow in +\n") && Overflow("-") == StrV("Integer overflow in -\n")
    ensures Overflow("*") == StrV("Integer overflow in *\n")
    ensures Invalid("+") == StrV("Invalid operands for +\n") && Invalid("-") == StrV("Invalid operands for -\n")
    ensures Invalid("*") == StrV("Invalid operands for *\n") && Invalid("/") == StrV("Invalid operands for /\n")
  {
    assert "Integer overflow in " + "+" + "\n" == "Integer overflow in +\n";
    assert "Integer overflow in " + "-" + "\n" == "Integer overflow in -\n";
    assert "Integer overflow in " + "*" + "\n" == "Integer overflow in *\n";
    assert "Invalid operands for " + "+" + "\n" == "Invalid operands for +\n";
    assert "Invalid operands for " + "-" + "\n" == "Invalid operands for -\n";
    assert "Invalid operands for " + "*" + "\n" == "Invalid operands for *\n";
    assert "Invalid operands for " + "/" + "\n" == "Invalid operands for /\n";
  }

  // ----- addition, subtraction, multiplication -----

  /** Addition begins with zero and goes on by one. */
  lemma AddSteps(a: int, b: int)
    requires IsInt64(a) && IsInt64(b)
    ensures Gives(Add, a, 0, a)
    ensures b < INT_MAX ==> forall c :: IsInt64(c) && c < INT_MAX ==> (Gives(Add, a, b, c) <==> Gives(Add, a, b + 1, c + 1))
    ensures b > INT_MIN ==> forall c :: IsInt64(c) && c > INT_MIN ==> (Gives(Add, a, b, c) <==> Gives(Add, a, b - 1, c - 1))
  {
  }

  /** Overflow is an error, exactly when the second operand is beyond what is left. */
  lemma AddOverflows(a: int, b: int)
    requires IsInt64(a) && IsInt64(b)
    ensures ApplyBinary(Add, IntV(a), IntV(b)) == Raise(StrV("Integer overflow in +\n"))
       <==> (a >= 0 && b > INT_MAX - a) || (a < 0 && b < INT_MIN - a)
    ensures (exists c :: IsInt64(c) && Gives(Add, a, b, c)) || ApplyBinary(Add, IntV(a), IntV(b)) == Raise(StrV("Integer overflow in +\n"))
  {
    Texts();
    if IsInt64(a + b) {
      assert Gives(Add, a, b, a + b);
    }
  }

  /** Subtraction undoes addition. */
  lemma SubUndoesAdd(a: int, b: int, c: int)
    requires IsInt64(a) && IsInt64(b) && IsInt64(c)
    ensures Gives(Sub, a, b, c) <==> Gives(Add, c, b, a)
  {
  }

  lemma SubOverflows(a: int, b: int)
    requires IsInt64(a) && IsInt64(b)
    ensures ApplyBinary(Sub, IntV(a), IntV(b)) == Raise(StrV("Integer overflow in -\n"))
       <==> forall c :: IsInt64(c) ==> !Gives(Add, c, b, a)
  {
    Texts();
    if IsInt64(a - b) {
      assert Gives(Add, a - b, b, a);
    }
  }

  /** Multiplication is repeated addition. */
  lemma MulSteps(a: int, b: int, c: int)
    requires IsInt64(a) && IsInt64(b) && b < INT_MAX && IsInt64(c)
    ensures Gives(Mul, a, 0, 0)
    ensures forall d :: IsInt64(d) && Gives(Mul, a, b, c) && Gives(Mul, a, b + 1, d) ==> Gives(Add, c, a, d)
    ensures forall d :: IsInt64(d) && Gives(Mul, a, b, c) && Gives(Add, c, a, d) ==> Gives(Mul, a, b + 1, d)
    ensures forall d :: IsInt64(d) && Gives(Mul, a, b + 1, d) && Gives(Sub, d, a, c) ==> Gives(Mul, a, b, c)
  {
    assert a * (b + 1) == a * b + a;
  }

  /** Division without remainder undoes multiplication; where nothing does, multiplying
      overflows. */
  lemma MulUndoneByDiv(a: int, b: int, c: int)
    requires IsInt64(a) && IsInt64(b) && IsInt64(c) && b != 0 && b != -1
    ensures Gives(Mul, a, b, c) <==> Gives(Div, c, b, a) && Gives(Mod, c, b, 0)
  {
    if Gives(Mul, a, b, c) {
      DivExact(a, b);
    }
  }

  lemma MulOverflows(a: int, b: int)
    requires IsInt64(a) && IsInt64(b)
    ensures ApplyBinary(Mul, IntV(a), IntV(b)) == Raise(StrV("Integer overflow in *\n"))
       <==> forall c :: IsInt64(c) ==> !Gives(Mul, a, b, c)
  {
    Texts();
    if IsInt64(a * b) {
      assert Gives(Mul, a, b, a * b);
    }
  }

  lemma DivExact(a: int, b: int)
    requires b != 0
    ensures TruncDiv(a * b, b) == a
  {
    var n := if a * b >= 0 then a * b else -(a * b);
    var q := if a * b >= 0 then a else -a;
    assert n == b * q;
    QuotientIs(n, b, q, 0);
  }

  /** Quotient and remainder are the only ones. */
  lemma QuotientIs(n: int, b: int, q: int, r: int)
    requires b != 0 && n == b * q + r && 0 <= r < Abs(b)
    ensures n / b == q && n % b == r
  {
    var q1, r1 := n / b, n % b;
    assert n == b * q1 + r1 && 0 <= r1 < Abs(b);
    assert b * (q - q1) == r1 - r;
    SmallMultiple(b, q - q1);
  }

  lemma SmallMultiple(b: int, d: int)
    requires b * d < Abs(b) && -(b * d) < Abs(b)
    ensures d == 0
  {
    AbsProduct(b, d);
    if Abs(d) >= 1 {
      AtLeastOnce(Abs(b), Abs(d));
    }
  }

  lemma AtLeastOnce(p: nat, d: nat)
    requires d >= 1
    ensures p * d >= p
  {
    assert p * d == p * (d - 1) + p;
    assert p * (d - 1) >= 0;
  }

  lemma AbsProduct(b: int, k: int)
    ensures Abs(b * k) == Abs(b) * Abs(k)
  {
    if b < 0 {
      assert b * k == -((-b) * k);
    }
    if k < 0 {
      assert Abs(b) * k == -(Abs(b) * (-k));
    }
    NotNegative(Abs(b), Abs(k));
  }

  lemma NotNegative(p: nat, d: nat)
    ensures p * d >= 0
  {
  }

  // ----- division and remainder -----

  /** Quotient times divisor plus remainder is the dividend; the remainder is smaller than
      the divisor and has the sign of the dividend. */
  lemma DivMod(a: int, b: int) returns (q: int, r: int)
    requires IsInt64(a) && IsInt64(b) && b != 0 && !(a == INT_MIN && b == -1)
    ensures Gives(Div, a, b, q) && Gives(Mod, a, b, r)
    ensures q * b + r == a && Abs(r) < Abs(b) && (r == 0 || (r > 0) == (a > 0))
    ensures IsInt64(q) && IsInt64(r)
  {
    q, r := TruncDiv(a, b), TruncMod(a, b);
    DivModSize(a, b);
  }

  function Abs(n: int): nat { if n >= 0 then n else -n }

  lemma DivModSize(a: int, b: int)
    requires b != 0
    ensures var q, r := TruncDiv(a, b), TruncMod(a, b);
            q * b + r == a && Abs(r) < Abs(b) && (r == 0 || (r > 0) == (a > 0)) && Abs(q) <= Abs(a)
    ensures Abs(TruncDiv(a, b)) == Abs(a) ==> a == 0 || Abs(b) == 1
  {
    var q, m := TruncDiv(a, b), Abs(a);
    var k := m / b;
    assert m == b * k + m % b && 0 <= m % b < Abs(b);
    if a < 0 {
      assert q * b == -(k * b);
    }
    QuotientSize(m, b);
  }

  lemma QuotientSize(m: nat, b: int)
    requires b != 0
    ensures Abs(m / b) <= m && (Abs(m / b) == m ==> m == 0 || Abs(b) == 1)
  {
    var k := m / b;
    var n := b * k;
    assert m == n + m % b && 0 <= m % b < Abs(b);
    AbsProduct(b, k);
    if k != 0 {
      AtLeastOnce(Abs(b), Abs(k));
      assert Abs(n) >= Abs(b) && n + Abs(b) > 0;
    }
    assert Abs(n) <= m;
    Factor(Abs(b), Abs(k), m);
  }

  lemma Factor(p: nat, q: nat, m: nat)
    requires p >= 1 && p * q <= m
    ensures q <= m && (q == m ==> m == 0 || p == 1)
  {
    if q >= 1 {
      AtLeastOnce(q, p);
      assert q * p == p * q;
      if p >= 2 {
        AtLeastOnce(q, p - 1);
        assert q * p == q * (p - 1) + q;
      }
    }
  }

  /** Only a zero divisor and the quotient that does not fit stop the process. */
  lemma DivModTrap(op: BinOp, a: int, b: int)
    requires IsInt64(a) && IsInt64(b) && (op == Div || op == Mod)
    ensures ApplyBinary(op, IntV(a), IntV(b)) == Abort <==> b == 0 || (a == INT_MIN && b == -1)
  {
  }

  /** One more and one less. */
  lemma BumpIsNext(a: int)
    requires IsInt64(a)
    ensures a < INT_MAX ==> ApplyBump(true, IntV(a)) == Yield(IntV(a + 1)) && ApplyBump(false, IntV(a + 1)) == Yield(IntV(a))
    ensures ApplyBump(true, IntV(INT_MAX)) == Raise(StrV("Integer overflow in +\n"))
    ensures ApplyBump(false, IntV(INT_MIN)) == Raise(StrV("Integer overflow in -\n"))
  {
    Texts();
  }

  /** Negation: the sum with the operand is zero.  The least integer has no negation and
      stays itself. */
  lemma NegIsInverse(a: int, c: int)
    requires IsInt64(a) && IsInt64(c)
    ensures a != INT_MIN ==> (ApplyUnary(Neg, IntV(a)) == Yield(IntV(c)) <==> Gives(Add, a, c, 0))
    ensures ApplyUnary(Neg, IntV(INT_MIN)) == Yield(IntV(INT_MIN))
  {
  }

  // ----- comparisons -----

  /** The order that an operator stands for. */
  predicate Holds(op: BinOp, less: bool, equal: bool)
    requires op in {Lt, Le, Gt, Ge}
  {
    (op in {Lt, Le} && less) || (op in {Le, Ge} && equal) || (op in {Gt, Ge} && !less && !equal)
  }

  /** Each comparison of integers tells the order if and only if their difference fits. */
  lemma ComparesIff(op: BinOp, m: int, n: int)
    requires op in {Lt, Le, Gt, Ge} && IsInt64(m) && IsInt64(n)
    ensures Says(op, IntV(m), IntV(n), Holds(op, m < n, m == n)) <==> IsInt64(m - n)
    ensures !IsInt64(m - n) ==> Says(op, IntV(m), IntV(n), !Holds(op, m < n, m == n))
  {
    var d := m - n;
    if d > INT_MAX {
      assert Wrap(d) == d - TWO_64;
    } else if d < INT_MIN {
      assert Wrap(d) == d + TWO_64;
    }
  }

  /** Strings are ordered by length, and those of one length by the first character in
      which they differ. */
  ghost predicate Before(s: string, t: string) {
    |s| < |t| || (|s| == |t| && exists i :: 0 <= i < |s| && s[..i] == t[..i] && s[i] < t[i])
  }

  lemma {:induction false} ByteOrderIs(s: string, t: string)
    requires |s| == |t|
    ensures ByteOrder(s, t) < 0 <==> Before(s, t)
    ensures ByteOrder(s, t) == 0 <==> s == t
    ensures ByteOrder(s, t) > 0 <==> Before(t, s)
  {
    if s != [] {
      ByteOrderIs(s[1..], t[1..]);
      BeforeHead(s, t);
      BeforeHead(t, s);
      assert s == [s[0]] + s[1..] && t == [t[0]] + t[1..];
    }
  }

  lemma BeforeHead(s: string, t: string)
    requires |s| == |t| > 0
    ensures Before(s, t) <==> s[0] < t[0] || (s[0] == t[0] && Before(s[1..], t[1..]))
  {
    hide Before;
    if Before(s, t) && !(s[0] < t[0]) {
      BeforeRest(s, t);
    }
    if s[0] < t[0] || (s[0] == t[0] && Before(s[1..], t[1..])) {
      RestBefore(s, t);
    }
  }

  lemma BeforeRest(s: string, t: string)
    requires |s| == |t| > 0 && Before(s, t) && !(s[0] < t[0])
    ensures s[0] == t[0] && Before(s[1..], t[1..])
  {
    var i :| 0 <= i < |s| && s[..i] == t[..i] && s[i] < t[i];
    assert i > 0 && s[..i][0] == t[..i][0];
    assert s[1..][..i - 1] == s[..i][1..] && t[1..][..i - 1] == t[..i][1..];
    assert s[1..][i - 1] < t[1..][i - 1];
  }

  lemma RestBefore(s: string, t: string)
    requires |s| == |t| > 0 && (s[0] < t[0] || (s[0] == t[0] && Before(s[1..], t[1..])))
    ensures Before(s, t)
  {
    if s[0] < t[0] {
      assert s[..0] == t[..0];
    } else {
      var i :| 0 <= i < |s[1..]| && s[1..][..i] == t[1..][..i] && s[1..][i] < t[1..][i];
      assert s[..i + 1] == [s[0]] + s[1..][..i] && t[..i + 1] == [t[0]] + t[1..][..i];
      assert s[i + 1] < t[i + 1];
    }
  }

  /** Each comparison of strings tells that order. */
  lemma StringsCompare(op: BinOp, s: string, t: string)
    requires op in {Lt, Le, Gt, Ge}
    ensures Says(op, StrV(s), StrV(t), Holds(op, Before(s, t), s == t))
    ensures (Before(s, t) && s != t && !Before(t, s)) || (!Before(s, t) && s == t && !Before(t, s)) || (!Before(s, t) && s != t && Before(t, s))
  {
    if |s| == |t| {
      ByteOrderIs(s, t);
    }
  }

  lemma BeforeTransitive(s: string, t: string, u: string)
    requires Before(s, t) && Before(t, u)
    ensures Before(s, u)
  {
    if |s| == |u| {
      var i :| 0 <= i < |s| && s[..i] == t[..i] && s[i] < t[i];
      var j :| 0 <= j < |t| && t[..j] == u[..j] && t[j] < u[j];
      var k := if i < j then i else j;
      assert s[..k] == s[..i][..k] == t[..i][..k] == t[..k];
      assert t[..k] == t[..j][..k] == u[..j][..k] == u[..k];
      assert i < j ==> t[..j][i] == u[..j][i];
      assert j < i ==> s[..i][j] == t[..i][j];
      assert s[k] < u[k];
    }
  }

  /** Other values are comparable only when they are equal. */
  lemma Incomparable(op: BinOp, a: Value, b: Value)
    requires op in {Lt, Le, Gt, Ge} && !(a.IntV? && b.IntV?) && !(a.StrV? && b.StrV?)
    ensures a == b ==> Says(op, a, b, op in {Le, Ge})
    ensures a != b ==> ApplyBinary(op, a, b) == Raise(StrV("Cannot compare values of types " + TypeName(a) + " and " + TypeName(b)))
  {
  }

  /** Equality: of integers when their difference is zero, of strings when neither comes
      before the other, and never between types. */
  lemma Equality(a: Value, b: Value)
    ensures Says(Eq, a, b, true) || Says(Eq, a, b, false)
    ensures Says(Ne, a, b, true) <==> Says(Eq, a, b, false)
    ensures Says(Ne, a, b, false) <==> Says(Eq, a, b, true)
    ensures a.IntV? && b.IntV? ==> (Says(Eq, a, b, true) <==> Gives(Sub, a.n, b.n, 0))
    ensures a.StrV? && b.StrV? ==> (Says(Eq, a, b, true) <==> Says(Lt, a, b, false) && Says(Gt, a, b, false))
    ensures Says(Eq, a, a, true) && (TypeName(a) != TypeName(b) ==> Says(Eq, a, b, false))
  {
    if a.IntV? && b.IntV? {
      assert a == IntV(a.n) && b == IntV(b.n);
      SubIsZero(a.n, b.n);
    }
    if a.StrV? && b.StrV? {
      StringsCompare(Lt, a.s, b.s);
      StringsCompare(Gt, a.s, b.s);
    }
  }

  lemma SubIsZero(m: int, n: int)
    ensures Gives(Sub, m, n, 0) <==> m == n
  {
    assert ApplyBinary(Sub, IntV(m), IntV(n)) == Checked(m - n, "-");
  }

  // ----- bits -----

  /** The `i`th bit of a two's complement number. */
  predicate Bit(n: int, i: nat)
    decreases i
  {
    if i == 0 then n % 2 == 1 else Bit(n / 2, i - 1)
  }

  predicate OnBits(op: BinOp, p: bool, q: bool) {
    match op
    case BitAnd => p && q
    case BitOr => p || q
    case _ => p != q
  }

  lemma {:induction false} BitsAt(op: BinOp, a: int, b: int, n: nat, i: nat)
    requires op in {BitAnd, BitOr, BitXor} && i < n
    ensures Bit(Bits(op, a, b, n), i) == OnBits(op, Bit(a, i), Bit(b, i))
    decreases n
  {
    var rest := Bits(op, a / 2, b / 2, n - 1);
    assert Bits(op, a, b, n) / 2 == rest;
    if i == 0 {
      assert Bits(op, a, b, n) % 2 == if OnBits(op, a % 2 == 1, b % 2 == 1) then 1 else 0;
    } else {
      BitsAt(op, a / 2, b / 2, n - 1, i - 1);
    }
  }

  lemma {:induction false} BitsRange(op: BinOp, a: int, b: int, n: nat)
    ensures 0 <= Bits(op, a, b, n) < Hashing.Pow2(n)
    decreases n
  {
    if n > 0 {
      BitsRange(op, a / 2, b / 2, n - 1);
    }
  }

  lemma {:induction false} BitBelow(n: int, k: nat, i: nat)
    requires i < k
    ensures Bit(n - Hashing.Pow2(k), i) == Bit(n, i)
    decreases k
  {
    var p := Hashing.Pow2(k - 1);
    assert (n - 2 * p) / 2 == n / 2 - p && (n - 2 * p) % 2 == n % 2;
    if i > 0 {
      BitBelow(n / 2, k - 1, i - 1);
    }
  }

  /** `&`, `|` and `^` act on each of the 64 bits by itself. */
  lemma BitwiseBits(op: BinOp, a: int, b: int) returns (c: int)
    requires op in {BitAnd, BitOr, BitXor}
    ensures Gives(op, a, b, c) && IsInt64(c)
    ensures forall i :: 0 <= i < 64 ==> Bit(c, i) == OnBits(op, Bit(a, i), Bit(b, i))
  {
    hide Bits, Bit, Hashing.Pow2, OnBits;
    var n := Bits(op, a, b, 64);
    c := Wrap(n);
    BitsRange(op, a, b, 64);
    Power64();
    assert c == n || c == n - TWO_64;
    forall i | 0 <= i < 64
      ensures Bit(c, i) == OnBits(op, Bit(a, i), Bit(b, i))
    {
      BitsAt(op, a, b, 64, i);
      BitBelow(n, 64, i);
    }
  }

  lemma Power64()
    ensures Hashing.Pow2(64) == TWO_64 && Hashing.Pow2(63) == -INT_MIN
  {
    assert Hashing.Pow2(4) == 16;
    Power4More(4);
    Power4More(8);
    Power4More(12);
    Power4More(16);
    Power4More(20);
    Power4More(24);
    Power4More(28);
    Power4More(32);
    Power4More(36);
    Power4More(40);
    Power4More(44);
    Power4More(48);
    Power4More(52);
    Power4More(56);
    Power4More(60);
  }

  lemma Power4More(k: nat)
    ensures Hashing.Pow2(k + 4) == 16 * Hashing.Pow2(k)
  {
    assert Hashing.Pow2(k + 4) == 2 * Hashing.Pow2(k + 3);
    assert Hashing.Pow2(k + 3) == 2 * Hashing.Pow2(k + 2);
    assert Hashing.Pow2(k + 2) == 2 * Hashing.Pow2(k + 1);
  }

  /** `~` flips every bit. */
  lemma BitNotFlips(a: int) returns (c: int)
    requires IsInt64(a)
    ensures ApplyUnary(BitNot, IntV(a)) == Yield(IntV(c)) && IsInt64(c)
    ensures forall i :: 0 <= i < 64 ==> Bit(c, i) == !Bit(a, i)
  {
    c := -a - 1;
    forall i | 0 <= i < 64
      ensures Bit(c, i) == !Bit(a, i)
    {
      FlippedAt(a, i);
    }
  }

  lemma {:induction false} FlippedAt(a: int, i: nat)
    ensures Bit(-a - 1, i) == !Bit(a, i)
    decreases i
  {
    assert (-a - 1) / 2 == -(a / 2) - 1;
    if i > 0 {
      FlippedAt(a / 2, i - 1);
    }
  }

  /** The 64 bits determine the number. */
  lemma SameBits(m: int, n: int)
    requires IsInt64(m) && IsInt64(n) && forall i :: 0 <= i < 64 ==> Bit(m, i) == Bit(n, i)
    ensures m == n
  {
    Power64();
    SameLowBits(m, n, 64);
    SmallMultiple(TWO_64, (m - n) / TWO_64);
  }

  lemma {:induction false} SameLowBits(m: int, n: int, k: nat)
    requires forall i :: 0 <= i < k ==> Bit(m, i) == Bit(n, i)
    ensures (m - n) % Hashing.Pow2(k) == 0
    decreases k
  {
    if k > 0 {
      forall i | 0 <= i < k - 1
        ensures Bit(m / 2, i) == Bit(n / 2, i)
      {
        assert Bit(m, i + 1) == Bit(n, i + 1);
      }
      SameLowBits(m / 2, n / 2, k - 1);
      assert Bit(m, 0) == Bit(n, 0);
      var p, d := Hashing.Pow2(k - 1), m / 2 - n / 2;
      assert m - n == 2 * d && d == p * (d / p);
      QuotientIs(m - n, 2 * p, d / p, 0);
    }
  }

  // ----- truth and types -----

  /** False are null, false, zero and the empty string, and nothing else. */
  lemma Falsy(v: Value)
    ensures !Truthy(v) <==> v == NullV || v == BoolV(false) || v == IntV(0) || v == StrV("")
    ensures ApplyUnary(Not, v) == Yield(BoolV(true)) <==> v == NullV || v == BoolV(false) || v == IntV(0) || v == StrV("")
    ensures ApplyUnary(Not, v) == Yield(BoolV(false)) <==> Truthy(v)
  {
  }

  /** The types as messages name them. */
  lemma TypesAreNamed(v: Value)
    ensures TypeName(NullV) == "null"
    ensures v.BoolV? ==> TypeName(v) == "boolean"
    ensures v.IntV? ==> TypeName(v) == "integer"
    ensures v.StrV? ==> TypeName(v) == "string"
    ensures v.FunV? ==> TypeName(v) == "function"
  {
  }

  function Sign(op: BinOp): string
    requires op in {Add, Sub, Mul, Div}
  {
    match op
    case Add => "+"
    case Sub => "-"
    case Mul => "*"
    case Div => "/"
  }

  /** Operands of other types are errors. */
  lemma WrongTypes(a: Value, b: Value)
    requires !a.IntV? || !b.IntV?
    ensures forall op :: op in {Add, Sub, Mul, Div} ==> ApplyBinary(op, a, b) == Raise(StrV("Invalid operands for " + Sign(op) + "\n"))
    ensures ApplyBinary(Mod, a, b) == Raise(StrV("Operands to '%' must be integers\n"))
    ensures forall op :: op in {BitAnd, BitOr, BitXor} ==>
              ApplyBinary(op, a, b)
              == Raise(StrV("Bitwise operands must be integers, got " + TypeName(if !a.IntV? then a else b)))
  {
  }

  lemma WrongType(a: Value)
    requires !a.IntV?
    ensures ApplyUnary(Neg, a) == Raise(StrV("Operand for negation must be int or double, got " + TypeName(a)))
    ensures ApplyUnary(BitNot, a) == Raise(StrV("Bitwise operands must be integers, got " + TypeName(a)))
    ensures ApplyBump(true, a) == Raise(StrV("Invalid operands for +\n")) && ApplyBump(false, a) == Raise(StrV("Invalid operands for -\n"))
  {
    Texts();
  }
}
