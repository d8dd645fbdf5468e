/** Run-time values and the operators of the dispatch loop that only compute on them.
    Integers are 64-bit; doubles, arrays and structs are not part of this fragment. */
module Values {
  import opened Syntax

  /** A function value is the index of its code and the identity of the object that
      loading the constant allocated. */
  datatype Value = NullV | BoolV(b: bool) | IntV(n: int) | StrV(s: string) | FunV(code: nat, id: nat)

  const INT_MIN: int := -0x8000_0000_0000_0000
  const INT_MAX: int := 0x7FFF_FFFF_FFFF_FFFF
  const TWO_64: int := 0x1_0000_0000_0000_0000

  predicate IsInt64(n: int) { INT_MIN <= n <= INT_MAX }

  /** Two's complement wrap-around. */
  function Wrap(n: int): (r: int)
    ensures IsInt64(r)
    ensures IsInt64(n) ==> r == n
    ensures n == r + ((n - INT_MIN) / TWO_64) * TWO_64
  {
    (n - INT_MIN) % TWO_64 + INT_MIN
  }

  /** What an operator does: a value, a raised error, or the end of the process (an
      integer division trap; `**`, whose result is a double, also ends here). */
  datatype OpResult = Yield(v: Value) | Raise(err: Value) | Abort

  function TypeName(v: Value): string {
    match v
    case NullV => "null"
    case BoolV(_) => "boolean"
    case IntV(_) => "integer"
    case StrV(_) => "string"
    case FunV(_, _) => "function"
  }

  predicate Truthy(v: Value) {
    match v
    case NullV => false
    case BoolV(b) => b
    case IntV(n) => n != 0
    case StrV(s) => |s| > 0
    case FunV(_, _) => true
  }

  function Overflow(sign: string): Value { StrV("Integer overflow in " + sign + "\n") }

  function Invalid(sign: string): Value { StrV("Invalid operands for " + sign + "\n") }

  function Checked(n: int, sign: string): OpResult {
    if IsInt64(n) then Yield(IntV(n)) else Raise(Overflow(sign))
  }

  /** C division truncates towards zero; the remainder takes the dividend's sign. */
  function TruncDiv(a: int, b: int): int
    requires b != 0
  {
    if a >= 0 then a / b else -((-a) / b)
  }

  function TruncMod(a: int, b: int): int
    requires b != 0
  {
    a - TruncDiv(a, b) * b
  }

  function Divide(a: int, b: int): OpResult {
    if b == 0 || (a == INT_MIN && b == -1) then Abort else Yield(IntV(TruncDiv(a, b)))
  }

  function Remainder(a: int, b: int): OpResult {
    if b == 0 || (a == INT_MIN && b == -1) then Abort else Yield(IntV(TruncMod(a, b)))
  }

  /** The sign of `cb_strcmp`: shorter strings first, then byte by byte. */
  function StrOrder(a: string, b: string): int {
    if |a| < |b| then -1
    else if |a| > |b| then 1
    else ByteOrder(a, b)
  }

  function ByteOrder(a: string, b: string): int
    requires |a| == |b|
  {
    if a == [] then 0
    else if a[0] != b[0] then (if a[0] < b[0] then -1 else 1)
    else ByteOrder(a[1..], b[1..])
  }

  /** `cb_value_cmp`: a signed difference.  For two integers it is the 64-bit
      subtraction, which wraps around. */
  function Order(a: Value, b: Value): Option<int> {
    if a == b then Some(0)
    else match (a, b)
      case (IntV(m), IntV(n)) => Some(Wrap(m - n))
      case (StrV(s), StrV(t)) => Some(StrOrder(s, t))
      case _ => None
  }

  function NotComparable(a: Value, b: Value): Value {
    StrV("Cannot compare values of types " + TypeName(a) + " and " + TypeName(b))
  }

  function Compare(a: Value, b: Value, holds: int -> bool): OpResult {
    match Order(a, b)
    case None => Raise(NotComparable(a, b))
    case Some(d) => Yield(BoolV(holds(d)))
  }

  /** `a op b` on the low `n` two's complement bits. */
  function Bits(op: BinOp, a: int, b: int, n: nat): int
    decreases n
  {
    if n == 0 then 0
    else
      var low := match op
                 case BitAnd => (a % 2) * (b % 2)
                 case BitOr => (if a % 2 + b % 2 > 0 then 1 else 0)
                 case _ => (a + b) % 2;
      low + 2 * Bits(op, a / 2, b / 2, n - 1)
  }

  function NotInteger(v: Value): Value { StrV("Bitwise operands must be integers, got " + TypeName(v)) }

  function Arith(a: Value, b: Value, sign: string, op: (int, int) -> OpResult): OpResult {
    if a.IntV? && b.IntV? then op(a.n, b.n) else Raise(Invalid(sign))
  }

  function Bitwise(op: BinOp, a: Value, b: Value): OpResult {
    if !a.IntV? then Raise(NotInteger(a))
    else if !b.IntV? then Raise(NotInteger(b))
    else Yield(IntV(Wrap(Bits(op, a.n, b.n, 64))))
  }

  function ApplyBinary(op: BinOp, a: Value, b: Value): OpResult {
    match op
    case Add => Arith(a, b, "+", (m, n) => Checked(m + n, "+"))
    case Sub => Arith(a, b, "-", (m, n) => Checked(m - n, "-"))
    case Mul => Arith(a, b, "*", (m, n) => Checked(m * n, "*"))
    case Div => Arith(a, b, "/", (m, n) => Divide(m, n))
    case Mod =>
      if !a.IntV? || !b.IntV? then Raise(StrV("Operands to '%' must be integers\n"))
      else Remainder(a.n, b.n)
    case Exp => Abort
    case Eq => Yield(BoolV(a == b))
    case Ne => Yield(BoolV(a != b))
    case Lt => Compare(a, b, d => d < 0)
    case Le => Compare(a, b, d => d <= 0)
    case Gt => Compare(a, b, d => d > 0)
    case Ge => Compare(a, b, d => d >= 0)
    case BitOr => Bitwise(op, a, b)
    case BitXor => Bitwise(op, a, b)
    case BitAnd => Bitwise(op, a, b)
  }

  function ApplyUnary(op: UnOp, a: Value): OpResult {
    match op
    case Neg =>
      if a.IntV? then Yield(IntV(Wrap(-a.n)))
      else Raise(StrV("Operand for negation must be int or double, got " + TypeName(a)))
    case Not => Yield(BoolV(!Truthy(a)))
    case BitNot => if a.IntV? then Yield(IntV(-a.n - 1)) else Raise(NotInteger(a))
  }

  /** `x++` and `x--` are additions and subtractions of the constant 1. */
  function ApplyBump(up: bool, a: Value): OpResult {
    ApplyBinary(if up then Add else Sub, a, IntV(1))
  }

  /** `<` on integers is not the order of the integers: it agrees with it exactly when
      the difference fits in 64 bits. */
  lemma LessThanIsOrderIff(m: int, n: int)
    requires IsInt64(m) && IsInt64(n)
    ensures ApplyBinary(Lt, IntV(m), IntV(n)) == Yield(BoolV(m < n)) <==> IsInt64(m - n)
  {
    var d := m - n;
    if d > INT_MAX {
      assert Wrap(d) == d - TWO_64;
    } else if d < INT_MIN {
      assert Wrap(d) == d + TWO_64;
    }
  }

  lemma LessThanCounterexample()
    ensures ApplyBinary(Lt, IntV(INT_MIN), IntV(1)) == Yield(BoolV(false))
  {
    assert Wrap(INT_MIN - 1) == INT_MAX;
  }
}
