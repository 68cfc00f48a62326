// protocol/vm/numeric.go: arithmetic on 64-bit integers with overflow checks.
module NumericOps {
  import opened Wrappers
  import opened Bytes
  import opened VmTypes
  import opened Ops
  import opened Machine

  function Checked(n: int): Result<Bytes, VmError> {
    if FitsInt64(n) then Ok(Int64Bytes(n)) else Err(RangeError)
  }

  function Power2(k: nat): (p: nat)
    ensures p > 0
  {
    if k == 0 then 1 else 2 * Power2(k - 1)
  }

  /** Division that drops the fraction, whatever the signs. */
  function Quotient(x: int, y: int): int
    requires y != 0
  {
    if x >= 0 then x / y else -(-x / y)
  }

  /** The remainder that has the sign of the divisor. */
  function Modulo(x: int, y: int): int
    requires y != 0
  {
    var r := x - Quotient(x, y) * y;
    if r != 0 && (x >= 0) != (y >= 0) then r + y else r
  }

  function UnaryValue(op: Byte, n: int): Result<Bytes, VmError> {
    if op == OP_1ADD then Checked(n + 1)
    else if op == OP_1SUB then Checked(n - 1)
    else if op == OP_2MUL then Checked(n * 2)
    else if op == OP_2DIV then Checked(n / 2)
    else if op == OP_NEGATE then Checked(-n)
    else if op == OP_ABS then Checked(Abs(n))
    else if op == OP_NOT then Ok(BoolBytes(n == 0))
    else Ok(BoolBytes(n != 0))
  }

  function Abs(n: int): int {
    if n < 0 then -n else n
  }

  function BinaryValue(op: Byte, x: int, y: int): Result<Bytes, VmError> {
    if op == OP_ADD then Checked(x + y)
    else if op == OP_SUB then Checked(x - y)
    else if op == OP_MUL then Checked(x * y)
    else if op == OP_DIV then if y == 0 then Err(DivZero) else Checked(Quotient(x, y))
    else if op == OP_MOD then
      if y == 0 then Err(DivZero) else if x == MIN_INT64 && y == -1 then Err(RangeError) else Checked(Modulo(x, y))
    else if op == OP_RSHIFT then if y < 0 then Err(BadValue) else Checked(x / Power2(y))
    else if op == OP_NUMEQUAL then Ok(BoolBytes(x == y))
    else if op == OP_NUMNOTEQUAL then Ok(BoolBytes(x != y))
    else if op == OP_LESSTHAN then Ok(BoolBytes(x < y))
    else if op == OP_GREATERTHAN then Ok(BoolBytes(x > y))
    else if op == OP_LESSTHANOREQUAL then Ok(BoolBytes(x <= y))
    else if op == OP_GREATERTHANOREQUAL then Ok(BoolBytes(x >= y))
    else if op == OP_MIN then Checked(if x > y then y else x)
    else Checked(if x < y then y else x)
  }

  function PushResult(c: Core, v: Result<Bytes, VmError>): (r: Res<()>)
    ensures c.runLimit >= 0 ==> r.core.runLimit >= 0 && r.core.unpaid == c.unpaid
    ensures r.Good? ==> Level(r.core) == Level(c)
    ensures r.Bad? ==> r.core == c
    ensures !r.Out?
  {
    match v
    case Ok(x) => Push(c, x, true)
    case Err(e) => Bad(c, e)
  }

  function Unary(c: Core, op: Byte): (r: Res<()>)
    ensures Pays(c, r)
  {
    var (c, _) :- ApplyCost(c, 2);
    var (c, n) :- PopInt(c, true);
    PushResult(c, UnaryValue(op, n))
  }

  function Binary(c: Core, op: Byte): (r: Res<()>)
    ensures Pays(c, r)
  {
    hide ApplyCost, PopTwoInts, Net;
    var cost := if op == OP_MUL || op == OP_DIV || op == OP_MOD || op == OP_RSHIFT then 8 else 2;
    var (c, _) :- ApplyCost(c, cost);
    var (c, xy) :- PopTwoInts(c);
    PushResult(c, BinaryValue(op, xy.0, xy.1))
  }

  function ShiftedLeft(x: int, y: nat): Result<Bytes, VmError> {
    if x == 0 then Ok(Int64Bytes(0)) else if y >= 64 then Err(RangeError) else Checked(x * Power2(y))
  }

  function Lshift(c: Core): (r: Res<()>)
    ensures Pays(c, r)
  {
    var (c, _) :- ApplyCost(c, 8);
    var (c, y) :- PopInt(c, true);
    if y < 0 then Bad(c, BadValue)
    else
      var (c, x) :- PopInt(c, true);
      PushResult(c, ShiftedLeft(x, y))
  }

  function NumEqualVerify(c: Core): (r: Res<()>)
    ensures Pays(c, r)
  {
    var (c, _) :- ApplyCost(c, 2);
    var (c, xy) :- PopTwoInts(c);
    if xy.0 == xy.1 then Good(c, ()) else Bad(c, VerifyFailed)
  }

  /** BOOLAND and BOOLOR. */
  function Logic(c: Core, op: Byte): (r: Res<()>)
    ensures Pays(c, r)
  {
    var (c, _) :- ApplyCost(c, 2);
    var (c, ab) :- PopTwo(c);
    var a, b := AsBool(ab.0), AsBool(ab.1);
    Push(c, BoolBytes(if op == OP_BOOLAND then a && b else a || b), true)
  }

  function Within(c: Core): (r: Res<()>)
    ensures Pays(c, r)
  {
    hide ApplyCost, PopTwoInts, PopInt, Net;
    var (c, _) :- ApplyCost(c, 4);
    var (c, range) :- PopTwoInts(c);
    var (c, x) :- PopInt(c, true);
    Push(c, BoolBytes(range.0 <= x < range.1), true)
  }

  // ------------------------------------------------------------ what the values mean

  /** Sums, differences and products are refused exactly when they do not fit, and otherwise read back exactly. */
  lemma ArithmeticIsExact(op: Byte, x: int, y: int)
    requires op == OP_ADD || op == OP_SUB || op == OP_MUL
    ensures var n := if op == OP_ADD then x + y else if op == OP_SUB then x - y else x * y;
            var r := BinaryValue(op, x, y);
            (r.Ok? <==> FitsInt64(n)) && (r.Ok? ==> AsInt64(r.value) == Ok(n))
  {
    hide Int64Bytes, AsInt64;
    var n := if op == OP_ADD then x + y else if op == OP_SUB then x - y else x * y;
    if FitsInt64(n) {
      Int64RoundTrip(n);
    }
  }

  lemma MulNeg(x: int, y: int)
    ensures -x * y == -(x * y)
  {
  }

  /** The quotient leaves a rest smaller than the divisor with the sign of the dividend. */
  lemma QuotientLaw(x: int, y: int)
    requires y != 0
    ensures var rest := x - Quotient(x, y) * y;
            -Abs(y) < rest < Abs(y) && (x >= 0 ==> rest >= 0) && (x <= 0 ==> rest <= 0)
  {
    if x >= 0 {
      Rest(x, y);
    } else {
      Rest(-x, y);
      MulNeg(-x / y, y);
    }
  }

  lemma Rest(x: int, y: int)
    requires y != 0
    ensures 0 <= x - x / y * y < Abs(y)
  {
    assert x == x / y * y + x % y;
  }

  /** MOD differs from its dividend by a multiple of the divisor and has the divisor's sign, so it goes with DIV
      exactly when there is no rest or the signs agree. */
  lemma ModuloLaw(x: int, y: int)
    requires y != 0
    ensures var m := Modulo(x, y);
            && (exists q :: x == q * y + m)
            && (if y > 0 then 0 <= m < y else y < m <= 0)
            && (x == Quotient(x, y) * y + m <==> x == Quotient(x, y) * y || (x >= 0 <==> y >= 0))
  {
    QuotientLaw(x, y);
    var q, m := Quotient(x, y), Modulo(x, y);
    var rest := x - q * y;
    if m == rest {
      assert x == q * y + m;
    } else {
      assert (q - 1) * y == q * y - y;
      assert x == (q - 1) * y + m;
    }
  }

  /** A left shift that succeeds is undone by a right shift. */
  lemma ShiftsInvert(x: int, y: nat)
    requires FitsInt64(x) && ShiftedLeft(x, y).Ok?
    ensures var n := AsInt64(ShiftedLeft(x, y).value);
            n.Ok? && BinaryValue(OP_RSHIFT, n.value, y) == Ok(Int64Bytes(x))
  {
    hide Int64Bytes, AsInt64;
    Int64RoundTrip(0);
    var p := Power2(y);
    if x == 0 {
      assert 0 / p == 0;
    } else {
      Int64RoundTrip(x * p);
      MulThenDiv(x, p);
    }
  }

  lemma MulThenDiv(x: int, p: nat)
    requires p > 0
    ensures x * p / p == x
  {
    var q := x * p / p;
    assert x * p == q * p + x * p % p;
    assert (x - q) * p == x * p - q * p;
    MultiplesGrow(x - q, p);
  }

  lemma MultiplesGrow(d: int, p: nat)
    ensures (d >= 1 ==> d * p >= p) && (d <= -1 ==> d * p <= -(p as int))
  {
    if d >= 1 {
      assert (d - 1) * p >= 0;
    } else if d <= -1 {
      assert (d + 1) * p <= 0;
    }
  }
}
