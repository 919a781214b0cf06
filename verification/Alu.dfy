/** Arithmetic on 64-bit words. */
module Arithmetic {
  import opened Bytes
  import opened Isa
  import opened Machines

  lemma MulMonotone(a: nat, b: nat, c: nat)
    requires a <= b
    ensures a * c <= b * c
  {
    assert b * c == a * c + (b - a) * c;
  }

  lemma ProductBound(x: nat, y: nat, t: nat)
    requires x < t && y < t
    ensures x * y < t * t
  {
    MulMonotone(x, t, y);
    MulMonotone(y, t - 1, t);
    assert t * y == y * t;
    assert (t - 1) * t == t * t - t;
  }

  lemma QuotientBound(n: nat, v: nat)
    requires v > 0
    ensures n / v <= n
  {
    MulMonotone(1, v, n / v);
    assert n == v * (n / v) + n % v;
  }

  /** One bit of a bitwise opcode. */
  function BitOf(op: AluOp, x: nat, y: nat): (b: nat)
    ensures b <= 1
  {
    if op.And? then if x % 2 == 1 && y % 2 == 1 then 1 else 0
    else if op.Or? then if x % 2 == 1 || y % 2 == 1 then 1 else 0
    else if x % 2 != y % 2 then 1 else 0
  }

  /** A bitwise opcode on the low `n` bits. */
  function Bits(op: AluOp, x: nat, y: nat, n: nat): (r: nat)
    ensures r < Pow2(n)
    decreases n
  {
    if n == 0 then 0 else 2 * Bits(op, x / 2, y / 2, n - 1) + BitOf(op, x, y)
  }

  function Bitwise(op: AluOp, x: u64, y: u64): u64 {
    Pow2Of64();
    Bits(op, x, y, 64)
  }

  function Quotient(x: u64, y: u64): u64
    requires y > 0
  {
    QuotientBound(x, y);
    x / y
  }

  function Wrap(n: int): u64 {
    n % TWO64
  }

  function LeftShift(x: u64, n: nat): u64 {
    Wrap(x * Pow2(n))
  }

  function RightShift(x: u64, n: nat): u64 {
    ShiftBound(x, n);
    Shifted(x, n)
  }

  /** The high word of a product. */
  function HighWord(x: u64, y: u64): u64 {
    ProductBound(x, y, TWO64);
    HighDigit(x * y, TWO64);
    (x * y) / TWO64
  }

  lemma HighDigit(n: nat, t: nat)
    requires t > 0 && n < t * t
    ensures n / t < t
  {
    assert n == t * (n / t) + n % t;
    if n / t >= t {
      MulMonotone(t, n / t, t);
      assert false;
    }
  }

  /** The result of a three-register opcode, or its fault. */
  function AluResult(op: AluOp, x: u64, y: u64): Result<u64, Fault> {
    match op
    case Add => if x + y >= TWO64 then Err(Overflow) else Ok(x + y)
    case Sub => if x < y then Err(Overflow) else Ok(x - y)
    case Mul => if x * y >= TWO64 then Err(Overflow) else Ok(x * y)
    case Div => if y == 0 then Err(DivByZero) else Ok(Quotient(x, y))
    case Rem => if y == 0 then Err(DivByZero) else Ok(x % y)
    case AddW => Ok(Wrap(x + y))
    case SubW => Ok(Wrap(x - y))
    case MulW => Ok(Wrap(x * y))
    case MulHi => Ok(HighWord(x, y))
    case And => Ok(Bitwise(And, x, y))
    case Or => Ok(Bitwise(Or, x, y))
    case Xor => Ok(Bitwise(Xor, x, y))
    case Shl => Ok(LeftShift(x, y % 64))
    case Shr => Ok(RightShift(x, y % 64))
    case Eq => Ok(Flag(x == y))
    case LtU => Ok(Flag(x < y))
    case GtU => Ok(Flag(x > y))
  }

  lemma {:induction false} ShiftBound(x: nat, n: nat)
    ensures Shifted(x, n) <= x
    decreases n
  {
    if n > 0 {
      ShiftBound(x / 2, n - 1);
    }
  }

  // ---- What the three-register opcodes mean ----

  /** The fault of an opcode on two words, if any. */
  function AluFault(op: AluOp, x: u64, y: u64): Option<Fault> {
    var sum, product: int := x as int + y as int, x as int * y as int;
    if op.Add? && sum > 0xFFFF_FFFF_FFFF_FFFF then Some(Overflow)
    else if op.Sub? && y > x then Some(Overflow)
    else if op.Mul? && product > 0xFFFF_FFFF_FFFF_FFFF then Some(Overflow)
    else if (op.Div? || op.Rem?) && y == 0 then Some(DivByZero)
    else None
  }

  /** The relation of the result word to the operands; each determines the result. */
  ghost predicate AluMeans(op: AluOp, x: u64, y: u64, r: u64) {
    var a, b, c: int := x as int, y as int, r as int;
    match op
    case Add => c == a + b
    case Sub => c + b == a
    case Mul => c == a * b
    case Div => b * c <= a < b * c + b
    case Rem => c < b && b * (a / b) + c == a
    case AddW => c == a + b || c + TWO64 == a + b
    case SubW => c + b == a || c + b == a + TWO64
    case MulW => (a * b - c) % TWO64 == 0
    case MulHi => 0 <= a * b - c * TWO64 < TWO64
    case And => forall j: nat | j < 64 :: BitAt(r, j) == (BitAt(x, j) && BitAt(y, j))
    case Or => forall j: nat | j < 64 :: BitAt(r, j) == (BitAt(x, j) || BitAt(y, j))
    case Xor => forall j: nat | j < 64 :: BitAt(r, j) == (BitAt(x, j) != BitAt(y, j))
    case Shl => (a * Pow2(y % 64) - c) % TWO64 == 0
    case Shr => Pow2(y % 64) * c <= a < Pow2(y % 64) * c + Pow2(y % 64)
    case Eq => (c == 1 && a == b) || (c == 0 && a != b)
    case LtU => (c == 1 && a < b) || (c == 0 && a >= b)
    case GtU => (c == 1 && a > b) || (c == 0 && a <= b)
  }

  predicate BitAt(x: nat, j: nat) {
    Shifted(x, j) % 2 == 1
  }

  lemma {:induction false} ShiftedIsQuotient(x: nat, n: nat)
    ensures Pow2(n) * Shifted(x, n) <= x < Pow2(n) * Shifted(x, n) + Pow2(n)
    decreases n
  {
    if n > 0 {
      ShiftedIsQuotient(x / 2, n - 1);
      Doubled(x, Pow2(n - 1), Shifted(x / 2, n - 1));
    }
  }

  lemma Doubled(x: nat, half: nat, q: nat)
    requires half * q <= x / 2 < half * q + half
    ensures (2 * half) * q <= x < (2 * half) * q + 2 * half
  {
    var p := half * q;
    assert (2 * half) * q == 2 * p;
  }

  lemma BitwiseMeans(op: AluOp, x: u64, y: u64)
    requires op.And? || op.Or? || op.Xor?
    ensures AluMeans(op, x, y, Bitwise(op, x, y))
  {
    hide Bits, Shifted, Pow2;
    forall j: nat | j < 64
      ensures Shifted(Bitwise(op, x, y), j) % 2 == BitOf(op, Shifted(x, j), Shifted(y, j))
    {
      BitsAreBitwise(op, x, y, 64, j);
    }
  }

  lemma Divided(n: nat, d: nat)
    requires d > 0
    ensures d * (n / d) + n % d == n && 0 <= n % d < d
  {
  }

  lemma WrapMeans(n: int)
    ensures (n - Wrap(n)) % TWO64 == 0
  {
    assert n - n % TWO64 == TWO64 * (n / TWO64);
    assert (TWO64 * (n / TWO64)) % TWO64 == 0;
  }

  /** The result of an opcode is what its meaning and its fault say. */
  ghost predicate AluAgrees(op: AluOp, x: u64, y: u64) {
    match AluFault(op, x, y)
    case Some(f) => AluResult(op, x, y) == Err(f)
    case None => AluResult(op, x, y).Ok? && AluMeans(op, x, y, AluResult(op, x, y).value)
  }

  lemma SumsAgree(op: AluOp, x: u64, y: u64)
    requires op.Add? || op.Sub? || op.AddW? || op.SubW? || op.Eq? || op.LtU? || op.GtU?
    ensures AluAgrees(op, x, y)
  {
    hide BitAt, Pow2;
  }

  lemma ProductsAgree(op: AluOp, x: u64, y: u64)
    requires op.Mul? || op.MulW? || op.MulHi?
    ensures AluAgrees(op, x, y)
  {
    hide BitAt, Pow2;
    ProductBound(x, y, TWO64);
    var product: nat := x as int * y as int;
    if op.MulW? {
      WrapMeans(product);
    } else if op.MulHi? {
      Divided(product, TWO64);
    }
  }

  lemma QuotientsAgree(op: AluOp, x: u64, y: u64)
    requires op.Div? || op.Rem?
    ensures AluAgrees(op, x, y)
  {
    hide BitAt, Pow2;
    if y > 0 {
      Divided(x, y);
    }
  }

  lemma ShiftsAgree(op: AluOp, x: u64, y: u64)
    requires op.Shl? || op.Shr?
    ensures AluAgrees(op, x, y)
  {
    hide BitAt, Pow2, Shifted, Wrap;
    if op.Shr? {
      ShiftedIsQuotient(x, y % 64);
    } else {
      WrapMeans(x as int * Pow2(y % 64));
    }
  }

  lemma BitwiseAgrees(op: AluOp, x: u64, y: u64)
    requires op.And? || op.Or? || op.Xor?
    ensures AluAgrees(op, x, y)
  {
    hide Bitwise, AluMeans;
    BitwiseMeans(op, x, y);
  }

  /** Every three-register opcode does what it means, and faults only as it should. */
  lemma AluIsMeant(op: AluOp, x: u64, y: u64)
    ensures AluAgrees(op, x, y)
  {
    hide AluAgrees;
    match op
    case And => BitwiseAgrees(op, x, y);
    case Or => BitwiseAgrees(op, x, y);
    case Xor => BitwiseAgrees(op, x, y);
    case Shl => ShiftsAgree(op, x, y);
    case Shr => ShiftsAgree(op, x, y);
    case Div => QuotientsAgree(op, x, y);
    case Rem => QuotientsAgree(op, x, y);
    case Mul => ProductsAgree(op, x, y);
    case MulW => ProductsAgree(op, x, y);
    case MulHi => ProductsAgree(op, x, y);
    case _ => SumsAgree(op, x, y);
  }

  /** The 128-bit number in two registers. */
  function Wide128(lo: u64, hi: u64): (n: nat)
    ensures n < TWO64 * TWO64
  {
    hi * TWO64 + lo
  }

  /** The two result words, low word first, of a 128-bit division opcode. */
  function WideResult(op: WideOp, n: nat, v: nat): Result<(u64, u64), Fault>
    requires n < TWO64 * TWO64 && v < TWO64 * TWO64
  {
    if v == 0 then Err(DivByZero)
    else
      QuotientBound(n, v);
      var r := match op case DivW => n / v case RemW => n % v;
      HighDigit(r, TWO64);
      Ok((r % TWO64, r / TWO64))
  }

  /** Bit `j` of a bitwise result is the opcode on bit `j` of its operands. */
  lemma {:induction false} BitsAreBitwise(op: AluOp, x: nat, y: nat, n: nat, j: nat)
    requires j < n
    ensures Shifted(Bits(op, x, y, n), j) % 2 == BitOf(op, Shifted(x, j), Shifted(y, j))
    decreases n
  {
    if j > 0 {
      BitsAreBitwise(op, x / 2, y / 2, n - 1, j - 1);
      assert Bits(op, x, y, n) / 2 == Bits(op, x / 2, y / 2, n - 1);
    }
  }

  /** The two multiply opcodes together give the whole product. */
  lemma ProductWords(x: u64, y: u64)
    ensures AluResult(MulHi, x, y).Ok? && AluResult(MulW, x, y).Ok?
    ensures Wide128(AluResult(MulW, x, y).value, AluResult(MulHi, x, y).value) == x * y
  {
  }

  /** The two wide divisions together give back the dividend, with a remainder below the divisor. */
  lemma WideDivision(n: nat, v: nat)
    requires n < TWO64 * TWO64 && 0 < v < TWO64 * TWO64
    ensures WideResult(DivW, n, v).Ok? && WideResult(RemW, n, v).Ok?
    ensures var q, r := WideResult(DivW, n, v).value, WideResult(RemW, n, v).value;
            var quotient, remainder := Wide128(q.0, q.1), Wide128(r.0, r.1);
            n == v * quotient + remainder && remainder < v
  {
    var quotient, remainder := n / v, n % v;
    assert (quotient / TWO64) * TWO64 + quotient % TWO64 == quotient;
    assert (remainder / TWO64) * TWO64 + remainder % TWO64 == remainder;
  }
}
