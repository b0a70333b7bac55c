/** Integer division in three rounding modes. */
module Division {
  import opened Bits

  datatype RoundMode = Floor | Nearest | Ceiling

  // ----- What the big-integer library provides -----

  function Abs(x: int): nat {
    if x < 0 then -x else x
  }

  /** -1, 0 or 1, as `sign()` tells them apart. */
  function Sign(x: int): int {
    if x < 0 then -1 else if x == 0 then 0 else 1
  }

  /** `div_rem`: truncates towards zero. */
  function TruncDiv(x: int, y: int): int
    requires y != 0
  {
    if (x < 0) == (y < 0) then Abs(x) / Abs(y) else -(Abs(x) / Abs(y))
  }

  function TruncRem(x: int, y: int): int
    requires y != 0
  {
    if x < 0 then -(Abs(x) % Abs(y)) else Abs(x) % Abs(y)
  }

  /** `div_floor` and `mod_floor`, by the library's own correction of `div_rem`. */
  function FloorDiv(x: int, y: int): int
    requires y != 0
  {
    var r := TruncRem(x, y);
    if (r > 0 && y < 0) || (r < 0 && y > 0) then TruncDiv(x, y) - 1 else TruncDiv(x, y)
  }

  function FloorMod(x: int, y: int): int
    requires y != 0
  {
    var r := TruncRem(x, y);
    if (r > 0 && y < 0) || (r < 0 && y > 0) then r + y else r
  }

  // ----- The rounding predicates and the three operations -----

  predicate NearestRoundingRequired(r: int, x: int, y: int) {
    r != 0 && (Abs(2 * r) > Abs(y) || (Abs(2 * r) == Abs(y) && Sign(x) == Sign(y)))
  }

  predicate CeilRoundingRequired(r: int, y: int) {
    r != 0 && Sign(r) == Sign(y)
  }

  function Away(q: int, x: int, y: int): int {
    if Sign(x) == Sign(y) then q + 1 else q - 1
  }

  function IntDiv(x: int, y: int, mode: RoundMode): int
    requires y != 0
  {
    var q := TruncDiv(x, y);
    var r := TruncRem(x, y);
    match mode
    case Floor => FloorDiv(x, y)
    case Nearest => if NearestRoundingRequired(r, x, y) then Away(q, x, y) else q
    case Ceiling => if CeilRoundingRequired(r, y) then Away(q, x, y) else q
  }

  function IntMod(x: int, y: int, mode: RoundMode): int
    requires y != 0
  {
    var r := TruncRem(x, y);
    match mode
    case Floor => FloorMod(x, y)
    case Nearest =>
      if NearestRoundingRequired(r, x, y) then (if Sign(r) == Sign(y) then r - y else r + y) else r
    case Ceiling => if CeilRoundingRequired(r, y) then r - y else r
  }

  function IntDivMod(x: int, y: int, mode: RoundMode): (int, int)
    requires y != 0
  {
    var q := TruncDiv(x, y);
    var r := TruncRem(x, y);
    match mode
    case Floor => (FloorDiv(x, y), FloorMod(x, y))
    case Nearest =>
      if NearestRoundingRequired(r, x, y) then
        (Away(q, x, y), if Sign(r) == Sign(y) then r - y else r + y)
      else (q, r)
    case Ceiling =>
      if CeilRoundingRequired(r, y) then (Away(q, x, y), r - y) else (q, r)
  }

  // ----- What division means -----

  /** The remainder over the divisor lies in [0, 1) for floor, (-1, 0] for ceiling
      and [-1/2, 1/2) for nearest. */
  predicate InRange(r: int, y: int, mode: RoundMode)
    requires y != 0
  {
    match mode
    case Floor => if y > 0 then 0 <= r < y else y < r <= 0
    case Ceiling => if y > 0 then -y < r <= 0 else 0 <= r < -y
    case Nearest => if y > 0 then -y <= 2 * r < y else y < 2 * r <= -y
  }

  predicate IsDivision(x: int, y: int, mode: RoundMode, q: int, r: int)
    requires y != 0
  {
    x == q * y + r && InRange(r, y, mode)
  }

  lemma TruncIsDivision(x: int, y: int)
    requires y != 0
    ensures x == TruncDiv(x, y) * y + TruncRem(x, y)
    ensures Abs(TruncRem(x, y)) < Abs(y)
    ensures TruncRem(x, y) != 0 ==> Sign(TruncRem(x, y)) == Sign(x)
  {
    var a: int, b: int := Abs(x), Abs(y);
    EuclideanParts(a, b);
    var q, r := a / b, a % b;
    assert TruncDiv(x, y) == if (x < 0) == (y < 0) then q else 0 - q;
    assert TruncRem(x, y) == if x < 0 then 0 - r else r;
    Signed(x, y, a, b, q, r);
  }

  lemma EuclideanParts(a: int, b: int)
    requires a >= 0 && b > 0
    ensures a == (a / b) * b + a % b && 0 <= a % b < b
  {
  }

  /** Moving signs from the operands to the quotient and the remainder. */
  lemma Signed(x: int, y: int, a: int, b: int, q: int, r: int)
    requires a == q * b + r
    requires x == a || x == 0 - a
    requires y == b || y == 0 - b
    ensures x == a && y == b ==> x == q * y + r
    ensures x == a && y == 0 - b ==> x == (0 - q) * y + r
    ensures x == 0 - a && y == b ==> x == (0 - q) * y + (0 - r)
    ensures x == 0 - a && y == 0 - b ==> x == q * y + (0 - r)
  {
    Negations(q, b);
  }

  lemma Negations(q: int, b: int)
    ensures (0 - q) * b == 0 - q * b
    ensures q * (0 - b) == 0 - q * b
    ensures (0 - q) * (0 - b) == q * b
  {
  }

  lemma StepAway(q: int, y: int)
    ensures (q + 1) * y == q * y + y && (q - 1) * y == q * y - y
  {
  }

  /** In every mode, for every dividend and every nonzero divisor. */
  lemma DivModIsDivision(x: int, y: int, mode: RoundMode)
    requires y != 0
    ensures IsDivision(x, y, mode, IntDivMod(x, y, mode).0, IntDivMod(x, y, mode).1)
  {
    TruncIsDivision(x, y);
    StepAway(TruncDiv(x, y), y);
  }

  /** Quotient and remainder are determined by the mode. */
  lemma DivisionIsUnique(x: int, y: int, mode: RoundMode, q: int, r: int, q': int, r': int)
    requires y != 0 && IsDivision(x, y, mode, q, r) && IsDivision(x, y, mode, q', r')
    ensures q == q' && r == r'
  {
    var d := q - q';
    assert d * y == r' - r by { assert d * y == q * y - q' * y; }
    if d >= 1 {
      MulFar(d, y);
    } else if d <= -1 {
      MulFar(-d, y);
      assert (-d) * y == -(d * y);
    }
  }

  lemma MulFar(d: int, y: int)
    requires d >= 1
    ensures y > 0 ==> d * y >= y
    ensures y < 0 ==> d * y <= y
  {
    assert d * y == y + (d - 1) * y;
    if y > 0 {
      assert (d - 1) * y >= 0;
    } else {
      assert (d - 1) * y <= 0;
    }
  }

  /** The one-sided operations agree with the two-sided one. */
  lemma DivAndModAgree(x: int, y: int, mode: RoundMode)
    requires y != 0
    ensures IntDivMod(x, y, mode) == (IntDiv(x, y, mode), IntMod(x, y, mode))
  {
  }

  // ----- Shifts and masks -----

  /** `x >> n`: halving n times, rounding down each time. */
  function ShiftRight(x: int, n: nat): int
    decreases n
  {
    if n == 0 then x else ShiftRight(x / 2, n - 1)
  }

  /** `x & y` on two's complement, bit by bit, for a mask that is not negative. */
  function BitAnd(x: int, y: nat): nat
    decreases y
  {
    if y == 0 then 0 else 2 * BitAnd(x / 2, y / 2) + (if x % 2 == 1 && y % 2 == 1 then 1 else 0)
  }

  function MaskLow(x: int, n: nat): int {
    BitAnd(x, Pow2(n) - 1)
  }

  /** Shift and mask split a number into its high and its low bits. */
  lemma {:induction false} ShiftAndMask(x: int, n: nat)
    ensures x == ShiftRight(x, n) * Pow2(n) + MaskLow(x, n)
    ensures 0 <= MaskLow(x, n) < Pow2(n)
    decreases n
  {
    if n > 0 {
      ShiftAndMask(x / 2, n - 1);
      MaskStep(x, n);
      Recombine(x, ShiftRight(x / 2, n - 1), Pow2(n - 1), MaskLow(x / 2, n - 1));
    }
  }

  lemma MaskStep(x: int, n: nat)
    requires n > 0
    ensures MaskLow(x, n) == 2 * MaskLow(x / 2, n - 1) + x % 2
  {
    var p := Pow2(n - 1);
    assert (2 * p - 1) / 2 == p - 1 && (2 * p - 1) % 2 == 1;
  }

  lemma Recombine(x: int, q: int, p: int, m: int)
    requires x / 2 == q * p + m
    ensures x == q * (2 * p) + (2 * m + x % 2)
  {
    assert q * (2 * p) == 2 * (q * p);
  }

  function IntRshift(x: int, n: nat, mode: RoundMode): int {
    if mode.Floor? then ShiftRight(x, n) else IntDiv(x, Pow2(n), mode)
  }

  function IntModPow2(x: int, n: nat, mode: RoundMode): int {
    if mode.Floor? then MaskLow(x, n) else IntMod(x, Pow2(n), mode)
  }

  function IntRshiftMod(x: int, n: nat, mode: RoundMode): (int, int) {
    if mode.Floor? then (ShiftRight(x, n), MaskLow(x, n)) else IntDivMod(x, Pow2(n), mode)
  }

  /** Shifting and masking are division by a power of two, in every mode. */
  lemma ShiftsAreDivisions(x: int, n: nat, mode: RoundMode)
    ensures IsDivision(x, Pow2(n), mode, IntRshiftMod(x, n, mode).0, IntRshiftMod(x, n, mode).1)
    ensures IntRshiftMod(x, n, mode) == IntDivMod(x, Pow2(n), mode)
    ensures IntRshift(x, n, mode) == IntDiv(x, Pow2(n), mode)
    ensures IntModPow2(x, n, mode) == IntMod(x, Pow2(n), mode)
  {
    var p := Pow2(n);
    DivModIsDivision(x, p, mode);
    DivAndModAgree(x, p, mode);
    if mode.Floor? {
      ShiftAndMask(x, n);
      DivisionIsUnique(x, p, mode, ShiftRight(x, n), MaskLow(x, n), IntDivMod(x, p, mode).0, IntDivMod(x, p, mode).1);
    }
  }

  /** Forcing floor for a shift by zero changes no result. */
  lemma ShiftByZeroIgnoresMode(x: int, mode: RoundMode)
    ensures IntRshiftMod(x, 0, mode) == IntRshiftMod(x, 0, Floor) == (x, 0)
    ensures IntRshift(x, 0, mode) == IntRshift(x, 0, Floor)
    ensures IntModPow2(x, 0, mode) == IntModPow2(x, 0, Floor)
  {
    ShiftsAreDivisions(x, 0, mode);
    ShiftsAreDivisions(x, 0, Floor);
    DivAndModAgree(x, 1, mode);
    DivAndModAgree(x, 1, Floor);
  }

  // ----- The instruction -----

  datatype Num = Nan | Int(value: int)

  /** What DIVMOD-like instructions leave behind: results on top of the stack, or an
      integer overflow. */
  datatype DivResult = Pushed(results: seq<Num>) | IntegerOverflow

  predicate Fits257(v: int) {
    FitsInt(v, 257)
  }

  /** `push_raw_int`: an out-of-range result is NaN when quiet and an error otherwise. */
  function PushInts(values: seq<int>, quiet: bool): DivResult {
    if (forall i :: 0 <= i < |values| ==> Fits257(values[i])) || quiet then
      Pushed(seq(|values|, i requires 0 <= i < |values| => if Fits257(values[i]) then Int(values[i]) else Nan))
    else IntegerOverflow
  }

  /** The two-result form of `exec_divmod`. */
  function ExecDivMod(x: Num, y: Num, mode: RoundMode, quiet: bool): DivResult {
    if x.Int? && y.Int? && y.value != 0 then
      var qr := IntDivMod(x.value, y.value, mode);
      PushInts([qr.0, qr.1], quiet)
    else if quiet then Pushed([Nan, Nan])
    else IntegerOverflow
  }

  /** Of two 257-bit operands only the smallest number divided by minus one leaves
      the range; otherwise the pushed pair is the division, quiet or not. */
  lemma DivModOverflowsOnce(x: int, y: int, mode: RoundMode, quiet: bool)
    requires Fits257(x) && Fits257(y) && y != 0
    ensures var qr := IntDivMod(x, y, mode);
            && Fits257(qr.1)
            && (Fits257(qr.0) <==> !(x == -Half() && y == -1))
            && (!(x == -Half() && y == -1) ==> ExecDivMod(Int(x), Int(y), mode, quiet) == Pushed([Int(qr.0), Int(qr.1)]))
  {
    var qr := IntDivMod(x, y, mode);
    DivModIsDivision(x, y, mode);
    assert Pow2(257) == 2 * Half();
    assert Abs(qr.1) < Abs(y);
    RangeOfResults(x, y, qr.0, qr.1);
    if Fits257(qr.0) {
      assert PushInts([qr.0, qr.1], quiet) == Pushed([Int(qr.0), Int(qr.1)]);
    }
  }

  lemma RangeOfResults(x: int, y: int, q: int, r: int)
    requires Fits257(x) && Fits257(y) && y != 0
    requires x == q * y + r && Abs(r) < Abs(y)
    ensures Fits257(r)
    ensures Fits257(q) <==> !(x == -Half() && y == -1)
  {
    assert Pow2(257) == 2 * Half();
    QuotientBound(x, y, q, r, Half());
  }

  /** 2^256. */
  function Half(): int {
    Pow2(256)
  }

  lemma QuotientBound(x: int, y: int, q: int, r: int, h: int)
    requires y != 0 && h >= 1 && x == q * y + r && Abs(r) < Abs(y)
    requires -h <= x < h && -h <= y < h
    ensures -h <= r < h
    ensures -h <= q <= h
    ensures Abs(y) >= 2 ==> -h < q < h
    ensures y == 1 ==> q == x
    ensures y == -1 ==> q == -x
  {
    var a, b := Abs(q), Abs(y);
    AbsProduct(q, y);
    assert a * b <= h + b - 1;
    if b >= 2 {
      SmallQuotient(a, b, h);
    }
  }

  lemma AbsProduct(q: int, y: int)
    ensures Abs(q * y) == Abs(q) * Abs(y)
  {
    Negations(q, y);
    if q == 0 || y == 0 {
      assert q * y == 0;
    } else if (q < 0) == (y < 0) {
      assert q * y == Abs(q) * Abs(y);
      assert Abs(q) * Abs(y) >= 0;
    } else {
      assert q * y == 0 - Abs(q) * Abs(y);
      assert Abs(q) * Abs(y) >= 0;
    }
  }

  lemma SmallQuotient(a: int, b: int, h: int)
    requires b >= 2 && h >= 2 && a * b <= h + b - 1
    ensures a < h
  {
    if a >= h {
      Large(a, b, h);
    }
  }

  lemma Large(a: int, b: int, h: int)
    requires b >= 2 && h >= 2 && a >= h
    ensures a * b >= h + b
  {
    assert a * b == h * b + (a - h) * b;
    assert (a - h) * b >= 0;
    assert h * b == h + h * (b - 1);
    assert h * (b - 1) == 2 * (b - 1) + (h - 2) * (b - 1);
    assert (h - 2) * (b - 1) >= 0;
  }
}
