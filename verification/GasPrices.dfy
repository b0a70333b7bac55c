/** Buying gas for a balance. */
module GasPricing {
  import opened Util

  datatype GasPrices = GasPrices(
    gasPrice: U64, gasLimit: U64, specialGasLimit: U64, gasCredit: U64,
    flatGasLimit: U64, flatGasPrice: U64, freezeDueLimit: U64, deleteDueLimit: U64)

  datatype GasParams = GasParams(max: nat, limit: nat, credit: nat, price: nat)

  /** Fixed-point price with 16 fractional bits, rounded up. */
  function ShiftCeil(v: nat): nat {
    v / 65536 + (if v % 65536 != 0 then 1 else 0)
  }

  /** The fee of `gas` units. */
  function GasFee(p: GasPrices, gas: nat): nat {
    if gas <= p.flatGasLimit then p.flatGasPrice
    else p.flatGasPrice + ShiftCeil(p.gasPrice * (gas - p.flatGasLimit))
  }

  function MaxGasThreshold(p: GasPrices): nat {
    if p.gasLimit > p.flatGasLimit then
      SatAdd(ShiftCeil(p.gasPrice * (p.gasLimit - p.flatGasLimit)), p.flatGasPrice, U128_MAX)
    else
      p.flatGasPrice
  }

  /** `gas_bought_for`, with the 128-bit shift and the narrowing to 64 bits spelled out. */
  function GasBoughtFor(p: GasPrices, balance: nat): nat {
    if balance == 0 || balance < p.flatGasPrice then 0
    else if balance >= MaxGasThreshold(p) || p.gasPrice == 0 then p.gasLimit
    else
      var shifted := ((balance - p.flatGasPrice) * 65536) % (U128_MAX + 1);
      var res := SatAdd(shifted / p.gasPrice, p.flatGasLimit, U128_MAX);
      if res <= U64_MAX then res else U64_MAX
  }

  function ComputeGasParams(p: GasPrices, balance: nat, msgBalance: nat,
                            special: bool, ordinary: bool, external: bool): GasParams {
    var max := if special then p.specialGasLimit else GasBoughtFor(p, balance);
    var limit := if !ordinary || special then max else Min(GasBoughtFor(p, msgBalance), max);
    var credit := if ordinary && external then Min(p.gasCredit, max) else 0;
    GasParams(max, limit, credit, p.gasPrice)
  }

  // ----- Arithmetic -----

  lemma CeilBound(v: nat, x: nat)
    ensures ShiftCeil(v) <= x <==> v <= x * 65536
  {
  }

  lemma MulBound(a: nat, b: nat)
    requires a <= U64_MAX && b <= U64_MAX
    ensures a * b <= U64_MAX * U64_MAX < U128_MAX
  {
    assert a * b <= a * U64_MAX by { MulMonotone(a, b, U64_MAX); }
    assert a * U64_MAX <= U64_MAX * U64_MAX by { MulMonotone(U64_MAX, a, U64_MAX); }
  }

  lemma MulMonotone(a: nat, b: nat, c: nat)
    requires b <= c
    ensures a * b <= a * c
  {
    assert a * c == a * b + a * (c - b);
    assert a * (c - b) >= 0;
  }

  lemma DivSandwich(x: nat, d: nat)
    requires d > 0
    ensures d * (x / d) <= x < d * (x / d + 1)
  {
  }

  /** More gas never costs less. */
  lemma GasFeeMonotone(p: GasPrices, a: nat, b: nat)
    requires a <= b
    ensures GasFee(p, a) <= GasFee(p, b)
  {
    if p.flatGasLimit < a {
      var va := p.gasPrice * (a - p.flatGasLimit);
      var vb := p.gasPrice * (b - p.flatGasLimit);
      MulMonotone(p.gasPrice, a - p.flatGasLimit, b - p.flatGasLimit);
      CeilBound(vb, ShiftCeil(vb));
      CeilBound(va, ShiftCeil(vb));
    }
  }

  // ----- The price curve and its inverse -----

  /** In the interpolated range: the shift does not overflow, the result is below
      the limit, so neither the saturation nor the 64-bit fallback is reached. */
  lemma InterpolationIsExact(p: GasPrices, balance: nat)
    requires balance != 0 && p.flatGasPrice <= balance < MaxGasThreshold(p) && p.gasPrice != 0
    ensures p.flatGasLimit < p.gasLimit
    ensures (balance - p.flatGasPrice) * 65536 < U128_MAX
    ensures GasBoughtFor(p, balance) == (balance - p.flatGasPrice) * 65536 / p.gasPrice + p.flatGasLimit
    ensures GasBoughtFor(p, balance) < p.gasLimit
  {
    var x := balance - p.flatGasPrice;
    var span := p.gasLimit - p.flatGasLimit;
    var whole := p.gasPrice * span;
    assert x < ShiftCeil(whole);
    MulBound(p.gasPrice, span);
    BelowCeil(x, whole);
    QuotientBelow(x * 65536, p.gasPrice, span);
    SmallShift(x * 65536);
  }

  lemma BelowCeil(x: nat, whole: nat)
    requires x < ShiftCeil(whole)
    ensures x * 65536 < whole
  {
    CeilBound(whole, x);
  }

  lemma QuotientBelow(v: nat, d: nat, span: nat)
    requires d > 0 && v < d * span
    ensures v / d < span
  {
    DivSandwich(v, d);
    if v / d >= span {
      MulMonotone(d, span, v / d);
    }
  }

  lemma SmallShift(v: nat)
    requires v <= U128_MAX
    ensures v % (U128_MAX + 1) == v
  {
  }

  /** What the bought amount means: it is within the limit, the balance pays for
      it, and no larger amount within the limit is affordable. */
  ghost predicate GreatestAffordable(p: GasPrices, balance: nat, gas: nat) {
    && gas <= p.gasLimit
    && GasFee(p, gas) <= balance
    && forall g :: gas < g <= p.gasLimit ==> GasFee(p, g) > balance
  }

  lemma BoughtGasIsGreatest(p: GasPrices, balance: nat)
    requires balance != 0 && p.flatGasPrice <= balance
    ensures GreatestAffordable(p, balance, GasBoughtFor(p, balance))
  {
    if balance >= MaxGasThreshold(p) || p.gasPrice == 0 {
      LimitIsAffordable(p, balance);
    } else {
      InterpolationIsExact(p, balance);
      InterpolationIsGreatest(p, balance - p.flatGasPrice);
    }
  }

  lemma LimitIsAffordable(p: GasPrices, balance: nat)
    requires p.flatGasPrice <= balance
    requires balance >= MaxGasThreshold(p) || p.gasPrice == 0
    ensures GasFee(p, p.gasLimit) <= balance
  {
    if p.gasLimit > p.flatGasLimit {
      MulBound(p.gasPrice, p.gasLimit - p.flatGasLimit);
    }
  }

  /** `paid` above the flat price buys exactly `paid * 2^16 / price` above the flat limit. */
  lemma InterpolationIsGreatest(p: GasPrices, paid: nat)
    requires p.gasPrice != 0
    ensures GasFee(p, paid * 65536 / p.gasPrice + p.flatGasLimit) <= p.flatGasPrice + paid
    ensures forall g :: g > paid * 65536 / p.gasPrice + p.flatGasLimit ==> GasFee(p, g) > p.flatGasPrice + paid
  {
    var q := paid * 65536 / p.gasPrice;
    DivSandwich(paid * 65536, p.gasPrice);
    FeeCompare(p, q, paid);
    FeeCompare(p, q + 1, paid);
    forall g | g > q + p.flatGasLimit ensures GasFee(p, g) > p.flatGasPrice + paid {
      GasFeeMonotone(p, q + 1 + p.flatGasLimit, g);
    }
  }

  lemma FeeCompare(p: GasPrices, x: nat, paid: nat)
    ensures GasFee(p, x + p.flatGasLimit) <= p.flatGasPrice + paid <==> p.gasPrice * x <= paid * 65536
  {
    if x > 0 {
      CeilBound(p.gasPrice * x, paid);
    }
  }

  /** Exactly when buying gas inverts the fee. A balance below the flat price buys
      nothing because nothing is affordable; the only failing family is an empty
      balance with a free flat part, where free gas exists but none is handed out. */
  lemma GasInverseIff(p: GasPrices, balance: nat)
    ensures p.flatGasPrice <= balance ==>
              (GreatestAffordable(p, balance, GasBoughtFor(p, balance)) <==>
               balance != 0 || p.gasLimit == 0 || (p.flatGasLimit == 0 && p.gasPrice != 0))
    ensures balance < p.flatGasPrice ==>
              GasBoughtFor(p, balance) == 0 && forall g: nat :: GasFee(p, g) > balance
  {
    if p.flatGasPrice <= balance {
      if balance != 0 {
        BoughtGasIsGreatest(p, balance);
      } else if p.gasLimit != 0 {
        if p.flatGasLimit == 0 && p.gasPrice != 0 {
          forall g | 0 < g <= p.gasLimit ensures GasFee(p, g) > 0 {
            MulMonotone(p.gasPrice, 1, g);
            CeilBound(p.gasPrice * g, 0);
          }
        } else {
          assert GasFee(p, 1) == 0;
        }
      }
    }
  }

  /** Where it fails: with a flat price of zero an empty balance pays for the flat
      amount and yet buys nothing. */
  lemma EmptyBalanceBuysNothing()
    ensures var p := GasPrices(65536, 1000, 0, 0, 100, 0, 0, 0);
            GasFee(p, 100) <= 0 && GasBoughtFor(p, 0) == 0 && !GreatestAffordable(p, 0, GasBoughtFor(p, 0))
  {
    var p := GasPrices(65536, 1000, 0, 0, 100, 0, 0, 0);
    assert GasFee(p, 100) == 0;
  }

  /** A richer account never buys less gas. */
  lemma BoughtGasMonotone(p: GasPrices, a: nat, b: nat)
    requires a <= b
    ensures GasBoughtFor(p, a) <= GasBoughtFor(p, b)
  {
    if a != 0 && p.flatGasPrice <= a {
      BoughtGasIsGreatest(p, a);
      BoughtGasIsGreatest(p, b);
    }
  }

  /** Whatever part of the granted maximum a run uses, the account that was granted
      it can pay: the compute phase never charges more than the balance. */
  lemma GrantedGasIsPayable(p: GasPrices, balance: nat, msgBalance: nat, ordinary: bool, external: bool, used: nat)
    requires var g := ComputeGasParams(p, balance, msgBalance, false, ordinary, external);
             balance != 0 && (g.limit != 0 || g.credit != 0) && used <= g.max
    ensures GasFee(p, used) <= balance
  {
    var g := ComputeGasParams(p, balance, msgBalance, false, ordinary, external);
    assert g.max != 0;
    BoughtGasIsGreatest(p, balance);
    GasFeeMonotone(p, used, g.max);
  }

  /** Grants stay below the maximum, and only external messages get credit. */
  lemma GasParamsBounds(p: GasPrices, balance: nat, msgBalance: nat, special: bool, ordinary: bool, external: bool)
    ensures var g := ComputeGasParams(p, balance, msgBalance, special, ordinary, external);
            && g.limit <= g.max && g.credit <= g.max
            && (!external ==> g.credit == 0)
  {
  }
}
