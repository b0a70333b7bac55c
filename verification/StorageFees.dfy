/** Storage fees over price segments. */
module StorageFees {
  import opened Util
  import opened GasPricing

  datatype Segment = Segment(since: U32, bitPrice: U64, cellPrice: U64, mcBitPrice: U64, mcCellPrice: U64)

  datatype Usage = Usage(bits: U56, cells: U56)

  /** Price of one second of storage, in 1/2^16 of a token. */
  function Rate(s: Segment, used: Usage, mc: bool): nat {
    var bitPrice := if mc then s.mcBitPrice else s.bitPrice;
    var cellPrice := if mc then s.mcCellPrice else s.cellPrice;
    SatAdd(bitPrice * used.bits, cellPrice * used.cells, U128_MAX)
  }

  /** A segment with the price of one second worked out for one account. */
  datatype Priced = Priced(since: nat, rate: nat)

  function Table(segs: seq<Segment>, used: Usage, mc: bool): (t: seq<Priced>)
    ensures |t| == |segs|
    ensures forall i :: 0 <= i < |segs| ==> t[i] == Priced(segs[i].since, Rate(segs[i], used, mc))
  {
    seq(|segs|, i requires 0 <= i < |segs| => Priced(segs[i].since, Rate(segs[i], used, mc)))
  }

  function Cost(rate: nat, seconds: nat): nat {
    rate * seconds
  }

  // ----- The loop, most recent segment first -----

  /** What segments `t[..n]` charge for the time between `paid` and `upto`,
      before any saturation. */
  function SegmentSum(t: seq<Priced>, n: nat, paid: nat, upto: nat): nat
    requires n <= |t| && paid <= upto
  {
    if n == 0 then 0
    else
      var s := t[n - 1];
      if s.since > upto then SegmentSum(t, n - 1, paid, upto)
      else
        Cost(s.rate, upto - Max(s.since, paid)) +
        if s.since <= paid then 0 else SegmentSum(t, n - 1, paid, s.since)
  }

  predicate NothingToPay(segs: seq<Segment>, paid: nat, now: nat, special: bool) {
    now <= paid || paid == 0 || special || segs == [] || now <= segs[0].since
  }

  function StorageFee(segs: seq<Segment>, used: Usage, paid: nat, now: nat, special: bool, mc: bool): nat {
    if NothingToPay(segs, paid, now, special) then 0
    else ShiftCeil(Min(SegmentSum(Table(segs, used, mc), |segs|, paid, now), U128_MAX))
  }

  /** `compute_storage_fees`. The time subtraction is safe for any segment order. */
  method ComputeStorageFees(segs: seq<Segment>, used: Usage, paid: nat, now: nat, special: bool, mc: bool)
    returns (fee: nat)
    ensures fee == StorageFee(segs, used, paid, now, special, mc)
  {
    if now <= paid || paid == 0 || special {
      return 0;
    }
    if |segs| == 0 {
      return 0;
    }
    if now <= segs[0].since {
      return 0;
    }
    var total: nat := 0;
    var upto := now;
    var i := |segs|;
    ghost var t := Table(segs, used, mc);
    ghost var charged: nat := 0;
    while i > 0
      invariant 0 <= i <= |segs| && paid < upto
      invariant total == Min(charged, U128_MAX)
      invariant charged + SegmentSum(t, i, paid, upto) == SegmentSum(t, |segs|, paid, now)
    {
      i := i - 1;
      var s := segs[i];
      if s.since <= upto {
        var delta: nat := upto - Max(s.since, paid);
        var rate := Rate(s, used, mc);
        total := SatAdd(total, Min(Cost(rate, delta), U128_MAX), U128_MAX);
        charged := charged + Cost(rate, delta);
        if s.since <= paid {
          break;
        }
        upto := s.since;
      }
    }
    fee := ShiftCeil(total);
  }

  /** A fee always fits into an amount: at most 2^112. */
  lemma FeeFits(segs: seq<Segment>, used: Usage, paid: nat, now: nat, special: bool, mc: bool)
    ensures StorageFee(segs, used, paid, now, special, mc) <= 0x1_0000_0000_0000_0000_0000_0000_0000
  {
  }

  // ----- What the fee means: a sum over seconds -----

  /** The rate active at second `at`: that of the last segment already started. */
  function ActiveRate(t: seq<Priced>, at: nat): nat {
    if t == [] then 0
    else
      var last := t[|t| - 1];
      if last.since <= at then last.rate else ActiveRate(t[..|t| - 1], at)
  }

  function PerSecond(t: seq<Priced>, from: nat, to: nat): nat
    requires from <= to
  {
    if from == to then 0 else PerSecond(t, from, to - 1) + ActiveRate(t, to - 1)
  }

  predicate Sorted(t: seq<Priced>) {
    forall i, j :: 0 <= i < j < |t| ==> t[i].since <= t[j].since
  }

  lemma {:induction false} PerSecondSplit(t: seq<Priced>, a: nat, b: nat, c: nat)
    requires a <= b <= c
    ensures PerSecond(t, a, c) == PerSecond(t, a, b) + PerSecond(t, b, c)
  {
    if b < c {
      PerSecondSplit(t, a, b, c - 1);
    }
  }

  /** While one segment is active the sum is rate times time. */
  lemma {:induction false} PerSecondActive(t: seq<Priced>, from: nat, to: nat)
    requires t != [] && t[|t| - 1].since <= from <= to
    ensures PerSecond(t, from, to) == t[|t| - 1].rate * (to - from)
  {
    if from < to {
      PerSecondActive(t, from, to - 1);
      var rate := t[|t| - 1].rate;
      assert rate * (to - from) == rate * (to - 1 - from) + rate;
    }
  }

  /** Before it starts, the last segment contributes nothing. */
  lemma {:induction false} PerSecondInactive(t: seq<Priced>, from: nat, to: nat)
    requires t != [] && from <= to <= t[|t| - 1].since
    ensures PerSecond(t, from, to) == PerSecond(t[..|t| - 1], from, to)
  {
    if from < to {
      PerSecondInactive(t, from, to - 1);
    }
  }

  lemma {:induction false} SegmentSumIsPerSecond(t: seq<Priced>, n: nat, paid: nat, upto: nat)
    requires n <= |t| && paid <= upto
    ensures SegmentSum(t, n, paid, upto) == PerSecond(t[..n], paid, upto)
    decreases n
  {
    if n == 0 {
      NoSegments(paid, upto);
      assert t[..0] == [];
    } else {
      var s := t[n - 1];
      var now := t[..n];
      assert now[..n - 1] == t[..n - 1] && now[n - 1] == s;
      if s.since > upto {
        SegmentSumIsPerSecond(t, n - 1, paid, upto);
        PerSecondInactive(now, paid, upto);
      } else {
        var from := Max(s.since, paid);
        PerSecondActive(now, from, upto);
        PerSecondSplit(now, paid, from, upto);
        if s.since > paid {
          SegmentSumIsPerSecond(t, n - 1, paid, s.since);
          PerSecondInactive(now, paid, s.since);
        }
      }
    }
  }

  lemma {:induction false} NoSegments(from: nat, to: nat)
    requires from <= to
    ensures PerSecond([], from, to) == 0
  {
    if from < to {
      NoSegments(from, to - 1);
    }
  }

  lemma {:induction false} BeforeFirst(t: seq<Priced>, from: nat, to: nat)
    requires from <= to && forall i :: 0 <= i < |t| ==> to <= t[i].since
    ensures PerSecond(t, from, to) == 0
    decreases |t|
  {
    if t == [] {
      NoSegments(from, to);
    } else {
      PerSecondInactive(t, from, to);
      BeforeFirst(t[..|t| - 1], from, to);
    }
  }

  /** In a sorted table the rate active at a second is that of the one segment that
      has started while its successor has not; before the first segment it is zero. */
  lemma {:induction false} ActiveRateIsLatest(t: seq<Priced>, at: nat, k: nat)
    requires Sorted(t)
    ensures t == [] || at < t[0].since ==> ActiveRate(t, at) == 0
    ensures k < |t| && t[k].since <= at && (k + 1 == |t| || at < t[k + 1].since) ==> ActiveRate(t, at) == t[k].rate
    decreases |t|
  {
    if t != [] && at < t[|t| - 1].since {
      ActiveRateIsLatest(t[..|t| - 1], at, k);
    }
  }

  /** A second costs the active prices of its workchain for every bit and every cell in
      use: the cap on that sum is never reached. */
  lemma PricePerSecond(segs: seq<Segment>, used: Usage, mc: bool, at: nat, k: nat)
    requires Sorted(Table(segs, used, mc)) && k < |segs|
    requires segs[k].since <= at && (k + 1 == |segs| || at < segs[k + 1].since)
    ensures ActiveRate(Table(segs, used, mc), at) ==
            if mc then segs[k].mcBitPrice * used.bits + segs[k].mcCellPrice * used.cells
            else segs[k].bitPrice * used.bits + segs[k].cellPrice * used.cells
  {
    ActiveRateIsLatest(Table(segs, used, mc), at, k);
    var s := segs[k];
    SmallProduct(if mc then s.mcBitPrice else s.bitPrice, used.bits);
    SmallProduct(if mc then s.mcCellPrice else s.cellPrice, used.cells);
  }

  lemma SmallProduct(price: U64, amount: U56)
    ensures price * amount <= U64_MAX * 0xff_ffff_ffff_ffff
  {
    MulMonotone(price, amount, 0xff_ffff_ffff_ffff);
    MulMonotone(0xff_ffff_ffff_ffff, price, U64_MAX);
  }

  /** The charged fee is the price of every elapsed second, summed, capped at 128
      bits and rounded up once. */
  lemma StorageFeeIsPerSecond(segs: seq<Segment>, used: Usage, paid: nat, now: nat, mc: bool)
    requires Sorted(Table(segs, used, mc)) && 0 < paid <= now
    ensures StorageFee(segs, used, paid, now, false, mc) ==
            ShiftCeil(Min(PerSecond(Table(segs, used, mc), paid, now), U128_MAX))
  {
    var t := Table(segs, used, mc);
    SegmentSumIsPerSecond(t, |t|, paid, now);
    assert t[..|t|] == t;
    if t == [] {
      NoSegments(paid, now);
    } else if now <= t[0].since {
      BeforeFirst(t, paid, now);
    }
  }

  /** Paying in two parts never saves anything. It costs the fee of one payment or one
      unit more when the parts together, each capped at 128 bits, stay below that cap;
      beyond it the one payment is capped and the two cost more. */
  lemma TwoInstalments(segs: seq<Segment>, used: Usage, paid: nat, mid: nat, now: nat, mc: bool)
    requires Sorted(Table(segs, used, mc)) && 0 < paid <= mid <= now
    ensures var t := Table(segs, used, mc);
            var parts := Min(PerSecond(t, paid, mid), U128_MAX) + Min(PerSecond(t, mid, now), U128_MAX);
            var once := StorageFee(segs, used, paid, now, false, mc);
            var twice := StorageFee(segs, used, paid, mid, false, mc) + StorageFee(segs, used, mid, now, false, mc);
            && once <= twice
            && (parts <= U128_MAX ==> twice == once || twice == once + 1)
            && (parts > U128_MAX + 0x1_0001 ==> twice > once + 1)
  {
    var t := Table(segs, used, mc);
    StorageFeeIsPerSecond(segs, used, paid, now, mc);
    StorageFeeIsPerSecond(segs, used, paid, mid, mc);
    StorageFeeIsPerSecond(segs, used, mid, now, mc);
    PerSecondSplit(t, paid, mid, now);
    TwoParts(PerSecond(t, paid, mid), PerSecond(t, mid, now));
  }

  lemma TwoParts(a: nat, b: nat)
    ensures var parts := Min(a, U128_MAX) + Min(b, U128_MAX);
            var once := ShiftCeil(Min(a + b, U128_MAX));
            var twice := ShiftCeil(Min(a, U128_MAX)) + ShiftCeil(Min(b, U128_MAX));
            && once <= twice
            && (parts <= U128_MAX ==> twice == once || twice == once + 1)
            && (parts > U128_MAX + 0x1_0001 ==> twice > once + 1)
  {
  }
}
