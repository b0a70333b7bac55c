/** What a reserve action sets aside, in every mode and every currency. */
module ReserveMeaning {
  import opened Util
  import opened Money
  import opened ExecutorTypes
  import opened ActionSpec
  import opened Messages

  // ----- The amount that is named -----

  function NamedTokens(env: Env, mode: ReserveMode, value: Currency): int {
    if !mode.withOriginal then value.tokens
    else if mode.reverse then env.original.tokens - value.tokens
    else value.tokens + env.original.tokens
  }

  /** In strict mode the original balance counts for native tokens only. */
  function NamedExtra(env: Env, mode: ReserveMode, value: Currency, k: nat): int {
    var v := Amount(value.other, k);
    if !mode.withOriginal || env.cfg.strictExtra then v
    else if mode.reverse then Amount(env.original.other, k) - v
    else v + Amount(env.original.other, k)
  }

  /** The flags go together, and strict mode is not asked for extra currencies. */
  predicate ProperMode(env: Env, mode: ReserveMode, value: Currency) {
    && !mode.unknown && (mode.reverse ==> mode.withOriginal)
    && (env.cfg.strictExtra ==> value.other == map[])
  }

  /** The named amount is an amount: not negative, and not beyond what amounts hold. */
  ghost predicate Nameable(env: Env, mode: ReserveMode, value: Currency) {
    mode.withOriginal ==>
      if mode.reverse then
        && 0 <= NamedTokens(env, mode, value)
        && (!env.cfg.strictExtra ==> forall k :: 0 <= NamedExtra(env, mode, value, k))
      else
        && NamedTokens(env, mode, value) <= MAX_TOKENS
        && (!env.cfg.strictExtra ==> forall k :: k in env.original.other ==> NamedExtra(env, mode, value, k) <= MAX_EXTRA)
  }

  lemma AmountMeaning(env: Env, mode: ReserveMode, value: Currency)
    requires ProperMode(env, mode, value)
    ensures var a := ReserveAmount(env, mode, value);
            && (a.Some? <==> Nameable(env, mode, value))
            && (a.Some? ==>
                  && a.value.tokens == NamedTokens(env, mode, value)
                  && forall k :: Amount(a.value.other, k) == NamedExtra(env, mode, value, k))
  {
    if mode.withOriginal && !env.cfg.strictExtra && mode.reverse {
      ReverseExtra(env, mode, value);
    }
  }

  lemma ReverseExtra(env: Env, mode: ReserveMode, value: Currency)
    requires mode.withOriginal && mode.reverse && !env.cfg.strictExtra
    ensures Covers(env.original.other, value.other) <==> forall k: nat :: 0 <= NamedExtra(env, mode, value, k)
  {
    if Covers(env.original.other, value.other) {
      forall k: nat ensures 0 <= NamedExtra(env, mode, value, k) {
        assert Amount(value.other, k) <= Amount(env.original.other, k);
      }
    }
    if forall k: nat :: 0 <= NamedExtra(env, mode, value, k) {
      forall k: nat ensures Amount(value.other, k) <= Amount(env.original.other, k) {
        assert 0 <= NamedExtra(env, mode, value, k);
      }
    }
  }

  // ----- What is taken of it -----

  /** With the ignore flag, no more than is left. */
  function TakenTokens(env: Env, ctx: Ctx, mode: ReserveMode, value: Currency): int {
    var named := NamedTokens(env, mode, value);
    if mode.ignoreError then Min(named, ctx.remaining.tokens) else named
  }

  function TakenExtra(env: Env, ctx: Ctx, mode: ReserveMode, value: Currency, k: nat): int {
    var named := NamedExtra(env, mode, value, k);
    if mode.ignoreError then Min(named, Amount(ctx.remaining.other, k)) else named
  }

  /** The part set aside: what is taken, or with the all-but flag everything else, which
      in strict mode goes for native tokens only. */
  function AsideTokens(env: Env, ctx: Ctx, mode: ReserveMode, value: Currency): int {
    var taken := TakenTokens(env, ctx, mode, value);
    if mode.allBut then ctx.remaining.tokens - taken else taken
  }

  function AsideExtra(env: Env, ctx: Ctx, mode: ReserveMode, value: Currency, k: nat): int {
    var taken := TakenExtra(env, ctx, mode, value, k);
    if mode.allBut && !env.cfg.strictExtra then Amount(ctx.remaining.other, k) - taken else taken
  }

  /** The reserved balance grows by exactly the part set aside, in every currency, and
      the remaining balance shrinks by it; nothing else moves. */
  ghost predicate SetsAside(env: Env, ctx: Ctx, mode: ReserveMode, value: Currency, after: Ctx) {
    && after.reserved.tokens == ctx.reserved.tokens + AsideTokens(env, ctx, mode, value)
    && after.remaining.tokens == ctx.remaining.tokens - AsideTokens(env, ctx, mode, value)
    && (forall k ::
          && Amount(after.reserved.other, k) == Amount(ctx.reserved.other, k) + AsideExtra(env, ctx, mode, value, k)
          && Amount(after.remaining.other, k) == Amount(ctx.remaining.other, k) - AsideExtra(env, ctx, mode, value, k))
    && after.specialActions == ctx.specialActions + 1
    && after.outMsgs == ctx.outMsgs && after.newState == ctx.newState && after.fine == ctx.fine
  }

  /** What is left does not hold the amount. */
  predicate ShortOfTokens(env: Env, ctx: Ctx, mode: ReserveMode, value: Currency) {
    TakenTokens(env, ctx, mode, value) > ctx.remaining.tokens
  }

  ghost predicate ShortOfExtra(env: Env, ctx: Ctx, mode: ReserveMode, value: Currency) {
    exists k :: TakenExtra(env, ctx, mode, value, k) > Amount(ctx.remaining.other, k)
  }

  /** The reserve itself would not fit, which all the money in play fitting excludes. */
  ghost predicate ReserveOverflows(env: Env, ctx: Ctx, mode: ReserveMode, value: Currency) {
    || ctx.reserved.tokens + AsideTokens(env, ctx, mode, value) > MAX_TOKENS
    || exists k :: Amount(ctx.reserved.other, k) + AsideExtra(env, ctx, mode, value, k) > MAX_EXTRA
  }

  lemma TakeMeaning(balance: Currency, amount: Currency)
    ensures var t := TakeFrom(balance, amount);
            && (amount.tokens > balance.tokens ==> t == Short(NOT_ENOUGH_BALANCE))
            && (amount.tokens <= balance.tokens && !Covers(balance.other, amount.other) ==> t == Short(NOT_ENOUGH_EXTRA_BALANCE))
            && (amount.tokens <= balance.tokens && Covers(balance.other, amount.other) ==>
                  && t.Left? && t.left.tokens == balance.tokens - amount.tokens
                  && forall k :: Amount(t.left.other, k) == Amount(balance.other, k) - Amount(amount.other, k))
  {
  }

  /** What each half of a split holds. */
  ghost predicate SplitsAs(env: Env, mode: ReserveMode, left: Currency, taken: Currency, s: Split) {
    && s.reserved.tokens == (if mode.allBut then left.tokens else taken.tokens)
    && s.available.tokens == (if mode.allBut then taken.tokens else left.tokens)
    && (forall k ::
          var swapped := mode.allBut && !env.cfg.strictExtra;
          && Amount(s.reserved.other, k) == (if swapped then Amount(left.other, k) else Amount(taken.other, k))
          && Amount(s.available.other, k) == (if swapped then Amount(taken.other, k) else Amount(left.other, k)))
  }

  lemma SplitMeaning(env: Env, mode: ReserveMode, left: Currency, amount: Currency)
    ensures SplitsAs(env, mode, left, amount, SplitBalance(env, mode, left, amount.(other := Normalize(amount.other))))
  {
  }

  lemma StoreMeaning(ctx: Ctx, s: Split)
    ensures var r := StoreSplit(ctx, s);
            && (r.result.Sent? ==>
                  && r.ctx.reserved.tokens == ctx.reserved.tokens + s.reserved.tokens
                  && (forall k :: Amount(r.ctx.reserved.other, k) == Amount(ctx.reserved.other, k) + Amount(s.reserved.other, k))
                  && r.ctx == ctx.(remaining := s.available, reserved := r.ctx.reserved, specialActions := ctx.specialActions + 1))
            && (!r.result.Sent? ==>
                  && r == Step(ctx.(remaining := s.available), Failed)
                  && (ctx.reserved.tokens + s.reserved.tokens > MAX_TOKENS
                      || exists k :: Amount(ctx.reserved.other, k) + Amount(s.reserved.other, k) > MAX_EXTRA))
  {
    if StoreSplit(ctx, s).result.Failed? && ctx.reserved.tokens + s.reserved.tokens <= MAX_TOKENS {
      var k :| k in s.reserved.other && Amount(ctx.reserved.other, k) + s.reserved.other[k] > MAX_EXTRA;
      assert Amount(ctx.reserved.other, k) + Amount(s.reserved.other, k) > MAX_EXTRA;
    }
  }

  /** Taking an amount from the balance and setting it aside. */
  lemma ClampedMeaning(env: Env, ctx: Ctx, mode: ReserveMode, value: Currency, amount: Currency)
    requires amount.tokens == TakenTokens(env, ctx, mode, value)
    requires forall k :: Amount(amount.other, k) == TakenExtra(env, ctx, mode, value, k)
    ensures Outcome(env, ctx, mode, value, ctx.resultCode, ReserveClamped(env, ctx, mode, amount))
  {
    TakeMeaning(ctx.remaining, amount);
    ShortIff(env, ctx, mode, value, amount);
    if !ShortOfTokens(env, ctx, mode, value) && !ShortOfExtra(env, ctx, mode, value) {
      var left := TakeFrom(ctx.remaining, amount).left;
      var split := SplitBalance(env, mode, left, amount.(other := Normalize(amount.other)));
      SplitMeaning(env, mode, left, amount);
      StoreMeaning(ctx, split);
      AsideParts(env, ctx, mode, value, amount, left, split);
      Stored(env, ctx, mode, value, split);
    }
  }

  lemma ShortIff(env: Env, ctx: Ctx, mode: ReserveMode, value: Currency, amount: Currency)
    requires forall k :: Amount(amount.other, k) == TakenExtra(env, ctx, mode, value, k)
    ensures ShortOfExtra(env, ctx, mode, value) <==> !Covers(ctx.remaining.other, amount.other)
  {
    if ShortOfExtra(env, ctx, mode, value) {
      var k :| TakenExtra(env, ctx, mode, value, k) > Amount(ctx.remaining.other, k);
      assert Amount(amount.other, k) > Amount(ctx.remaining.other, k);
    }
    if !Covers(ctx.remaining.other, amount.other) {
      var k :| Amount(amount.other, k) > Amount(ctx.remaining.other, k);
      assert TakenExtra(env, ctx, mode, value, k) > Amount(ctx.remaining.other, k);
    }
  }

  ghost predicate AsideSplit(env: Env, ctx: Ctx, mode: ReserveMode, value: Currency, s: Split) {
    && s.reserved.tokens == AsideTokens(env, ctx, mode, value)
    && s.available.tokens == ctx.remaining.tokens - AsideTokens(env, ctx, mode, value)
    && forall k ::
         && Amount(s.reserved.other, k) == AsideExtra(env, ctx, mode, value, k)
         && Amount(s.available.other, k) == Amount(ctx.remaining.other, k) - AsideExtra(env, ctx, mode, value, k)
  }

  lemma AsideParts(env: Env, ctx: Ctx, mode: ReserveMode, value: Currency, amount: Currency, left: Currency, s: Split)
    requires amount.tokens == TakenTokens(env, ctx, mode, value) <= ctx.remaining.tokens
    requires forall k :: Amount(amount.other, k) == TakenExtra(env, ctx, mode, value, k)
    requires left.tokens == ctx.remaining.tokens - amount.tokens
    requires forall k :: Amount(left.other, k) == Amount(ctx.remaining.other, k) - Amount(amount.other, k)
    requires SplitsAs(env, mode, left, amount, s)
    ensures AsideSplit(env, ctx, mode, value, s)
  {
  }

  lemma Stored(env: Env, ctx: Ctx, mode: ReserveMode, value: Currency, s: Split)
    requires AsideSplit(env, ctx, mode, value, s)
    ensures var r := StoreSplit(ctx, s);
            && (r.result.Sent? ==> SetsAside(env, ctx, mode, value, r.ctx))
            && (!r.result.Sent? ==> r.result.Failed? && r.ctx.resultCode == ctx.resultCode && ReserveOverflows(env, ctx, mode, value))
  {
    StoreMeaning(ctx, s);
    var r := StoreSplit(ctx, s);
    if !r.result.Sent? && ctx.reserved.tokens + s.reserved.tokens <= MAX_TOKENS {
      var k :| Amount(ctx.reserved.other, k) + Amount(s.reserved.other, k) > MAX_EXTRA;
      assert Amount(ctx.reserved.other, k) + AsideExtra(env, ctx, mode, value, k) > MAX_EXTRA;
    }
  }

  /** How setting a nameable amount aside ends. */
  ghost predicate Outcome(env: Env, ctx: Ctx, mode: ReserveMode, value: Currency, code: int, r: Step) {
    && !r.result.Retry?
    && (r.result.Sent? ==>
          SetsAside(env, ctx, mode, value, r.ctx) && !ShortOfTokens(env, ctx, mode, value) && !ShortOfExtra(env, ctx, mode, value))
    && (r.result.Failed? ==>
          if ShortOfTokens(env, ctx, mode, value) then r.ctx.resultCode == NOT_ENOUGH_BALANCE
          else if ShortOfExtra(env, ctx, mode, value) then r.ctx.resultCode == NOT_ENOUGH_EXTRA_BALANCE
          else r.ctx.resultCode == code && ReserveOverflows(env, ctx, mode, value))
  }

  lemma ReserveProper(env: Env, ctx: Ctx, mode: ReserveMode, value: Currency)
    requires ProperMode(env, mode, value) && Nameable(env, mode, value)
    ensures var flagged := FlagBounce(ctx, mode.bounceOnError);
            Outcome(env, flagged, mode, value, ctx.resultCode, DoReserve(env, ctx, mode, value))
  {
    var flagged := FlagBounce(ctx, mode.bounceOnError);
    AmountMeaning(env, mode, value);
    var a := ReserveAmount(env, mode, value).value;
    var amount := if mode.ignoreError then Clamp(a, flagged.remaining) else a;
    ClampedMeaning(env, flagged, mode, value, amount);
    DoesReserve(env, ctx, mode, value, amount);
  }

  lemma DoesReserve(env: Env, ctx: Ctx, mode: ReserveMode, value: Currency, amount: Currency)
    requires ProperMode(env, mode, value) && ReserveAmount(env, mode, value).Some?
    requires var a := ReserveAmount(env, mode, value).value;
             amount == if mode.ignoreError then Clamp(a, ctx.remaining) else a
    ensures DoReserve(env, ctx, mode, value) == ReserveClamped(env, FlagBounce(ctx, mode.bounceOnError), mode, amount)
  {
  }

  lemma ReserveRefused(env: Env, ctx: Ctx, mode: ReserveMode, value: Currency)
    requires !ProperMode(env, mode, value) || !Nameable(env, mode, value)
    ensures DoReserve(env, ctx, mode, value) == Step(FlagBounce(ctx, mode.bounceOnError), Failed)
  {
    if ProperMode(env, mode, value) {
      AmountMeaning(env, mode, value);
    }
  }

  /** The bounce flag is no money. */
  lemma Unflagged(env: Env, ctx: Ctx, mode: ReserveMode, value: Currency, r: Step)
    requires Outcome(env, ctx.(needBounce := true), mode, value, ctx.resultCode, r)
    ensures Outcome(env, ctx, mode, value, ctx.resultCode, r)
  {
  }

  /** Remaining and reserved together fit an amount, in every currency. */
  ghost predicate MoneyFits(ctx: Ctx) {
    && ctx.remaining.tokens + ctx.reserved.tokens <= MAX_TOKENS
    && forall k :: Amount(ctx.remaining.other, k) + Amount(ctx.reserved.other, k) <= MAX_EXTRA
  }

  lemma NoOverflow(env: Env, ctx: Ctx, mode: ReserveMode, value: Currency)
    requires MoneyFits(ctx) && ProperMode(env, mode, value) && Nameable(env, mode, value)
    requires !ShortOfTokens(env, ctx, mode, value) && !ShortOfExtra(env, ctx, mode, value)
    ensures !ReserveOverflows(env, ctx, mode, value)
  {
    AmountMeaning(env, mode, value);
    assert AsideTokens(env, ctx, mode, value) <= ctx.remaining.tokens;
    forall k: nat ensures Amount(ctx.reserved.other, k) + AsideExtra(env, ctx, mode, value, k) <= MAX_EXTRA {
      NonNegative(env, ctx, mode, value, k);
      assert TakenExtra(env, ctx, mode, value, k) <= Amount(ctx.remaining.other, k);
    }
  }

  lemma NonNegative(env: Env, ctx: Ctx, mode: ReserveMode, value: Currency, k: nat)
    requires ProperMode(env, mode, value) && Nameable(env, mode, value)
    ensures 0 <= TakenTokens(env, ctx, mode, value) && 0 <= TakenExtra(env, ctx, mode, value, k)
  {
    AmountMeaning(env, mode, value);
    assert Amount(ReserveAmount(env, mode, value).value.other, k) == NamedExtra(env, mode, value, k);
  }

  /** While the money in play fits amounts, a reserve fails if and only if its flags do not
      go together, the amount cannot be named, or what is left does not hold it. Otherwise
      exactly the named amount, lowered to what is left if errors are ignored, is set
      aside; or, with the all-but flag, is all that stays. */
  lemma ReserveIff(env: Env, ctx: Ctx, mode: ReserveMode, value: Currency)
    ensures var r := DoReserve(env, ctx, mode, value);
            var wanted := ProperMode(env, mode, value) && Nameable(env, mode, value);
            && (wanted ==> Outcome(env, ctx, mode, value, ctx.resultCode, r))
            && (!wanted ==> r.result.Failed? && r.ctx.resultCode == ctx.resultCode && r.ctx.remaining == ctx.remaining)
            && (MoneyFits(ctx) ==>
                  (r.result.Sent? <==> wanted && !ShortOfTokens(env, ctx, mode, value) && !ShortOfExtra(env, ctx, mode, value)))
  {
    if ProperMode(env, mode, value) && Nameable(env, mode, value) {
      ReserveProper(env, ctx, mode, value);
      if mode.bounceOnError {
        Unflagged(env, ctx, mode, value, DoReserve(env, ctx, mode, value));
      }
      if MoneyFits(ctx) && !ShortOfTokens(env, ctx, mode, value) && !ShortOfExtra(env, ctx, mode, value) {
        NoOverflow(env, ctx, mode, value);
      }
    } else {
      ReserveRefused(env, ctx, mode, value);
    }
  }
}
