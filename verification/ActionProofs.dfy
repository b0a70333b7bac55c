/** Conservation, ordering and bookkeeping of the action loop, for every list of
    actions and every way each of them can go. */
module ActionProofs {
  import opened Util
  import opened Money
  import opened Cells
  import opened CellStat
  import opened Messages
  import opened ExecutorTypes
  import opened ActionSpec

  /** Native tokens the loop accounts for. */
  ghost function Native(ctx: Ctx): nat {
    ctx.remaining.tokens + ctx.reserved.tokens + ctx.fine + OrZero(ctx.actionFees) + NativeSum(ctx.outMsgs)
  }

  ghost function ExtraHeld(ctx: Ctx, k: nat): nat {
    Amount(ctx.remaining.other, k) + Amount(ctx.reserved.other, k) + ExtraSum(ctx.outMsgs, k)
  }

  ghost predicate Conserves(a: Ctx, b: Ctx) {
    && Native(a) == Native(b)
    && forall k :: ExtraHeld(a, k) == ExtraHeld(b, k)
  }

  /** Nothing is left that could be spent or given back. */
  ghost predicate Emptied(strict: bool, ctx: Ctx) {
    if strict then ctx.remaining.tokens == 0 && ctx.reserved.tokens == 0
    else ctx.remaining.IsZero() && ctx.reserved.IsZero()
  }

  function Counted(ctx: Ctx): nat {
    ctx.specialActions + ctx.skippedActions + ctx.messagesCreated
  }

  /** What may still be bounced of the inbound message only shrinks. */
  ghost predicate MsgShrinks(a: Option<Currency>, b: Option<Currency>) {
    && (a.Some? <==> b.Some?)
    && (a.Some? ==> b.value.tokens <= a.value.tokens && Covers(a.value.other, b.value.other))
  }

  /** Messages created so far carry consecutive logical times from `lt`. */
  ghost predicate Stamped(lt: nat, ctx: Ctx) {
    && Consecutive(ctx.outMsgs, lt)
    && ctx.endLt == lt + |ctx.outMsgs|
    && ctx.messagesCreated == |ctx.outMsgs|
  }

  /** What one successful action keeps, going from `a` to `b`. */
  ghost predicate GoodStep(env: Env, lt: nat, a: Ctx, b: Ctx) {
    && Conserves(a, b)
    && (Stamped(lt, a) ==> Stamped(lt, b))
    && ((a.deleteAccount ==> Emptied(env.cfg.strictExtra, a)) ==> (b.deleteAccount ==> Emptied(env.cfg.strictExtra, b)))
    && MsgShrinks(a.msgBalance, b.msgBalance)
  }

  /** What even a failed action keeps: the fine and the fees stay covered. */
  ghost predicate Payable(a: Ctx, b: Ctx) {
    && b.fine + OrZero(b.actionFees) <= Native(a)
    && MsgShrinks(a.msgBalance, b.msgBalance)
  }

  ghost predicate GoodOutcome(env: Env, lt: nat, a: Ctx, r: Step) {
    && (r.result.Sent? ==> GoodStep(env, lt, a, r.ctx) && Counted(r.ctx) == Counted(a) + 1)
    && (r.result.Failed? ==> Payable(a, r.ctx))
  }

  // ----- Sending -----

  lemma SkipInvalidGood(env: Env, lt: nat, ctx: Ctx, mode: SendMode, code: int)
    ensures GoodOutcome(env, lt, ctx, SkipInvalid(ctx, mode, code))
  {
  }

  lemma FineGood(env: Env, lt: nat, ctx: Ctx, fine: Fine, cells: nat)
    ensures var fined := CollectFine(ctx, fine, cells);
            fined.Some? ==> GoodStep(env, lt, ctx, fined.value) && Counted(fined.value) == Counted(ctx)
  {
    assert fine.perCell * Min(fine.maxCells, cells) >= 0;
  }

  lemma GoodThen(env: Env, lt: nat, a: Ctx, b: Ctx, r: Step)
    requires GoodStep(env, lt, a, b) && Counted(a) == Counted(b) && GoodOutcome(env, lt, b, r)
    ensures GoodOutcome(env, lt, a, r)
  {
  }

  lemma SkipFinedGood(env: Env, lt: nat, ctx: Ctx, mode: SendMode, fine: Fine, cells: nat, code: int)
    ensures GoodOutcome(env, lt, ctx, SkipFined(ctx, mode, fine, cells, code))
  {
    FineGood(env, lt, ctx, fine, cells);
    var fined := CollectFine(ctx, fine, cells);
    if fined.Some? {
      SkipInvalidGood(env, lt, fined.value, mode, code);
      GoodThen(env, lt, ctx, fined.value, SkipInvalid(fined.value, mode, code));
    }
  }

  /** The value that reaches the receiver plus the forwarding fee is exactly what
      is withdrawn, however the fee is paid. */
  lemma RewriteValueBalances(env: Env, ctx: Ctx, value: Currency, mode: SendMode, fwdFee: nat)
    ensures var r := RewriteValue(env, ctx, value, mode, fwdFee);
            r.Some? ==> r.value.0.tokens + fwdFee == r.value.1
    ensures var r := RewriteValue(env, ctx, value, mode, fwdFee);
            r.Some? && mode.allBalance ==>
              && r.value.1 == ctx.remaining.tokens
              && r.value.0.other == (if env.cfg.strictExtra then value.other else ctx.remaining.other)
  {
  }

  lemma PushGood(env: Env, lt: nat, ctx: Ctx, mode: SendMode, m: OutMsg, remaining: Currency, collected: nat, fwdFee: nat)
    requires m.createdLt == ctx.endLt
    requires ctx.remaining.tokens == remaining.tokens + collected + NativeOf(m)
    requires forall k :: Amount(ctx.remaining.other, k) == Amount(remaining.other, k) + ExtraOf(m, k)
    requires mode.allBalance ==> remaining.tokens == 0 && (!env.cfg.strictExtra ==> remaining.other == map[])
    requires ctx.remaining.other == map[] ==> remaining.other == map[]
    ensures GoodStep(env, lt, ctx, Push(env, ctx, mode, m, remaining, collected, fwdFee))
  {
    var b := Push(env, ctx, mode, m, remaining, collected, fwdFee);
    AppendSums(ctx.outMsgs, m);
    forall k ensures ExtraHeld(ctx, k) == ExtraHeld(b, k) {
      assert ExtraSum(b.outMsgs, k) == ExtraSum(ctx.outMsgs, k) + ExtraOf(m, k);
    }
  }

  lemma RefitGood(env: Env, lt: nat, ctx: Ctx, mode: SendMode, s: Sized)
    ensures GoodOutcome(env, lt, ctx, Refit(ctx, mode, s))
  {
    SkipFinedGood(env, lt, ctx, mode, s.fine, s.cells, FAILED_TO_FIT_MESSAGE);
  }

  lemma DeliverGood(env: Env, lt: nat, ctx: Ctx, mode: SendMode, v: Currency, pay: nat, s: Sized)
    requires v.tokens + s.fwdFee == pay
    requires mode.allBalance ==> pay == ctx.remaining.tokens && (!env.cfg.strictExtra ==> v.other == ctx.remaining.other)
    ensures GoodOutcome(env, lt, ctx, Deliver(env, ctx, mode, v, pay, s))
  {
    var r := Deliver(env, ctx, mode, v, pay, s);
    var other := SubExtra(ctx.remaining.other, v.other);
    if ctx.remaining.tokens < pay {
      assert r == SkipFined(ctx, mode, s.fine, s.cells, NOT_ENOUGH_BALANCE);
      SkipFinedGood(env, lt, ctx, mode, s.fine, s.cells, NOT_ENOUGH_BALANCE);
    } else if env.cfg.strictExtra && TooManyExtra(v.other) {
      assert r == SkipFined(ctx, mode, s.fine, s.cells, TOO_MANY_EXTRA_CURRENCIES);
      SkipFinedGood(env, lt, ctx, mode, s.fine, s.cells, TOO_MANY_EXTRA_CURRENCIES);
    } else if other.None? {
      assert r == SkipFined(ctx, mode, s.fine, s.cells, NOT_ENOUGH_EXTRA_BALANCE);
      SkipFinedGood(env, lt, ctx, mode, s.fine, s.cells, NOT_ENOUGH_EXTRA_BALANCE);
    } else {
      HandOverGood(env, lt, ctx, mode, v, pay, s, other.value);
    }
  }

  lemma HandOverGood(env: Env, lt: nat, ctx: Ctx, mode: SendMode, v: Currency, pay: nat, s: Sized, other: Extra)
    requires v.tokens + s.fwdFee == pay <= ctx.remaining.tokens
    requires mode.allBalance ==> pay == ctx.remaining.tokens && (!env.cfg.strictExtra ==> v.other == ctx.remaining.other)
    requires !(env.cfg.strictExtra && TooManyExtra(v.other))
    requires SubExtra(ctx.remaining.other, v.other) == Some(other)
    ensures GoodOutcome(env, lt, ctx, Deliver(env, ctx, mode, v, pay, s))
  {
    var r := Deliver(env, ctx, mode, v, pay, s);
    var collected := FirstPart(s.prices, s.fwdFee);
    var m := IntMsg(v, s.fwdFee - collected, ctx.endLt, s.layout.init, s.layout.body);
    var remaining := Currency(ctx.remaining.tokens - pay, other);
    if env.cfg.fits(m) {
      assert r == Step(Push(env, ctx, mode, m, remaining, collected, s.fwdFee), Sent);
      PushGood(env, lt, ctx, mode, m, remaining, collected, s.fwdFee);
    } else {
      assert r == Refit(ctx, mode, s);
      RefitGood(env, lt, ctx, mode, s);
    }
  }

  lemma FinishIntGood(env: Env, lt: nat, ctx: Ctx, mode: SendMode, value: Currency, s: Sized)
    ensures GoodOutcome(env, lt, ctx, FinishInt(env, ctx, mode, value, s))
  {
    var rewritten := RewriteValue(env, ctx, value, mode, s.fwdFee);
    if rewritten.None? {
      SkipFinedGood(env, lt, ctx, mode, s.fine, s.cells, NOT_ENOUGH_BALANCE);
    } else {
      RewriteValueBalances(env, ctx, value, mode, s.fwdFee);
      DeliverGood(env, lt, ctx, mode, rewritten.value.0, rewritten.value.1, s);
    }
  }

  lemma FinishExtGood(env: Env, lt: nat, ctx: Ctx, mode: SendMode, s: Sized)
    requires !mode.allBalance
    ensures GoodOutcome(env, lt, ctx, FinishExt(env, ctx, mode, s))
  {
    var r := FinishExt(env, ctx, mode, s);
    var m := ExtMsg(ctx.endLt, s.layout.init, s.layout.body);
    if ctx.remaining.tokens < s.fwdFee {
      assert r == SkipFined(ctx, mode, s.fine, s.cells, NOT_ENOUGH_BALANCE);
      SkipFinedGood(env, lt, ctx, mode, s.fine, s.cells, NOT_ENOUGH_BALANCE);
    } else if !env.cfg.fits(m) {
      assert r == Refit(ctx, mode, s);
      RefitGood(env, lt, ctx, mode, s);
    } else {
      ExtSentGood(env, lt, ctx, mode, m, s.fwdFee);
    }
  }

  lemma ExtSentGood(env: Env, lt: nat, ctx: Ctx, mode: SendMode, m: OutMsg, fee: nat)
    requires !mode.allBalance && m.ExtMsg? && m.createdLt == ctx.endLt && fee <= ctx.remaining.tokens
    ensures var left := ctx.remaining.(tokens := ctx.remaining.tokens - fee);
            GoodOutcome(env, lt, ctx, Step(Push(env, ctx, mode, m, left, fee, fee), Sent))
  {
    PushGood(env, lt, ctx, mode, m, ctx.remaining.(tokens := ctx.remaining.tokens - fee), fee, fee);
  }

  lemma SizeAndFinishGood(env: Env, lt: nat, ctx: Ctx, mode: SendMode, info: RelaxedInfo, layout: Layout, prices: FwdPrices)
    requires info.RelaxedExtOut? ==> !mode.allBalance
    ensures GoodOutcome(env, lt, ctx, SizeAndFinish(env, ctx, mode, info, layout, prices))
  {
    var perCell := FinePerCell(env, prices);
    var funds := if env.special then Some(ctx.remaining.tokens) else FineFunds(env, ctx, mode, info);
    if funds.None? {
      SkipInvalidGood(env, lt, ctx, mode, NOT_ENOUGH_BALANCE);
    } else {
      var fine := Fine(perCell, MaxCells(env, perCell, funds.value));
      var visit := VisitAll(FRESH, Limits(env.cfg.maxMsgBits, fine.maxCells), MsgRoots(env, info, layout), 0);
      if visit.1.None? {
        SkipFinedGood(env, lt, ctx, mode, fine, visit.0.cells, MESSAGE_OUT_OF_LIMITS);
      } else {
        var fwdFee := if env.special then 0 else FwdFee(prices, visit.0.bits, visit.0.cells);
        var s := Sized(layout, prices, fine, visit.0.cells, fwdFee);
        if info.RelaxedInt? {
          FinishIntGood(env, lt, ctx, mode, info.value, s);
        } else {
          FinishExtGood(env, lt, ctx, mode, s);
        }
      }
    }
  }

  lemma CheckSendGood(env: Env, lt: nat, ctx: Ctx, mode: SendMode, msg: RelaxedMsg, rewrite: Option<Rewrite>)
    ensures var c := CheckSend(env, ctx, mode, msg, rewrite);
            && (c.Stop? ==> GoodOutcome(env, lt, ctx, c.step))
            && (c.Go? && c.info.RelaxedExtOut? ==> !mode.allBalance)
  {
    SkipInvalidGood(env, lt, ctx, mode, INVALID_DST_ADDR);
    SkipInvalidGood(env, lt, ctx, mode, TOO_MANY_EXTRA_CURRENCIES);
  }

  lemma {:induction false} SendLoopGood(env: Env, lt: nat, ctx: Ctx, mode: SendMode, msg: RelaxedMsg, rewrite: Option<Rewrite>)
    ensures GoodOutcome(env, lt, ctx, SendLoop(env, ctx, mode, msg, rewrite))
    decreases AttemptsLeft(rewrite)
  {
    var flagged := FlagBounce(ctx, mode.bounceOnError);
    var r := SendOnce(env, ctx, mode, msg, rewrite);
    assert GoodOutcome(env, lt, flagged, r) by {
      CheckSendGood(env, lt, flagged, mode, msg, rewrite);
      var c := CheckSend(env, flagged, mode, msg, rewrite);
      if c.Go? {
        SizeAndFinishGood(env, lt, flagged, mode, c.info, c.layout, c.prices);
      }
    }
    if r.result.Retry? {
      SendLoopGood(env, lt, r.ctx, mode, msg, Some(r.result.rewrite));
    }
    GoodThen(env, lt, ctx, flagged, SendLoop(env, ctx, mode, msg, rewrite));
  }

  // ----- Reserving -----

  ghost predicate SplitOf(split: Split, remaining: Currency) {
    && split.available.tokens + split.reserved.tokens == remaining.tokens
    && (forall k :: Amount(split.available.other, k) + Amount(split.reserved.other, k) == Amount(remaining.other, k))
    && (remaining.IsZero() ==> split.available.IsZero() && split.reserved.IsZero())
  }

  lemma SplitGood(env: Env, mode: ReserveMode, remaining: Currency, amount: Currency)
    ensures var take := TakeFrom(remaining, amount);
            take.Left? ==>
              SplitOf(SplitBalance(env, mode, take.left, amount.(other := Normalize(amount.other))), remaining)
  {
    if remaining.IsZero() && TakeFrom(remaining, amount).Left? {
      forall k ensures Amount(amount.other, k) == 0 {
        assert Amount(remaining.other, k) == 0;
      }
    }
  }

  lemma StoreSplitGood(env: Env, lt: nat, ctx: Ctx, split: Split)
    requires SplitOf(split, ctx.remaining)
    ensures GoodOutcome(env, lt, ctx, StoreSplit(ctx, split))
  {
    var r := StoreSplit(ctx, split);
    var reserved := AddCurrency(ctx.reserved, split.reserved);
    if reserved.Some? {
      RegroupGood(env, lt, ctx, r.ctx);
    }
  }

  lemma ReserveClampedGood(env: Env, lt: nat, ctx: Ctx, mode: ReserveMode, amount: Currency)
    ensures GoodOutcome(env, lt, ctx, ReserveClamped(env, ctx, mode, amount))
  {
    match TakeFrom(ctx.remaining, amount)
    case Short(code) =>
      UntouchedGood(env, lt, ctx, ctx.(resultCode := code));
    case Left(left) =>
      SplitGood(env, mode, ctx.remaining, amount);
      StoreSplitGood(env, lt, ctx, SplitBalance(env, mode, left, amount.(other := Normalize(amount.other))));
  }

  /** Moving money between the remaining and the reserved balance. */
  lemma RegroupGood(env: Env, lt: nat, a: Ctx, b: Ctx)
    requires b == a.(remaining := b.remaining, reserved := b.reserved, specialActions := a.specialActions + 1)
    requires b.remaining.tokens + b.reserved.tokens == a.remaining.tokens + a.reserved.tokens
    requires forall k :: Amount(b.remaining.other, k) + Amount(b.reserved.other, k) ==
                         Amount(a.remaining.other, k) + Amount(a.reserved.other, k)
    requires !env.cfg.strictExtra && a.remaining.IsZero() && a.reserved.IsZero() ==>
               b.remaining.IsZero() && b.reserved.IsZero()
    ensures GoodStep(env, lt, a, b) && Counted(b) == Counted(a) + 1
  {
    forall k ensures ExtraHeld(a, k) == ExtraHeld(b, k) {
    }
  }

  lemma DoReserveGood(env: Env, lt: nat, ctx: Ctx, mode: ReserveMode, value: Currency)
    ensures GoodOutcome(env, lt, ctx, DoReserve(env, ctx, mode, value))
  {
    var flagged := FlagBounce(ctx, mode.bounceOnError);
    var amount := ReserveAmount(env, mode, value);
    if amount.Some? {
      var clamped := if mode.ignoreError then Clamp(amount.value, flagged.remaining) else amount.value;
      ReserveClampedGood(env, lt, flagged, mode, clamped);
      GoodThen(env, lt, ctx, flagged, ReserveClamped(env, flagged, mode, clamped));
    }
  }

  /** Money, messages and time as they were; only other parts of the context differ. */
  ghost predicate Untouched(a: Ctx, b: Ctx) {
    && b.remaining == a.remaining && b.reserved == a.reserved && b.fine == a.fine && b.actionFees == a.actionFees
    && b.outMsgs == a.outMsgs && b.endLt == a.endLt && b.messagesCreated == a.messagesCreated
    && b.deleteAccount == a.deleteAccount && b.msgBalance == a.msgBalance
  }

  lemma LibraryUntouched(env: Env, ctx: Ctx, mode: LibMode, lib: LibRef)
    ensures var r := DoChangeLibrary(env, ctx, mode, lib);
            && Untouched(ctx, r.ctx) && !r.result.Retry?
            && (r.result.Sent? ==> Counted(r.ctx) == Counted(ctx) + 1)
  {
    var flagged := FlagBounce(ctx, mode.bounceOnError);
    assert Untouched(ctx, flagged) && Counted(flagged) == Counted(ctx);
    if (mode.addPrivate || mode.addPublic) && !(mode.addPrivate && mode.addPublic) {
      StoredUntouched(flagged, AddLibrary(env, flagged, mode.addPublic, lib));
    } else {
      StoredUntouched(flagged, Step(WithLibraries(flagged, flagged.newState.libs - {lib.root}), Sent));
    }
  }

  lemma StoredUntouched(ctx: Ctx, r: Step)
    requires r.ctx == if r.result.Sent? then WithLibraries(ctx, r.ctx.newState.libs) else ctx.(resultCode := r.ctx.resultCode)
    ensures Untouched(ctx, r.ctx)
    ensures r.result.Sent? ==> Counted(r.ctx) == Counted(ctx) + 1
  {
  }

  lemma DoChangeLibraryGood(env: Env, lt: nat, ctx: Ctx, mode: LibMode, lib: LibRef)
    ensures GoodOutcome(env, lt, ctx, DoChangeLibrary(env, ctx, mode, lib))
  {
    LibraryUntouched(env, ctx, mode, lib);
    UntouchedOutcome(env, lt, ctx, DoChangeLibrary(env, ctx, mode, lib));
  }

  lemma UntouchedOutcome(env: Env, lt: nat, ctx: Ctx, r: Step)
    requires Untouched(ctx, r.ctx) && (r.result.Sent? ==> Counted(r.ctx) == Counted(ctx) + 1)
    ensures GoodOutcome(env, lt, ctx, r)
  {
  }

  /** Actions that only change the new state or the counters. */
  lemma UntouchedGood(env: Env, lt: nat, a: Ctx, b: Ctx)
    requires b == a.(needBounce := b.needBounce, newState := b.newState, resultCode := b.resultCode,
                     resultArg := b.resultArg, specialActions := b.specialActions)
    ensures GoodStep(env, lt, a, b) && Payable(a, b)
  {
  }

  lemma RunActionGood(env: Env, lt: nat, ctx: Ctx, action: OutAction, idx: nat)
    ensures GoodOutcome(env, lt, ctx, RunAction(env, ctx, action, idx))
    ensures !RunAction(env, ctx, action, idx).result.Retry?
  {
    var start := ctx.(needBounce := false, resultCode := -1, resultArg := Some(idx));
    var r := RunAction(env, ctx, action, idx);
    assert GoodOutcome(env, lt, start, r) by {
      match action
      case SendMsg(mode, msg) => SendLoopGood(env, lt, start, mode, msg, None);
      case SetCode(code) =>
      case ReserveCurrency(mode, value) => DoReserveGood(env, lt, start, mode, value);
      case ChangeLibrary(mode, lib) => DoChangeLibraryGood(env, lt, start, mode, lib);
    }
    GoodThen(env, lt, ctx, start, r);
  }

  // ----- Whole lists -----

  function Parsable(actions: seq<Option<OutAction>>, n: nat): nat
    requires n <= |actions|
  {
    if n == 0 then 0 else Parsable(actions, n - 1) + if actions[n - 1].Some? then 1 else 0
  }

  /** The loop invariant, over any prefix of any action list. */
  ghost predicate LoopInv(env: Env, lt: nat, start: Ctx, r: Step, ran: nat) {
    && !r.result.Retry?
    && (r.result.Sent? ==>
          && Conserves(start, r.ctx)
          && Stamped(lt, r.ctx)
          && (r.ctx.deleteAccount ==> Emptied(env.cfg.strictExtra, r.ctx))
          && MsgShrinks(start.msgBalance, r.ctx.msgBalance)
          && Counted(r.ctx) == Counted(start) + ran)
    && (r.result.Failed? ==> Payable(start, r.ctx))
  }

  lemma LoopInvStep(env: Env, lt: nat, start: Ctx, s: Step, ran: nat, r: Step)
    requires LoopInv(env, lt, start, s, ran) && s.result.Sent?
    requires GoodOutcome(env, lt, s.ctx, r) && !r.result.Retry?
    ensures LoopInv(env, lt, start, r, ran + 1)
  {
  }

  /** Whatever single actions do, if each of them is good then so is any list. */
  lemma {:induction false} RunAllInv(env: Env, lt: nat, act: (Ctx, OutAction, nat) -> Step, start: Ctx,
                                     actions: seq<Option<OutAction>>, n: nat)
    requires forall c, a, i :: GoodOutcome(env, lt, c, act(c, a, i)) && !act(c, a, i).result.Retry?
    requires n <= |actions| && Stamped(lt, start) && !start.deleteAccount
    ensures LoopInv(env, lt, start, RunAll(act, start, actions, n), Parsable(actions, n))
    decreases n
  {
    if n > 0 {
      RunAllInv(env, lt, act, start, actions, n - 1);
      var s := RunAll(act, start, actions, n - 1);
      if s.result.Sent? && actions[n - 1].Some? {
        LoopInvStep(env, lt, start, s, Parsable(actions, n - 1), act(s.ctx, actions[n - 1].value, n - 1));
      }
    }
  }

  lemma RunActionsInv(env: Env, lt: nat, start: Ctx, actions: seq<Option<OutAction>>)
    requires Stamped(lt, start) && !start.deleteAccount
    ensures LoopInv(env, lt, start, RunActions(env, start, actions), Parsable(actions, |actions|))
  {
    forall c, a, i ensures GoodOutcome(env, lt, c, Runner(env)(c, a, i)) && !Runner(env)(c, a, i).result.Retry? {
      RunActionGood(env, lt, c, a, i);
    }
    RunAllInv(env, lt, Runner(env), start, actions, |actions|);
  }

  lemma {:induction false} ParsablePrefix(a: seq<Option<OutAction>>, b: seq<Option<OutAction>>, n: nat)
    requires n <= |a|
    ensures Parsable(a + b, n) == Parsable(a, n)
    decreases n
  {
    if n > 0 {
      ParsablePrefix(a, b, n - 1);
    }
  }

  /** A plan has one entry per stored action and skips exactly the unparsable ones. */
  lemma {:induction false} MakePlanCounts(items: seq<RawAction>)
    ensures var p := MakePlan(items);
            p.Plan? ==> |p.actions| == |items| && Parsable(p.actions, |p.actions|) + p.skipped == |items|
  {
    if items != [] {
      var n := |items| - 1;
      MakePlanCounts(items[..n]);
      var p := MakePlan(items[..n]);
      if p.Plan? {
        ParsablePrefix(p.actions, [None], n);
        if items[n].Parsed? {
          ParsablePrefix(p.actions, [Some(items[n].action)], n);
        }
      }
    }
  }

  /** An accepted list holds at most 255 actions. */
  lemma {:induction false} UnpackBounded(c: Chain, idx: nat)
    requires idx <= MAX_ACTIONS
    ensures Unpack(c, idx).Items? ==> idx + |Unpack(c, idx).items| <= MAX_ACTIONS
  {
    if c.Link? && idx + 1 <= MAX_ACTIONS {
      UnpackBounded(c.prev, idx + 1);
    }
  }

  // ----- The whole phase -----

  ghost predicate Balanced(ex: Exec, o: Exec) {
    && o.balance.tokens + o.totalFees + NativeSum(o.outMsgs) == ex.balance.tokens + ex.totalFees
    && (forall k :: Amount(o.balance.other, k) + ExtraSum(o.outMsgs, k) == Amount(ex.balance.other, k))
    && Consecutive(o.outMsgs, ex.endLt)
    && o.endLt == ex.endLt + |o.outMsgs|
    && o == ex.(balance := o.balance, totalFees := o.totalFees, outMsgs := o.outMsgs, endLt := o.endLt,
                state := o.state, endStatus := o.endStatus)
  }

  /** A failed phase moves the fine from the balance to the fees and nothing else. */
  ghost predicate Atomic(ex: Exec, o: PhaseOut) {
    && o.fine <= ex.balance.tokens
    && o.exec == ex.(balance := ex.balance.(tokens := ex.balance.tokens - o.fine), totalFees := ex.totalFees + o.fine)
  }

  ghost predicate Completed(env: Env, o: PhaseOut) {
    && !o.bounce && !o.stateExceeds
    && o.phase.valid && o.phase.resultCode == 0
    && o.phase.messagesCreated == |o.exec.outMsgs|
    && o.phase.messagesCreated + o.phase.specialActions + o.phase.skippedActions == o.phase.totalActions <= MAX_ACTIONS
    && (o.phase.deleted ==>
          && o.exec.balance.tokens == 0
          && (!env.cfg.strictExtra ==> o.exec.balance.IsZero())
          && o.exec.endStatus == (if o.exec.balance.IsZero() then StNotExists else StUninit))
  }

  ghost predicate PhaseSound(env: Env, ex: Exec, msg: Option<Currency>, o: PhaseOut) {
    && Balanced(ex, o.exec)
    && MsgShrinks(msg, o.msgBalance)
    && (if o.phase.success then Completed(env, o) else Atomic(ex, o))
  }

  ghost predicate Bounded(c: Currency) {
    c.tokens <= MAX_TOKENS && forall k :: Amount(c.other, k) <= MAX_EXTRA
  }

  lemma ApplyFineSound(env: Env, ex: Exec, msg: Option<Currency>, ctx: Ctx, phase: ActionPhase, exceeds: bool)
    requires ex.outMsgs == [] && !phase.success
    requires ctx.fine + OrZero(ctx.actionFees) <= ex.balance.tokens && MsgShrinks(msg, ctx.msgBalance)
    ensures var r := ApplyFine(env, ex, ctx, phase, exceeds);
            && (r.Ok? ==> PhaseSound(env, ex, msg, r.value) && !r.value.phase.success)
            && (r.Err? ==> r.error == Overflow)
            && (ex.balance.tokens + ex.totalFees <= MAX_TOKENS ==> r.Ok?)
  {
  }

  lemma CompleteSound(env: Env, ex: Exec, msg: Option<Currency>, skipped: nat, newState: StateInit, ctx: Ctx, total: nat)
    requires skipped <= total <= MAX_ACTIONS
    requires LoopInv(env, ex.endLt, StartCtx(ex, msg, newState, skipped), Step(ctx, Sent), total - skipped)
    ensures var r := CompletePhase(env, ex, ctx, total);
            && (r.Ok? ==> PhaseSound(env, ex, msg, r.value))
            && (r.Err? ==> r.error == Overflow)
            && (ex.balance.tokens + ex.totalFees <= MAX_TOKENS && Bounded(ex.balance) ==> r.Ok?)
  {
    var start := StartCtx(ex, msg, newState, skipped);
    assert Native(start) == ex.balance.tokens;
    forall k ensures Amount(ctx.remaining.other, k) + Amount(ctx.reserved.other, k) + ExtraSum(ctx.outMsgs, k) == Amount(ex.balance.other, k) {
      assert ExtraHeld(start, k) == Amount(ex.balance.other, k);
      assert ExtraHeld(ctx, k) == ExtraHeld(start, k);
    }
  }

  lemma ConcludeSound(env: Env, ex: Exec, msg: Option<Currency>, newState: StateInit, skipped: nat, s: Step, total: nat)
    requires ex.outMsgs == [] && skipped <= total <= MAX_ACTIONS
    requires LoopInv(env, ex.endLt, StartCtx(ex, msg, newState, skipped), s, total - skipped)
    ensures var r := Conclude(env, ex, s, total);
            && (r.Ok? ==> PhaseSound(env, ex, msg, r.value))
            && (r.Err? ==> r.error == Overflow)
            && (ex.balance.tokens + ex.totalFees <= MAX_TOKENS && Bounded(ex.balance) ==> r.Ok?)
  {
    if s.result.Sent? && !NewStateExceeds(env, ex, s.ctx.newState) {
      CompleteSound(env, ex, msg, skipped, newState, s.ctx, total);
    } else {
      var code := FailedCode(s.ctx.resultCode);
      var failed := Report(s.ctx, total).(resultCode := code,
        noFunds := code == NOT_ENOUGH_BALANCE || code == NOT_ENOUGH_EXTRA_BALANCE);
      assert Native(StartCtx(ex, msg, newState, skipped)) == ex.balance.tokens;
      ApplyFineSound(env, ex, msg, s.ctx, failed, false);
      ApplyFineSound(env, ex, msg, s.ctx, Report(s.ctx, total).(resultCode := STATE_OUT_OF_LIMITS), true);
    }
  }

  /** What the end of an action phase may look like. */
  ghost predicate Verdict(env: Env, ex: Exec, msg: Option<Currency>, r: Result<PhaseOut>) {
    && (r.Ok? ==> PhaseSound(env, ex, msg, r.value))
    && (r.Err? ==> r.error == Overflow)
    && (ex.balance.tokens + ex.totalFees <= MAX_TOKENS && Bounded(ex.balance) ==> r.Ok?)
  }

  /** A list that was unpacked and parsed. */
  lemma PlannedSound(env: Env, ex: Exec, msg: Option<Currency>, newState: StateInit, items: seq<RawAction>)
    requires ex.outMsgs == [] && |items| <= MAX_ACTIONS && MakePlan(items).Plan?
    ensures var plan := MakePlan(items);
            var start := StartCtx(ex, msg, newState, plan.skipped);
            Verdict(env, ex, msg, Conclude(env, ex, RunActions(env, start, plan.actions), |items|))
  {
    var plan := MakePlan(items);
    MakePlanCounts(items);
    var start := StartCtx(ex, msg, newState, plan.skipped);
    RunActionsInv(env, ex.endLt, start, plan.actions);
    ConcludeSound(env, ex, msg, newState, plan.skipped, RunActions(env, start, plan.actions), |items|);
  }

  /** A list that was refused changes nothing. */
  lemma RefusedSound(env: Env, ex: Exec, msg: Option<Currency>, phase: ActionPhase, bounce: bool)
    requires ex.outMsgs == [] && !phase.success
    ensures Verdict(env, ex, msg, Ok(PhaseOut(ex, phase, 0, false, bounce, msg)))
  {
  }

  /** Every action phase, on every list of actions: the balance equation per
      currency, consecutive logical times, atomic failure, exact counters, an empty
      balance behind a deletion; and the balance never falls short of a charge. */
  lemma ActionPhaseSound(env: Env, ex: Exec, msg: Option<Currency>, newState: StateInit, chain: Chain)
    requires ex.outMsgs == []
    ensures Verdict(env, ex, msg, RunPhase(env, ex, msg, newState, chain))
  {
    var unpacked := Unpack(chain, 0);
    UnpackBounded(chain, 0);
    if unpacked.BadList? {
      RefusedSound(env, ex, msg, BadListPhase(unpacked.code, unpacked.arg, 0, 0), false);
    } else {
      var total := |unpacked.items|;
      var plan := MakePlan(unpacked.items);
      if plan.BadPlan? {
        RefusedSound(env, ex, msg, BadListPhase(ACTION_INVALID, plan.arg, total, plan.skipped), plan.bounce);
      } else {
        PlannedSound(env, ex, msg, newState, unpacked.items);
      }
    }
  }
}
