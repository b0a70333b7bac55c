/** What a message that was really sent looks like to its receiver. */
module SendMeaning {
  import opened Util
  import opened Money
  import opened Cells
  import opened CellStat
  import opened Messages
  import opened ExecutorTypes
  import opened ActionSpec

  /** Tokens the flags put into the message before the forwarding fee. */
  function AttachedTokens(env: Env, ctx: Ctx, mode: SendMode, asked: nat): int {
    if mode.allBalance then ctx.remaining.tokens
    else asked + if !mode.withRemaining then 0
                 else MsgTokens(ctx) - if mode.paySeparately then 0 else ctx.fine + env.gasFees
  }

  function MsgExtra(ctx: Ctx, k: nat): nat {
    if ctx.msgBalance.Some? then Amount(ctx.msgBalance.value.other, k) else 0
  }

  /** How much of an extra currency the flags put into the message: in strict mode what
      was asked for, otherwise possibly the whole balance or the inbound rest as well. */
  function AttachedExtra(env: Env, ctx: Ctx, mode: SendMode, asked: Extra, k: nat): nat {
    if env.cfg.strictExtra then Amount(asked, k)
    else if mode.allBalance then Amount(ctx.remaining.other, k)
    else Amount(asked, k) + if mode.withRemaining then MsgExtra(ctx, k) else 0
  }

  /** Every extra currency reaches the receiver as attached and leaves the balance. */
  ghost predicate ExtraPaidAs(env: Env, ctx: Ctx, mode: SendMode, asked: Extra, sent: Extra, left: Extra) {
    forall k ::
      && Amount(sent, k) == AttachedExtra(env, ctx, mode, asked, k)
      && Amount(left, k) + Amount(sent, k) == Amount(ctx.remaining.other, k)
  }

  /** What a message took of the inbound value cannot be taken or bounced again. */
  ghost predicate InboundUsed(env: Env, ctx: Ctx, mode: SendMode, after: Ctx) {
    if mode.allBalance || mode.withRemaining then
      MsgTokens(after) == 0 && forall k :: MsgExtra(after, k) == if env.cfg.strictExtra then MsgExtra(ctx, k) else 0
    else after.msgBalance == ctx.msgBalance
  }

  /** The account is to be deleted if everything is sent away with that flag and nothing
      has been reserved; in strict mode reserved extra currencies do not count. */
  function Deletes(env: Env, ctx: Ctx, mode: SendMode): bool {
    if mode.allBalance && mode.deleteIfEmpty then
      ctx.reserved.tokens == 0 && (env.cfg.strictExtra || ctx.reserved.other == map[])
    else ctx.deleteAccount
  }

  /** What the phase has to report about a message: the fee, the shard's part of it, and
      whether the account is to be deleted. */
  ghost predicate BookedAs(env: Env, ctx: Ctx, mode: SendMode, fee: nat, kept: nat, after: Ctx) {
    && OrZero(after.fwdFees) == OrZero(ctx.fwdFees) + fee
    && OrZero(after.actionFees) == OrZero(ctx.actionFees) + kept
    && after.deleteAccount == Deletes(env, ctx, mode)
  }

  /** The receiver gets the attached tokens, less the fee unless it is paid apart;
      the fee that travels with the message is what the shard does not keep; the
      account loses exactly the value and the whole fee. */
  ghost predicate PaidAs(env: Env, ctx: Ctx, mode: SendMode, asked: Currency, prices: FwdPrices, fee: nat, after: Ctx) {
    && after.outMsgs != [] && after.outMsgs[..|after.outMsgs| - 1] == ctx.outMsgs
    && var m := after.outMsgs[|after.outMsgs| - 1];
    && m.createdLt == ctx.endLt
    && (m.IntMsg? ==>
          && m.value.tokens == AttachedTokens(env, ctx, mode, asked.tokens) - (if mode.paySeparately && !mode.allBalance then 0 else fee)
          && m.fwdFee == fee - FirstPart(prices, fee)
          && after.remaining.tokens == ctx.remaining.tokens - m.value.tokens - fee
          && ExtraPaidAs(env, ctx, mode, asked.other, m.value.other, after.remaining.other)
          && InboundUsed(env, ctx, mode, after)
          && BookedAs(env, ctx, mode, fee, FirstPart(prices, fee), after))
    && (m.ExtMsg? ==>
          && BookedAs(env, ctx, mode, fee, fee, after)
          && after.remaining.tokens == ctx.remaining.tokens - fee
          && after.remaining.other == ctx.remaining.other && after.msgBalance == ctx.msgBalance)
  }

  ghost predicate Carries(p: Parsed, after: Ctx) {
    && after.outMsgs != []
    && var m := after.outMsgs[|after.outMsgs| - 1];
    && (m.IntMsg? <==> p.info.RelaxedInt?) && (m.ExtMsg? <==> p.info.RelaxedExtOut?)
    && WfInit(m.init) && InitContent(m.init) == InitContent(p.init)
    && WfBody(m.body) && BodyContent(m.body) == BodyContent(p.body)
  }

  lemma AttachMeaning(env: Env, ctx: Ctx, value: Currency, mode: SendMode)
    ensures var v := AttachValue(env, ctx, value, mode);
            v.Some? ==>
              && v.value.tokens == AttachedTokens(env, ctx, mode, value.tokens)
              && forall k :: Amount(v.value.other, k) == AttachedExtra(env, ctx, mode, value.other, k)
  {
  }

  lemma FinishIntMeaning(env: Env, ctx: Ctx, mode: SendMode, value: Currency, s: Sized)
    requires var r := FinishInt(env, ctx, mode, value, s);
             r.result.Sent? && r.ctx.messagesCreated > ctx.messagesCreated
    ensures var r := FinishInt(env, ctx, mode, value, s);
            && PaidAs(env, ctx, mode, value, s.prices, s.fwdFee, r.ctx)
            && r.ctx.outMsgs[|ctx.outMsgs|].IntMsg?
            && r.ctx.outMsgs[|ctx.outMsgs|].init == s.layout.init && r.ctx.outMsgs[|ctx.outMsgs|].body == s.layout.body
            && (env.cfg.strictExtra ==> r.ctx.outMsgs[|ctx.outMsgs|].value.other == value.other)
  {
    AttachMeaning(env, ctx, value, mode);
    var rewritten := RewriteValue(env, ctx, value, mode, s.fwdFee);
    DeliverMeaning(env, ctx, mode, rewritten.value.0, rewritten.value.1, s);
  }

  lemma DeliverMeaning(env: Env, ctx: Ctx, mode: SendMode, v: Currency, pay: nat, s: Sized)
    requires var r := Deliver(env, ctx, mode, v, pay, s);
             r.result.Sent? && r.ctx.messagesCreated > ctx.messagesCreated
    ensures var r := Deliver(env, ctx, mode, v, pay, s);
            && |r.ctx.outMsgs| == |ctx.outMsgs| + 1 && r.ctx.outMsgs[..|ctx.outMsgs|] == ctx.outMsgs
            && r.ctx.outMsgs[|ctx.outMsgs|] ==
               IntMsg(v, s.fwdFee - FirstPart(s.prices, s.fwdFee), ctx.endLt, s.layout.init, s.layout.body)
            && r.ctx.remaining.tokens == ctx.remaining.tokens - pay
            && (forall k :: Amount(r.ctx.remaining.other, k) + Amount(v.other, k) == Amount(ctx.remaining.other, k))
            && InboundUsed(env, ctx, mode, r.ctx)
            && BookedAs(env, ctx, mode, s.fwdFee, FirstPart(s.prices, s.fwdFee), r.ctx)
  {
    DeliverPushes(env, ctx, mode, v, pay, s);
  }

  /** A delivery that created a message went through to the end. */
  lemma DeliverPushes(env: Env, ctx: Ctx, mode: SendMode, v: Currency, pay: nat, s: Sized)
    requires var r := Deliver(env, ctx, mode, v, pay, s);
             r.result.Sent? && r.ctx.messagesCreated > ctx.messagesCreated
    ensures pay <= ctx.remaining.tokens && SubExtra(ctx.remaining.other, v.other).Some?
    ensures var collected := FirstPart(s.prices, s.fwdFee);
            var m := IntMsg(v, s.fwdFee - collected, ctx.endLt, s.layout.init, s.layout.body);
            var left := Currency(ctx.remaining.tokens - pay, SubExtra(ctx.remaining.other, v.other).value);
            Deliver(env, ctx, mode, v, pay, s).ctx == Push(env, ctx, mode, m, left, collected, s.fwdFee)
  {
  }

  /** The cells a message is charged for: those below its state init and its body, and,
      unless in strict mode, those of the extra currencies it asks for. */
  lemma MessageCells(env: Env, info: RelaxedInfo, layout: Layout, x: Cell)
    ensures x in ReachAll(MsgRoots(env, info, layout)) <==>
            || x in ReachAll(layout.init.refs) || x in ReachAll(layout.body.refs)
            || (!env.cfg.strictExtra && info.RelaxedInt? && env.cfg.dictRoot(info.value.other).Some?
                && x in Reach(env.cfg.dictRoot(info.value.other).value))
  {
    ReachAllMember(MsgRoots(env, info, layout), x);
    ReachAllMember(layout.init.refs, x);
    ReachAllMember(layout.body.refs, x);
  }

  /** The fee counts each distinct cell below the message root once. */
  ghost function CountedFee(env: Env, prices: FwdPrices, roots: seq<Cell>): nat {
    if env.special then 0 else FwdFee(prices, BitSum(ReachAll(roots)), |ReachAll(roots)|)
  }

  /** A message of this kind and layout was sent and paid for. */
  ghost predicate SizedAs(env: Env, ctx: Ctx, mode: SendMode, info: RelaxedInfo, layout: Layout, prices: FwdPrices, after: Ctx) {
    && PaidAs(env, ctx, mode, Asked(info), prices, CountedFee(env, prices, MsgRoots(env, info, layout)), after)
    && var m := after.outMsgs[|after.outMsgs| - 1];
    && (m.IntMsg? <==> info.RelaxedInt?) && (m.ExtMsg? <==> info.RelaxedExtOut?)
    && m.init == layout.init && m.body == layout.body
    && (env.cfg.strictExtra && info.RelaxedInt? ==> m.value.other == info.value.other)
  }

  function Finish(env: Env, ctx: Ctx, mode: SendMode, info: RelaxedInfo, s: Sized): Step {
    if info.RelaxedInt? then FinishInt(env, ctx, mode, info.value, s) else FinishExt(env, ctx, mode, s)
  }

  /** A message that was made was counted and priced. */
  lemma CountedFirst(env: Env, ctx: Ctx, mode: SendMode, info: RelaxedInfo, layout: Layout, prices: FwdPrices)
    requires var r := SizeAndFinish(env, ctx, mode, info, layout, prices);
             r.result.Sent? && r.ctx.messagesCreated > ctx.messagesCreated
    ensures exists s: Sized :: SizeAndFinish(env, ctx, mode, info, layout, prices) == Finish(env, ctx, mode, info, s)
                               && s.layout == layout && s.prices == prices
                               && s.fwdFee == CountedFee(env, prices, MsgRoots(env, info, layout))
  {
    var perCell := FinePerCell(env, prices);
    var funds := if env.special then Some(ctx.remaining.tokens) else FineFunds(env, ctx, mode, info);
    var fine := Fine(perCell, MaxCells(env, perCell, funds.value));
    var lim := Limits(env.cfg.maxMsgBits, fine.maxCells);
    FreshCounterIsExact(lim, MsgRoots(env, info, layout));
    var visit := VisitAll(FRESH, lim, MsgRoots(env, info, layout), 0);
    var fwdFee := if env.special then 0 else FwdFee(prices, visit.0.bits, visit.0.cells);
    var s := Sized(layout, prices, fine, visit.0.cells, fwdFee);
    assert SizeAndFinish(env, ctx, mode, info, layout, prices) == Finish(env, ctx, mode, info, s);
  }

  lemma SizedMeaning(env: Env, ctx: Ctx, mode: SendMode, info: RelaxedInfo, layout: Layout, prices: FwdPrices)
    requires var r := SizeAndFinish(env, ctx, mode, info, layout, prices);
             r.result.Sent? && r.ctx.messagesCreated > ctx.messagesCreated
    ensures SizedAs(env, ctx, mode, info, layout, prices, SizeAndFinish(env, ctx, mode, info, layout, prices).ctx)
  {
    CountedFirst(env, ctx, mode, info, layout, prices);
    var s: Sized :| SizeAndFinish(env, ctx, mode, info, layout, prices) == Finish(env, ctx, mode, info, s)
                    && s.layout == layout && s.prices == prices
                    && s.fwdFee == CountedFee(env, prices, MsgRoots(env, info, layout));
    FinishMeaning(env, ctx, mode, info, s);
  }

  lemma FinishMeaning(env: Env, ctx: Ctx, mode: SendMode, info: RelaxedInfo, s: Sized)
    requires s.fwdFee == CountedFee(env, s.prices, MsgRoots(env, info, s.layout))
    requires var r := Finish(env, ctx, mode, info, s);
             r.result.Sent? && r.ctx.messagesCreated > ctx.messagesCreated
    ensures SizedAs(env, ctx, mode, info, s.layout, s.prices, Finish(env, ctx, mode, info, s).ctx)
  {
    if info.RelaxedInt? {
      FinishIntMeaning(env, ctx, mode, info.value, s);
    } else {
      FinishExtMeaning(env, ctx, mode, s);
    }
  }

  lemma FinishExtMeaning(env: Env, ctx: Ctx, mode: SendMode, s: Sized)
    requires var r := FinishExt(env, ctx, mode, s);
             r.result.Sent? && r.ctx.messagesCreated > ctx.messagesCreated
    ensures var r := FinishExt(env, ctx, mode, s);
            && PaidAs(env, ctx, mode, ZERO, s.prices, s.fwdFee, r.ctx)
            && r.ctx.outMsgs[|ctx.outMsgs|] == ExtMsg(ctx.endLt, s.layout.init, s.layout.body)
  {
  }

  /** From and to the masterchain its prices apply. */
  function PricesFor(env: Env, info: RelaxedInfo): FwdPrices {
    if env.masterchain || (info.RelaxedInt? && info.dstMasterchain) then env.cfg.mcFwdPrices else env.cfg.fwdPrices
  }

  function Asked(info: RelaxedInfo): Currency {
    if info.RelaxedInt? then info.value else ZERO
  }

  /** The message was sent in the layout that rewrite `w` gives it, priced for that
      layout; in strict mode it names no empty amounts. */
  ghost predicate SentAs(env: Env, ctx: Ctx, mode: SendMode, p: Parsed, w: Option<Rewrite>, after: Ctx) {
    && PaidAs(env, ctx, mode, Asked(p.info), PricesFor(env, p.info),
              CountedFee(env, PricesFor(env, p.info), MsgRoots(env, p.info, ApplyRewrite(p, w))), after)
    && var m := after.outMsgs[|after.outMsgs| - 1];
    && !m.BouncedMsg? && m.init == ApplyRewrite(p, w).init && m.body == ApplyRewrite(p, w).body
    && (env.cfg.strictExtra && p.info.RelaxedInt? && m.IntMsg? ==> m.value.other == Normalize(p.info.value.other))
  }

  function Requested(env: Env, asked: Currency): Currency {
    if env.cfg.strictExtra then asked.(other := Normalize(asked.other)) else asked
  }

  /** Removing empty amounts changes no amount. */
  lemma SamePayment(env: Env, ctx: Ctx, mode: SendMode, asked: Currency, prices: FwdPrices, fee: nat, after: Ctx)
    requires PaidAs(env, ctx, mode, Requested(env, asked), prices, fee, after)
    ensures PaidAs(env, ctx, mode, asked, prices, fee, after)
  {
  }

  lemma CheckMeaning(env: Env, ctx: Ctx, mode: SendMode, msg: RelaxedMsg, w: Option<Rewrite>)
    requires msg.WellFormed?
    ensures var c := CheckSend(env, ctx, mode, msg, w);
            && (c.Stop? ==> c.step.ctx.messagesCreated == ctx.messagesCreated)
            && (c.Go? ==> && c.layout == ApplyRewrite(msg.parsed, w)
                          && c.prices == PricesFor(env, msg.parsed.info)
                          && Asked(c.info) == Requested(env, Asked(msg.parsed.info))
                          && (c.info.RelaxedInt? <==> msg.parsed.info.RelaxedInt?)
                          && MsgRoots(env, c.info, c.layout) == MsgRoots(env, msg.parsed.info, c.layout))
  {
  }

  lemma FlagIsNoMoney(env: Env, ctx: Ctx, mode: SendMode, p: Parsed, w: Option<Rewrite>, after: Ctx)
    requires SentAs(env, FlagBounce(ctx, mode.bounceOnError), mode, p, w, after)
    ensures SentAs(env, ctx, mode, p, w, after)
  {
  }

  lemma SendOnceMeaning(env: Env, ctx: Ctx, mode: SendMode, msg: RelaxedMsg, w: Option<Rewrite>)
    requires msg.WellFormed?
    requires var r := SendOnce(env, ctx, mode, msg, w);
             r.result.Sent? && r.ctx.messagesCreated > ctx.messagesCreated
    ensures var r := SendOnce(env, ctx, mode, msg, w);
            Carries(msg.parsed, r.ctx) && SentAs(env, ctx, mode, msg.parsed, w, r.ctx)
  {
    var r := SendOnce(env, ctx, mode, msg, w);
    var flagged := FlagBounce(ctx, mode.bounceOnError);
    CheckMeaning(env, flagged, mode, msg, w);
    var c := CheckSend(env, flagged, mode, msg, w);
    SizedMeaning(env, flagged, mode, c.info, c.layout, c.prices);
    FromSized(env, flagged, mode, msg.parsed, w, c.info, r.ctx);
    FlagIsNoMoney(env, ctx, mode, msg.parsed, w, r.ctx);
  }

  /** From what was checked back to what was asked for. */
  lemma FromSized(env: Env, ctx: Ctx, mode: SendMode, p: Parsed, w: Option<Rewrite>, info: RelaxedInfo, after: Ctx)
    requires SizedAs(env, ctx, mode, info, ApplyRewrite(p, w), PricesFor(env, p.info), after)
    requires Asked(info) == Requested(env, Asked(p.info)) && (info.RelaxedInt? <==> p.info.RelaxedInt?)
    requires MsgRoots(env, info, ApplyRewrite(p, w)) == MsgRoots(env, p.info, ApplyRewrite(p, w))
    ensures Carries(p, after) && SentAs(env, ctx, mode, p, w, after)
  {
    var prices := PricesFor(env, p.info);
    SamePayment(env, ctx, mode, Asked(p.info), prices, CountedFee(env, prices, MsgRoots(env, p.info, ApplyRewrite(p, w))), after);
    RewritePreservesContent(p, w);
  }

  /** The message carries what was asked for and is paid for in one of the layouts. */
  ghost predicate Delivered(env: Env, ctx: Ctx, mode: SendMode, p: Parsed, after: Ctx) {
    Carries(p, after) && exists used :: SentAs(env, ctx, mode, p, used, after)
  }

  lemma FlagIsNoDelivery(env: Env, ctx: Ctx, mode: SendMode, p: Parsed, after: Ctx)
    requires Delivered(env, FlagBounce(ctx, mode.bounceOnError), mode, p, after)
    ensures Delivered(env, ctx, mode, p, after)
  {
    var used :| SentAs(env, FlagBounce(ctx, mode.bounceOnError), mode, p, used, after);
    FlagIsNoMoney(env, ctx, mode, p, used, after);
  }

  /** Whichever of the three attempts succeeded: the receiver reads the requested
      state init and body, and is paid what the flags say, with a fee for the
      distinct cells of the layout that fitted. */
  lemma {:induction false} SentMessageMeaning(env: Env, ctx: Ctx, mode: SendMode, msg: RelaxedMsg, w: Option<Rewrite>)
    requires msg.WellFormed?
    requires var r := SendLoop(env, ctx, mode, msg, w);
             r.result.Sent? && r.ctx.messagesCreated > ctx.messagesCreated
    ensures Delivered(env, ctx, mode, msg.parsed, SendLoop(env, ctx, mode, msg, w).ctx)
    decreases AttemptsLeft(w)
  {
    var once := SendOnce(env, ctx, mode, msg, w);
    if once.result.Retry? {
      SentMessageMeaning(env, once.ctx, mode, msg, Some(once.result.rewrite));
      FlagIsNoDelivery(env, ctx, mode, msg.parsed, SendLoop(env, ctx, mode, msg, w).ctx);
    } else {
      SendOnceMeaning(env, ctx, mode, msg, w);
    }
  }
}
