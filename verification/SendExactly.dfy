/** Exactly when an attempt to send succeeds, is repeated, skipped or refused, and why. */
module SendExactly {
  import opened Util
  import opened Money
  import opened Cells
  import opened CellStat
  import opened GasPricing
  import opened Messages
  import opened ExecutorTypes
  import opened ActionSpec
  import opened ActionEffects
  import opened SendMeaning

  // ----- Prices -----

  /** A forwarding fee is the lump price and the least amount that pays for all cells
      and bits. */
  lemma ForwardingPrice(p: FwdPrices, bits: nat, cells: nat)
    ensures var part := FwdFee(p, bits, cells) - p.lumpPrice;
            var cost := p.cellPrice * cells + p.bitPrice * bits;
            part >= 0 && cost <= part * 65536 && (part > 0 ==> (part - 1) * 65536 < cost)
  {
  }

  /** The shard keeps the largest amount within its share. */
  lemma ShardShare(p: FwdPrices, fee: nat)
    ensures var part := FirstPart(p, fee);
            part * 65536 <= fee * p.firstFrac < (part + 1) * 65536
  {
  }

  /** An ordinary account is fined a quarter of the price of a cell for each cell. */
  lemma QuarterPrice(env: Env, prices: FwdPrices)
    ensures var fine := FinePerCell(env, prices);
            && (env.special ==> fine == 0)
            && (!env.special ==> 4 * 65536 * fine <= prices.cellPrice < 4 * 65536 * (fine + 1))
  {
  }

  // ----- What may be spent on counting cells -----

  predicate InRange(ctx: Ctx, asked: nat) {
    asked <= MAX_TOKENS && ctx.remaining.tokens <= MAX_TOKENS && FinesFit(ctx)
  }

  /** What a message asks for and what is left of the inbound one make an amount. */
  predicate TokensAdd(ctx: Ctx, mode: SendMode, asked: nat) {
    mode.withRemaining && !mode.allBalance ==> asked + MsgTokens(ctx) <= MAX_TOKENS
  }

  /** A message that pays for its own way may not be counted for more than it carries. */
  predicate PaysItself(env: Env, mode: SendMode, info: RelaxedInfo) {
    !env.special && info.RelaxedInt? && !mode.allBalance && !mode.paySeparately
  }

  function Carried(env: Env, ctx: Ctx, mode: SendMode, info: RelaxedInfo): int {
    AttachedTokens(env, ctx, mode, Asked(info).tokens)
  }

  predicate HasFunds(env: Env, ctx: Ctx, mode: SendMode, info: RelaxedInfo) {
    PaysItself(env, mode, info) ==> TokensAdd(ctx, mode, Asked(info).tokens) && Carried(env, ctx, mode, info) >= 0
  }

  function Funds(env: Env, ctx: Ctx, mode: SendMode, info: RelaxedInfo): nat
    requires HasFunds(env, ctx, mode, info)
  {
    if PaysItself(env, mode, info) then Min(ctx.remaining.tokens, Carried(env, ctx, mode, info)) else ctx.remaining.tokens
  }

  lemma FundsMeaning(env: Env, ctx: Ctx, mode: SendMode, info: RelaxedInfo)
    requires InRange(ctx, Asked(info).tokens) && !(mode.allBalance && mode.withRemaining)
    ensures var f := if env.special then Some(ctx.remaining.tokens) else FineFunds(env, ctx, mode, info);
            (f.Some? <==> HasFunds(env, ctx, mode, info)) && (f.Some? ==> f.value == Funds(env, ctx, mode, info))
  {
  }

  /** The distinct cells are within the limits, and the fine for all of them could be paid. */
  ghost predicate Countable(env: Env, prices: FwdPrices, funds: nat, roots: seq<Cell>) {
    var reach := ReachAll(roots);
    && Fits(reach, Limits(env.cfg.maxMsgBits, env.cfg.maxMsgCells)) && Shallow(reach)
    && FinePerCell(env, prices) * |reach| <= funds
  }

  lemma CountableIff(env: Env, prices: FwdPrices, funds: nat, roots: seq<Cell>)
    ensures var perCell := FinePerCell(env, prices);
            var visit := VisitAll(FRESH, Limits(env.cfg.maxMsgBits, MaxCells(env, perCell, funds)), roots, 0);
            && (visit.1.Some? <==> Countable(env, prices, funds, roots))
            && (visit.1.Some? ==> visit.0.cells == |ReachAll(roots)| <= MaxCells(env, perCell, funds)
                                  && visit.0.bits == BitSum(ReachAll(roots)))
  {
    var perCell := FinePerCell(env, prices);
    var most := MaxCells(env, perCell, funds);
    var n := |ReachAll(roots)|;
    FreshCounterIsExact(Limits(env.cfg.maxMsgBits, most), roots);
    CellBudget(env, perCell, funds);
    if n <= most {
      MulMonotone(perCell, n, most);
    } else if most < env.cfg.maxMsgCells {
      MulMonotone(perCell, most + 1, n);
    }
  }

  // ----- What the message costs -----

  /** In strict mode extra currencies do not come along with the inbound value. */
  ghost predicate ExtraAdds(env: Env, ctx: Ctx, mode: SendMode, asked: Extra) {
    mode.withRemaining && !mode.allBalance && !env.cfg.strictExtra && ctx.msgBalance.Some? ==>
      forall k :: k in ctx.msgBalance.value.other ==> Amount(asked, k) + ctx.msgBalance.value.other[k] <= MAX_EXTRA
  }

  predicate PaidApart(mode: SendMode) {
    mode.paySeparately && !mode.allBalance
  }

  /** What is left of the attached tokens when the fee is paid, and what leaves the
      account. */
  predicate TokensSuffice(env: Env, ctx: Ctx, mode: SendMode, asked: nat, fee: nat) {
    var attached := AttachedTokens(env, ctx, mode, asked);
    && 0 <= attached && (PaidApart(mode) || fee <= attached)
    && attached + (if PaidApart(mode) then fee else 0) <= ctx.remaining.tokens
  }

  ghost predicate ExtraSuffices(env: Env, ctx: Ctx, mode: SendMode, asked: Extra) {
    forall k :: AttachedExtra(env, ctx, mode, asked, k) <= Amount(ctx.remaining.other, k)
  }

  /** The message as it would be handed over. */
  function Built(env: Env, ctx: Ctx, mode: SendMode, value: Currency, layout: Layout, prices: FwdPrices, fee: nat): OutMsg {
    var attached := AttachValue(env, ctx, value, mode);
    var v := if attached.Some? then attached.value else value;
    IntMsg(v.(tokens := if PaidApart(mode) then v.tokens else Max(v.tokens - fee, 0)),
           fee - FirstPart(prices, fee), ctx.endLt, layout.init, layout.body)
  }

  /** Why an internal message whose size and fee are known is not sent; 0 if it is. */
  ghost function Objection(env: Env, ctx: Ctx, mode: SendMode, value: Currency, layout: Layout, prices: FwdPrices, fee: nat): int {
    if !(TokensAdd(ctx, mode, value.tokens) && ExtraAdds(env, ctx, mode, value.other)
         && TokensSuffice(env, ctx, mode, value.tokens, fee)) then NOT_ENOUGH_BALANCE
    else if env.cfg.strictExtra && |value.other| > MAX_MSG_EXTRA_CURRENCIES + 1 then TOO_MANY_EXTRA_CURRENCIES
    else if !ExtraSuffices(env, ctx, mode, value.other) then NOT_ENOUGH_EXTRA_BALANCE
    else if !env.cfg.fits(Built(env, ctx, mode, value, layout, prices, fee)) then FAILED_TO_FIT_MESSAGE
    else 0
  }

  function ExtObjection(env: Env, ctx: Ctx, layout: Layout, fee: nat): int {
    if fee > ctx.remaining.tokens then NOT_ENOUGH_BALANCE
    else if !env.cfg.fits(ExtMsg(ctx.endLt, layout.init, layout.body)) then FAILED_TO_FIT_MESSAGE
    else 0
  }

  // ----- What a refusal does -----

  /** A refused message is fined for `cells` cells at most; it is skipped if the mode
      ignores errors and otherwise fails with its code. */
  ghost predicate RefusedWith(ctx: Ctx, mode: SendMode, code: int, fined: int, r: Step) {
    && 0 <= fined <= ctx.remaining.tokens
    && r.ctx == ctx.(remaining := r.ctx.remaining, fine := ctx.fine + fined,
                     resultCode := r.ctx.resultCode, skippedActions := r.ctx.skippedActions)
    && r.ctx.remaining == ctx.remaining.(tokens := ctx.remaining.tokens - fined)
    && (if mode.ignoreError then r.result.Sent? && r.ctx.skippedActions == ctx.skippedActions + 1 && r.ctx.resultCode == ctx.resultCode
        else r.result.Failed? && r.ctx.skippedActions == ctx.skippedActions && r.ctx.resultCode == code)
  }

  /** How an attempt ends for a message to which `code` is the objection: a message that
      does not fit is laid out anew as long as there is another layout. */
  ghost predicate EndsFor(ctx: Ctx, mode: SendMode, code: int, fined: int, next: Option<Rewrite>, r: Step) {
    if code == 0 then r.result.Sent? && r.ctx.messagesCreated == ctx.messagesCreated + 1
    else if code == FAILED_TO_FIT_MESSAGE && next.Some? then r == Step(ctx, Retry(next.value))
    else RefusedWith(ctx, mode, code, fined, r)
  }

  lemma SkipExactly(ctx: Ctx, mode: SendMode, fine: Fine, cells: nat, code: int)
    requires FinesFit(ctx)
    ensures RefusedWith(ctx, mode, code, FineAmount(fine, cells, ctx.remaining.tokens), SkipFined(ctx, mode, fine, cells, code))
  {
  }

  /** A counted message is fined for its cells. */
  function FineFor(ctx: Ctx, s: Sized): nat {
    FineAmount(s.fine, s.cells, ctx.remaining.tokens)
  }

  lemma RefitExactly(ctx: Ctx, mode: SendMode, s: Sized)
    requires FinesFit(ctx)
    ensures EndsFor(ctx, mode, FAILED_TO_FIT_MESSAGE, FineFor(ctx, s), NextRewrite(s.layout.rewrite), Refit(ctx, mode, s))
  {
    SkipExactly(ctx, mode, s.fine, s.cells, FAILED_TO_FIT_MESSAGE);
  }

  lemma AttachIff(env: Env, ctx: Ctx, value: Currency, mode: SendMode)
    requires InRange(ctx, value.tokens) && !(mode.allBalance && mode.withRemaining)
    ensures AttachValue(env, ctx, value, mode).Some? <==>
            && TokensAdd(ctx, mode, value.tokens) && ExtraAdds(env, ctx, mode, value.other)
            && AttachedTokens(env, ctx, mode, value.tokens) >= 0
  {
  }

  lemma SameObjection(env: Env, ctx: Ctx, mode: SendMode, value: Currency, s: Sized)
    requires InRange(ctx, value.tokens) && !(mode.allBalance && mode.withRemaining)
    ensures var rewritten := RewriteValue(env, ctx, value, mode, s.fwdFee);
            Objection(env, ctx, mode, value, s.layout, s.prices, s.fwdFee) ==
            if rewritten.None? then NOT_ENOUGH_BALANCE
            else DeliverObjection(env, ctx, rewritten.value.0, rewritten.value.1, s)
  {
    AttachIff(env, ctx, value, mode);
    AttachMeaning(env, ctx, value, mode);
    var rewritten := RewriteValue(env, ctx, value, mode, s.fwdFee);
    if rewritten.Some? {
      SameExtra(env, ctx, mode, value, s);
    }
  }

  lemma SameExtra(env: Env, ctx: Ctx, mode: SendMode, value: Currency, s: Sized)
    requires RewriteValue(env, ctx, value, mode, s.fwdFee).Some?
    ensures var v := RewriteValue(env, ctx, value, mode, s.fwdFee).value.0;
            && (Covers(ctx.remaining.other, v.other) <==> ExtraSuffices(env, ctx, mode, value.other))
            && (env.cfg.strictExtra ==> v.other == value.other)
            && IntMsg(v, s.fwdFee - FirstPart(s.prices, s.fwdFee), ctx.endLt, s.layout.init, s.layout.body) ==
               Built(env, ctx, mode, value, s.layout, s.prices, s.fwdFee)
  {
    AttachMeaning(env, ctx, value, mode);
    var v := RewriteValue(env, ctx, value, mode, s.fwdFee).value.0;
    assert forall k :: Amount(v.other, k) == AttachedExtra(env, ctx, mode, value.other, k);
  }

  lemma FinishExactly(env: Env, ctx: Ctx, mode: SendMode, value: Currency, s: Sized)
    requires InRange(ctx, value.tokens) && !(mode.allBalance && mode.withRemaining)
    ensures EndsFor(ctx, mode, Objection(env, ctx, mode, value, s.layout, s.prices, s.fwdFee), FineFor(ctx, s), NextRewrite(s.layout.rewrite),
                    FinishInt(env, ctx, mode, value, s))
  {
    SameObjection(env, ctx, mode, value, s);
    var rewritten := RewriteValue(env, ctx, value, mode, s.fwdFee);
    if rewritten.Some? {
      DeliverExactly(env, ctx, mode, rewritten.value.0, rewritten.value.1, s);
    } else {
      SkipExactly(ctx, mode, s.fine, s.cells, NOT_ENOUGH_BALANCE);
    }
  }

  /** Why a value cannot be withdrawn and handed over. */
  ghost function DeliverObjection(env: Env, ctx: Ctx, v: Currency, pay: nat, s: Sized): int {
    if ctx.remaining.tokens < pay then NOT_ENOUGH_BALANCE
    else if env.cfg.strictExtra && |v.other| > MAX_MSG_EXTRA_CURRENCIES + 1 then TOO_MANY_EXTRA_CURRENCIES
    else if !Covers(ctx.remaining.other, v.other) then NOT_ENOUGH_EXTRA_BALANCE
    else if !env.cfg.fits(IntMsg(v, s.fwdFee - FirstPart(s.prices, s.fwdFee), ctx.endLt, s.layout.init, s.layout.body)) then FAILED_TO_FIT_MESSAGE
    else 0
  }

  lemma DeliverExactly(env: Env, ctx: Ctx, mode: SendMode, v: Currency, pay: nat, s: Sized)
    requires FinesFit(ctx)
    ensures EndsFor(ctx, mode, DeliverObjection(env, ctx, v, pay, s), FineFor(ctx, s), NextRewrite(s.layout.rewrite),
                    Deliver(env, ctx, mode, v, pay, s))
  {
    SkipExactly(ctx, mode, s.fine, s.cells, NOT_ENOUGH_BALANCE);
    SkipExactly(ctx, mode, s.fine, s.cells, NOT_ENOUGH_EXTRA_BALANCE);
    SkipExactly(ctx, mode, s.fine, s.cells, TOO_MANY_EXTRA_CURRENCIES);
    RefitExactly(ctx, mode, s);
  }

  lemma FinishExtExactly(env: Env, ctx: Ctx, mode: SendMode, s: Sized)
    requires FinesFit(ctx)
    ensures EndsFor(ctx, mode, ExtObjection(env, ctx, s.layout, s.fwdFee), FineFor(ctx, s), NextRewrite(s.layout.rewrite),
                    FinishExt(env, ctx, mode, s))
  {
    SkipExactly(ctx, mode, s.fine, s.cells, NOT_ENOUGH_BALANCE);
    RefitExactly(ctx, mode, s);
  }

  // ----- One attempt -----

  /** Why a message of this kind and layout is not sent; 0 if it is. */
  ghost function WhyRefused(env: Env, ctx: Ctx, mode: SendMode, info: RelaxedInfo, layout: Layout, prices: FwdPrices): int {
    var roots := MsgRoots(env, info, layout);
    if !HasFunds(env, ctx, mode, info) then NOT_ENOUGH_BALANCE
    else if !Countable(env, prices, Funds(env, ctx, mode, info), roots) then MESSAGE_OUT_OF_LIMITS
    else if info.RelaxedInt? then Objection(env, ctx, mode, info.value, layout, prices, CountedFee(env, prices, roots))
    else ExtObjection(env, ctx, layout, CountedFee(env, prices, roots))
  }

  /** The fine of a refused message: for each distinct cell if they could be counted, and
      never more than may be spent on counting. */
  ghost predicate FinedFor(env: Env, ctx: Ctx, mode: SendMode, info: RelaxedInfo, layout: Layout, prices: FwdPrices, fined: int) {
    if !HasFunds(env, ctx, mode, info) then fined == 0
    else
      var funds := Funds(env, ctx, mode, info);
      var roots := MsgRoots(env, info, layout);
      && 0 <= fined <= funds
      && (Countable(env, prices, funds, roots) ==> fined == Min(FinePerCell(env, prices) * |ReachAll(roots)|, U64_MAX))
  }

  /** How an attempt ends, and what it costs if it is refused. */
  ghost predicate AttemptAs(env: Env, ctx: Ctx, mode: SendMode, info: RelaxedInfo, layout: Layout, prices: FwdPrices, r: Step) {
    var code := WhyRefused(env, ctx, mode, info, layout, prices);
    var next := NextRewrite(layout.rewrite);
    && EndsFor(ctx, mode, code, r.ctx.fine - ctx.fine, next, r)
    && (code != 0 && !(code == FAILED_TO_FIT_MESSAGE && next.Some?) ==>
          FinedFor(env, ctx, mode, info, layout, prices, r.ctx.fine - ctx.fine))
  }

  lemma FineIsPaid(env: Env, ctx: Ctx, prices: FwdPrices, funds: nat, cells: nat)
    requires funds <= ctx.remaining.tokens
    ensures var perCell := FinePerCell(env, prices);
            var most := MaxCells(env, perCell, funds);
            var fined := FineAmount(Fine(perCell, most), cells, ctx.remaining.tokens);
            && fined <= funds
            && (cells <= most && perCell * cells <= funds ==> fined == Min(perCell * cells, U64_MAX))
  {
    var perCell := FinePerCell(env, prices);
    var most := MaxCells(env, perCell, funds);
    CellBudget(env, perCell, funds);
    MulMonotone(perCell, Min(most, cells), most);
  }

  lemma SizedExactly(env: Env, ctx: Ctx, mode: SendMode, info: RelaxedInfo, layout: Layout, prices: FwdPrices)
    requires InRange(ctx, Asked(info).tokens) && !(mode.allBalance && mode.withRemaining)
    ensures AttemptAs(env, ctx, mode, info, layout, prices, SizeAndFinish(env, ctx, mode, info, layout, prices))
  {
    FundsMeaning(env, ctx, mode, info);
    if !HasFunds(env, ctx, mode, info) {
      Unfunded(env, ctx, mode, info, layout, prices);
    } else if !Countable(env, prices, Funds(env, ctx, mode, info), MsgRoots(env, info, layout)) {
      Uncounted(env, ctx, mode, info, layout, prices);
    } else {
      Counted(env, ctx, mode, info, layout, prices);
    }
  }

  lemma Unfunded(env: Env, ctx: Ctx, mode: SendMode, info: RelaxedInfo, layout: Layout, prices: FwdPrices)
    requires InRange(ctx, Asked(info).tokens) && !(mode.allBalance && mode.withRemaining)
    requires !HasFunds(env, ctx, mode, info)
    ensures AttemptAs(env, ctx, mode, info, layout, prices, SizeAndFinish(env, ctx, mode, info, layout, prices))
  {
    FundsMeaning(env, ctx, mode, info);
    assert SizeAndFinish(env, ctx, mode, info, layout, prices) == SkipInvalid(ctx, mode, NOT_ENOUGH_BALANCE);
  }

  lemma Uncounted(env: Env, ctx: Ctx, mode: SendMode, info: RelaxedInfo, layout: Layout, prices: FwdPrices)
    requires InRange(ctx, Asked(info).tokens) && !(mode.allBalance && mode.withRemaining)
    requires HasFunds(env, ctx, mode, info)
    requires !Countable(env, prices, Funds(env, ctx, mode, info), MsgRoots(env, info, layout))
    ensures AttemptAs(env, ctx, mode, info, layout, prices, SizeAndFinish(env, ctx, mode, info, layout, prices))
  {
    var funds := Funds(env, ctx, mode, info);
    var perCell := FinePerCell(env, prices);
    var fine := Fine(perCell, MaxCells(env, perCell, funds));
    FundsMeaning(env, ctx, mode, info);
    CountableIff(env, prices, funds, MsgRoots(env, info, layout));
    var visit := VisitAll(FRESH, Limits(env.cfg.maxMsgBits, fine.maxCells), MsgRoots(env, info, layout), 0);
    FineIsPaid(env, ctx, prices, funds, visit.0.cells);
    SkipExactly(ctx, mode, fine, visit.0.cells, MESSAGE_OUT_OF_LIMITS);
    assert SizeAndFinish(env, ctx, mode, info, layout, prices) ==
           SkipFined(ctx, mode, fine, visit.0.cells, MESSAGE_OUT_OF_LIMITS);
  }

  /** A message with what is known once its cells are counted. */
  ghost function SizedFor(env: Env, ctx: Ctx, mode: SendMode, info: RelaxedInfo, layout: Layout, prices: FwdPrices): Sized
    requires HasFunds(env, ctx, mode, info)
  {
    var perCell := FinePerCell(env, prices);
    var roots := MsgRoots(env, info, layout);
    Sized(layout, prices, Fine(perCell, MaxCells(env, perCell, Funds(env, ctx, mode, info))),
          |ReachAll(roots)|, CountedFee(env, prices, roots))
  }

  lemma SizedIs(env: Env, ctx: Ctx, mode: SendMode, info: RelaxedInfo, layout: Layout, prices: FwdPrices)
    requires InRange(ctx, Asked(info).tokens) && !(mode.allBalance && mode.withRemaining)
    requires HasFunds(env, ctx, mode, info)
    requires Countable(env, prices, Funds(env, ctx, mode, info), MsgRoots(env, info, layout))
    ensures var s := SizedFor(env, ctx, mode, info, layout, prices);
            SizeAndFinish(env, ctx, mode, info, layout, prices) ==
            if info.RelaxedInt? then FinishInt(env, ctx, mode, info.value, s) else FinishExt(env, ctx, mode, s)
  {
    FundsMeaning(env, ctx, mode, info);
    CountableIff(env, prices, Funds(env, ctx, mode, info), MsgRoots(env, info, layout));
  }

  lemma Counted(env: Env, ctx: Ctx, mode: SendMode, info: RelaxedInfo, layout: Layout, prices: FwdPrices)
    requires InRange(ctx, Asked(info).tokens) && !(mode.allBalance && mode.withRemaining)
    requires HasFunds(env, ctx, mode, info)
    requires Countable(env, prices, Funds(env, ctx, mode, info), MsgRoots(env, info, layout))
    ensures AttemptAs(env, ctx, mode, info, layout, prices, SizeAndFinish(env, ctx, mode, info, layout, prices))
  {
    var funds := Funds(env, ctx, mode, info);
    var s := SizedFor(env, ctx, mode, info, layout, prices);
    SizedIs(env, ctx, mode, info, layout, prices);
    CountableIff(env, prices, funds, MsgRoots(env, info, layout));
    FineIsPaid(env, ctx, prices, funds, s.cells);
    CountedExactly(env, ctx, mode, info, s);
  }

  lemma CountedExactly(env: Env, ctx: Ctx, mode: SendMode, info: RelaxedInfo, s: Sized)
    requires InRange(ctx, Asked(info).tokens) && !(mode.allBalance && mode.withRemaining)
    ensures var code := if info.RelaxedInt? then Objection(env, ctx, mode, info.value, s.layout, s.prices, s.fwdFee)
                        else ExtObjection(env, ctx, s.layout, s.fwdFee);
            EndsFor(ctx, mode, code, FineFor(ctx, s), NextRewrite(s.layout.rewrite),
                    if info.RelaxedInt? then FinishInt(env, ctx, mode, info.value, s) else FinishExt(env, ctx, mode, s))
  {
    if info.RelaxedInt? {
      FinishExactly(env, ctx, mode, info.value, s);
    } else {
      FinishExtExactly(env, ctx, mode, s);
    }
  }
}
