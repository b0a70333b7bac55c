/** The verdict on a whole send: over all its attempts, whether it makes a message, and
    if not, the reason, the fine, and whether the phase goes on. */
module SendVerdict {
  import opened Util
  import opened Money
  import opened Cells
  import opened CellStat
  import opened Messages
  import opened ExecutorTypes
  import opened ActionSpec
  import opened ActionEffects
  import opened SendMeaning
  import opened SendExactly

  // ----- Layouts -----

  predicate InlineBody(p: Parsed) {
    !p.body.bits[0] && |p.body.bits| > 1
  }

  /** What each layout moves into a cell of its own: the first nothing; the second the
      state init, if it has two references or more, and else the body; the third the
      body. What is not moved stays as it was. */
  lemma LayoutMeaning(p: Parsed, w: Option<Rewrite>)
    ensures var l := ApplyRewrite(p, w);
            var movesInit := w == Some(StateInitToCell) && |p.init.refs| >= 2;
            var movesBody := w.Some? && !movesInit && InlineBody(p);
            && (if movesInit then l.init.bits == [true, true] && |l.init.refs| == 1 else l.init == p.init)
            && (if movesBody then l.body.bits == [true] && |l.body.refs| == 1 else l.body == p.body)
            && (l.rewrite == if w.Some? && !movesInit then Some(BodyToCell) else w)
  {
  }

  /** The layouts come in this order; a layout that moved the body is the last. */
  lemma LayoutOrder(p: Parsed)
    ensures NextRewrite(ApplyRewrite(p, None).rewrite) == Some(StateInitToCell)
    ensures NextRewrite(ApplyRewrite(p, Some(StateInitToCell)).rewrite) ==
            if |p.init.refs| >= 2 then Some(BodyToCell) else None
    ensures NextRewrite(ApplyRewrite(p, Some(BodyToCell)).rewrite) == None
  {
  }

  // ----- One attempt with its checks -----

  /** The message with the value it is taken to ask for. */
  function InfoFor(env: Env, info: RelaxedInfo): RelaxedInfo {
    if info.RelaxedInt? then info.(value := Requested(env, info.value)) else info
  }

  /** In strict mode a message may name three extra currencies at most. */
  predicate NamesTooMany(env: Env, info: RelaxedInfo) {
    info.RelaxedInt? && env.cfg.strictExtra && |info.value.other| > MAX_MSG_EXTRA_CURRENCIES + 1
  }

  /** Why an attempt with layout `w` does not make a message; 0 if it does. */
  ghost function Verdict(env: Env, ctx: Ctx, mode: SendMode, p: Parsed, w: Option<Rewrite>): int {
    if p.info.RelaxedInt? && !p.info.dstOk then INVALID_DST_ADDR
    else if NamesTooMany(env, p.info) then TOO_MANY_EXTRA_CURRENCIES
    else WhyRefused(env, ctx, mode, InfoFor(env, p.info), ApplyRewrite(p, w), PricesFor(env, p.info))
  }

  predicate Uncharged(env: Env, p: Parsed) {
    (p.info.RelaxedInt? && !p.info.dstOk) || NamesTooMany(env, p.info)
  }

  ghost predicate FineRight(env: Env, ctx: Ctx, mode: SendMode, p: Parsed, w: Option<Rewrite>, fined: int) {
    if Uncharged(env, p) then fined == 0
    else FinedFor(env, ctx, mode, InfoFor(env, p.info), ApplyRewrite(p, w), PricesFor(env, p.info), fined)
  }

  /** No message comes of it, and no further attempt. */
  predicate Refusal(code: int, next: Option<Rewrite>) {
    code != 0 && !(code == FAILED_TO_FIT_MESSAGE && next.Some?)
  }

  ghost predicate OnceAs(env: Env, ctx: Ctx, mode: SendMode, p: Parsed, w: Option<Rewrite>, r: Step) {
    var code := Verdict(env, ctx, mode, p, w);
    var next := NextRewrite(ApplyRewrite(p, w).rewrite);
    && EndsFor(ctx, mode, code, r.ctx.fine - ctx.fine, next, r)
    && (Refusal(code, next) ==> FineRight(env, ctx, mode, p, w, r.ctx.fine - ctx.fine))
  }

  lemma ChecksPass(env: Env, ctx: Ctx, mode: SendMode, p: Parsed, w: Option<Rewrite>)
    requires !Hopeless(mode, WellFormed(p))
    ensures CheckSend(env, ctx, mode, WellFormed(p), w) ==
            if p.info.RelaxedInt? && !p.info.dstOk then Stop(SkipInvalid(ctx, mode, INVALID_DST_ADDR))
            else if NamesTooMany(env, p.info) then Stop(SkipInvalid(ctx, mode, TOO_MANY_EXTRA_CURRENCIES))
            else Go(InfoFor(env, p.info), ApplyRewrite(p, w), PricesFor(env, p.info))
  {
  }

  lemma OnceExactly(env: Env, ctx: Ctx, mode: SendMode, p: Parsed, w: Option<Rewrite>)
    requires !Hopeless(mode, WellFormed(p)) && InRange(ctx, Asked(p.info).tokens)
    ensures OnceAs(env, FlagBounce(ctx, mode.bounceOnError), mode, p, w, SendOnce(env, ctx, mode, WellFormed(p), w))
  {
    var flagged := FlagBounce(ctx, mode.bounceOnError);
    ChecksPass(env, flagged, mode, p, w);
    if !Uncharged(env, p) {
      SizedExactly(env, flagged, mode, InfoFor(env, p.info), ApplyRewrite(p, w), PricesFor(env, p.info));
    }
  }

  // ----- All attempts -----

  /** The layout of the last attempt: the first that is not refused for its size, if any. */
  ghost function LastLayout(env: Env, ctx: Ctx, mode: SendMode, p: Parsed): Option<Rewrite> {
    if Verdict(env, ctx, mode, p, None) != FAILED_TO_FIT_MESSAGE then None
    else if |p.init.refs| < 2 || Verdict(env, ctx, mode, p, Some(StateInitToCell)) != FAILED_TO_FIT_MESSAGE then Some(StateInitToCell)
    else Some(BodyToCell)
  }

  /** How a send ends: a message is made if and only if nothing speaks against its last
      layout; otherwise it is refused for that reason. */
  ghost predicate SendAs(env: Env, ctx: Ctx, mode: SendMode, p: Parsed, r: Step) {
    var last := LastLayout(env, ctx, mode, p);
    var code := Verdict(env, ctx, mode, p, last);
    && EndsFor(ctx, mode, code, r.ctx.fine - ctx.fine, None, r)
    && (code != 0 ==> FineRight(env, ctx, mode, p, last, r.ctx.fine - ctx.fine))
  }

  /** The first attempt that is not to be repeated. */
  function FirstFinal(first: Step, second: Step, third: Step): Step {
    if !first.result.Retry? then first else if !second.result.Retry? then second else third
  }

  /** An attempt that is repeated leaves everything as it was and names the next layout. */
  predicate LeadsTo(ctx: Ctx, next: Rewrite, r: Step) {
    r.result.Retry? ==> r == Step(ctx, Retry(next))
  }

  lemma ThreeAttempts(ctx: Ctx, mode: SendMode, a: int, b: int, c: int, more: Option<Rewrite>, first: Step, second: Step, third: Step)
    requires more.None? || more == Some(BodyToCell)
    requires EndsFor(ctx, mode, a, first.ctx.fine - ctx.fine, Some(StateInitToCell), first)
    requires EndsFor(ctx, mode, b, second.ctx.fine - ctx.fine, more, second)
    requires EndsFor(ctx, mode, c, third.ctx.fine - ctx.fine, None, third)
    ensures LeadsTo(ctx, StateInitToCell, first) && LeadsTo(ctx, BodyToCell, second) && !third.result.Retry?
    ensures FirstFinal(first, second, third) ==
            if a != FAILED_TO_FIT_MESSAGE then first else if b != FAILED_TO_FIT_MESSAGE || more.None? then second else third
    ensures var r := FirstFinal(first, second, third);
            var code := if a != FAILED_TO_FIT_MESSAGE then a else if b != FAILED_TO_FIT_MESSAGE || more.None? then b else c;
            EndsFor(ctx, mode, code, r.ctx.fine - ctx.fine, None, r)
  {
  }

  lemma FromAttempts(env: Env, ctx: Ctx, mode: SendMode, p: Parsed, first: Step, second: Step, third: Step)
    requires OnceAs(env, ctx, mode, p, None, first)
    requires OnceAs(env, ctx, mode, p, Some(StateInitToCell), second)
    requires OnceAs(env, ctx, mode, p, Some(BodyToCell), third)
    ensures SendAs(env, ctx, mode, p, FirstFinal(first, second, third))
    ensures LeadsTo(ctx, StateInitToCell, first) && LeadsTo(ctx, BodyToCell, second) && !third.result.Retry?
  {
    LayoutOrder(p);
    var more := if |p.init.refs| >= 2 then Some(BodyToCell) else None;
    ThreeAttempts(ctx, mode, Verdict(env, ctx, mode, p, None), Verdict(env, ctx, mode, p, Some(StateInitToCell)),
                  Verdict(env, ctx, mode, p, Some(BodyToCell)), more, first, second, third);
  }

  lemma LoopIsFirstFinal(env: Env, ctx: Ctx, mode: SendMode, msg: RelaxedMsg)
    requires FlagBounce(ctx, mode.bounceOnError) == ctx
    requires LeadsTo(ctx, StateInitToCell, SendOnce(env, ctx, mode, msg, None))
    requires LeadsTo(ctx, BodyToCell, SendOnce(env, ctx, mode, msg, Some(StateInitToCell)))
    requires !SendOnce(env, ctx, mode, msg, Some(BodyToCell)).result.Retry?
    ensures SendLoop(env, ctx, mode, msg, None) ==
            FirstFinal(SendOnce(env, ctx, mode, msg, None), SendOnce(env, ctx, mode, msg, Some(StateInitToCell)),
                       SendOnce(env, ctx, mode, msg, Some(BodyToCell)))
  {
  }

  lemma SendIff(env: Env, ctx: Ctx, mode: SendMode, p: Parsed)
    requires !Hopeless(mode, WellFormed(p)) && InRange(ctx, Asked(p.info).tokens)
    ensures SendAs(env, FlagBounce(ctx, mode.bounceOnError), mode, p, SendLoop(env, ctx, mode, WellFormed(p), None))
  {
    var flagged := FlagBounce(ctx, mode.bounceOnError);
    var msg := WellFormed(p);
    OnceExactly(env, flagged, mode, p, None);
    OnceExactly(env, flagged, mode, p, Some(StateInitToCell));
    OnceExactly(env, flagged, mode, p, Some(BodyToCell));
    FromAttempts(env, flagged, mode, p, SendOnce(env, flagged, mode, msg, None),
                 SendOnce(env, flagged, mode, msg, Some(StateInitToCell)), SendOnce(env, flagged, mode, msg, Some(BodyToCell)));
    LoopIsFirstFinal(env, flagged, mode, msg);
    FlaggedAlready(env, ctx, mode, msg);
  }

  lemma FlaggedAlready(env: Env, ctx: Ctx, mode: SendMode, msg: RelaxedMsg)
    ensures SendLoop(env, ctx, mode, msg, None) == SendLoop(env, FlagBounce(ctx, mode.bounceOnError), mode, msg, None)
  {
  }

  /** The flags are known and go together, also for the kind of message. */
  predicate SoundFlags(mode: SendMode, info: RelaxedInfo) {
    && !mode.unknown && !(mode.allBalance && mode.withRemaining)
    && (info.RelaxedExtOut? ==> !mode.deleteIfEmpty && !mode.withRemaining && !mode.allBalance)
  }

  /** A hopeless send fails at once, unfined, whatever its mode ignores; it has a code of
      its own if and only if it is just the source address that is wrong. */
  lemma HopelessFails(env: Env, ctx: Ctx, mode: SendMode, msg: RelaxedMsg)
    requires Hopeless(mode, msg)
    ensures var flagged := FlagBounce(ctx, mode.bounceOnError);
            var wrongSource := msg.WellFormed? && SoundFlags(mode, msg.parsed.info);
            SendLoop(env, ctx, mode, msg, None) ==
            Step(if wrongSource then flagged.(resultCode := INVALID_SRC_ADDR) else flagged, Failed)
  {
  }
}
