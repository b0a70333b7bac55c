/** The limit on extra currencies in a message: where it holds and where it does not. */
module ExtraLimit {
  import opened Util
  import opened Money
  import opened Cells
  import opened CellStat
  import opened Messages
  import opened ExecutorTypes
  import opened ActionSpec
  import opened SendMeaning

  /** An internal message that passes every check but the one on extra currencies. */
  predicate OtherwiseValid(mode: SendMode, msg: RelaxedMsg) {
    && !mode.unknown && !(mode.allBalance && mode.withRemaining)
    && msg.WellFormed? && msg.parsed.info.RelaxedInt?
    && msg.parsed.info.srcOk && msg.parsed.info.dstOk
  }

  /** The number of currencies a message names, empty amounts included. */
  function Named(msg: RelaxedMsg): nat
    requires msg.WellFormed? && msg.parsed.info.RelaxedInt?
  {
    |msg.parsed.info.value.other|
  }

  /** In strict mode the check accepts one currency more than the limit, so it enforces
      the limit exactly on the messages that do not name three. */
  lemma LimitCheckIff(env: Env, ctx: Ctx, mode: SendMode, msg: RelaxedMsg, w: Option<Rewrite>)
    requires env.cfg.strictExtra && OtherwiseValid(mode, msg)
    ensures CheckSend(env, ctx, mode, msg, w).Go? <==> Named(msg) <= MAX_MSG_EXTRA_CURRENCIES + 1
    ensures (CheckSend(env, ctx, mode, msg, w).Go? <==> Named(msg) <= MAX_MSG_EXTRA_CURRENCIES) <==>
            Named(msg) != MAX_MSG_EXTRA_CURRENCIES + 1
  {
  }

  /** A message beyond that is never sent, in no attempt. */
  lemma {:induction false} TooManyNeverSent(env: Env, ctx: Ctx, mode: SendMode, msg: RelaxedMsg, w: Option<Rewrite>)
    requires env.cfg.strictExtra && msg.WellFormed? && msg.parsed.info.RelaxedInt?
    requires Named(msg) > MAX_MSG_EXTRA_CURRENCIES + 1
    ensures var r := SendLoop(env, ctx, mode, msg, w);
            r.ctx.outMsgs == ctx.outMsgs && r.ctx.remaining == ctx.remaining && r.ctx.messagesCreated == ctx.messagesCreated
  {
  }

  /** Of the messages really sent in strict mode, exactly those that name three
      currencies break the limit; one that carries three was asked to. */
  lemma SentLimitIff(env: Env, ctx: Ctx, mode: SendMode, msg: RelaxedMsg)
    requires env.cfg.strictExtra && msg.WellFormed? && msg.parsed.info.RelaxedInt?
    requires var r := SendLoop(env, ctx, mode, msg, None);
             r.result.Sent? && r.ctx.messagesCreated > ctx.messagesCreated
    ensures Named(msg) <= MAX_MSG_EXTRA_CURRENCIES <==> Named(msg) != MAX_MSG_EXTRA_CURRENCIES + 1
    ensures var r := SendLoop(env, ctx, mode, msg, None);
            && r.ctx.outMsgs != []
            && var m := r.ctx.outMsgs[|r.ctx.outMsgs| - 1];
            && m.IntMsg? && m.value.other == Normalize(msg.parsed.info.value.other)
            && (|m.value.other| <= MAX_MSG_EXTRA_CURRENCIES <==>
                |Normalize(msg.parsed.info.value.other)| != MAX_MSG_EXTRA_CURRENCIES + 1)
  {
    SentMessageMeaning(env, ctx, mode, msg, None);
    if Named(msg) > MAX_MSG_EXTRA_CURRENCIES + 1 {
      TooManyNeverSent(env, ctx, mode, msg, None);
    }
  }

  const THREE: Extra := map[1 := 1, 2 := 1, 3 := 1]

  /** A message of five tokens and three extra currencies, without state init or body. */
  const THREE_MSG: RelaxedMsg :=
    WellFormed(ParsedRaw(RelaxedInt(true, true, false, Currency(5, THREE)), Slice([false], []), Slice([false], [])))

  const PLAIN: SendMode := SendMode(false, false, false, false, false, false, false)

  /** Where the limit fails: a special account in strict mode sends three currencies. */
  lemma ThreeCurrenciesAreSent(any: Env, other: Ctx)
    ensures var env := any.(special := true, cfg := any.cfg.(strictExtra := true, fits := (m: OutMsg) => true));
            var ctx := other.(remaining := Currency(10, THREE));
            var r := SendLoop(env, ctx, PLAIN, THREE_MSG, None);
            && r.result.Sent? && r.ctx.messagesCreated == ctx.messagesCreated + 1
            && |r.ctx.outMsgs| == |ctx.outMsgs| + 1
            && var m := r.ctx.outMsgs[|ctx.outMsgs|];
            && m.IntMsg? && m.value == Currency(5, THREE) && |m.value.other| > MAX_MSG_EXTRA_CURRENCIES
            && r.ctx.remaining == Currency(5, map[])
  {
    var env := any.(special := true, cfg := any.cfg.(strictExtra := true, fits := (m: OutMsg) => true));
    var ctx := other.(remaining := Currency(10, THREE));
    assert THREE.Keys == {1, 2, 3} && |THREE| == 3;
    assert Normalize(THREE) == THREE;
    var c := CheckSend(env, ctx, PLAIN, THREE_MSG, None);
    assert c == Go(THREE_MSG.parsed.info, Layout(Slice([false], []), Slice([false], []), None), env.cfg.Fwd(env.masterchain));
    assert MsgRoots(env, c.info, c.layout) == [];
    assert SubExtra(THREE, THREE) == Some(map[]);
  }
}
