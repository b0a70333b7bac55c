/** What single actions leave alone, what they change, and what a failed one asks for. */
module ActionEffects {
  import opened Util
  import opened Money
  import opened Cells
  import opened CellStat
  import opened GasPricing
  import opened Messages
  import opened ExecutorTypes
  import opened ActionSpec

  // ----- Sending changes neither state nor reserve -----

  /** All that a send does not touch. */
  predicate SameFrame(a: Ctx, b: Ctx) {
    && b.needBounce == a.needBounce && b.resultArg == a.resultArg
    && b.newState == a.newState && b.reserved == a.reserved && b.specialActions == a.specialActions
  }

  /** No action makes a bounced message. */
  predicate OwnMessages(a: Ctx, b: Ctx) {
    forall m :: m in b.outMsgs && m.BouncedMsg? ==> m in a.outMsgs
  }

  /** How a send may end, counted: one message, or nothing and one skipped action if
      errors are to be ignored, or nothing at all. */
  predicate Tallied(a: Ctx, mode: SendMode, r: Step) {
    && SameFrame(a, r.ctx) && OwnMessages(a, r.ctx)
    && (r.ctx.messagesCreated == a.messagesCreated ==> r.ctx.deleteAccount == a.deleteAccount)
    && (r.result.Sent? ==>
          || (r.ctx.messagesCreated == a.messagesCreated + 1 && r.ctx.skippedActions == a.skippedActions)
          || (mode.ignoreError && r.ctx.messagesCreated == a.messagesCreated && r.ctx.outMsgs == a.outMsgs
              && r.ctx.skippedActions == a.skippedActions + 1))
    && (!r.result.Sent? ==>
          && r.ctx.messagesCreated == a.messagesCreated && r.ctx.outMsgs == a.outMsgs
          && r.ctx.skippedActions == a.skippedActions)
  }

  /** Fines can be added up: true as long as all the money in play fits an amount. */
  predicate FinesFit(ctx: Ctx) {
    ctx.fine + ctx.remaining.tokens <= MAX_TOKENS
  }

  /** With the ignore flag, nothing that happens after the checks fails the phase. */
  predicate Forgiving(a: Ctx, mode: SendMode, r: Step) {
    mode.ignoreError && FinesFit(a) ==> !r.result.Failed?
  }

  lemma SkipTallied(ctx: Ctx, mode: SendMode, fine: Fine, cells: nat, code: int)
    ensures Tallied(ctx, mode, SkipInvalid(ctx, mode, code)) && Forgiving(ctx, mode, SkipInvalid(ctx, mode, code))
    ensures Tallied(ctx, mode, SkipFined(ctx, mode, fine, cells, code))
    ensures Forgiving(ctx, mode, SkipFined(ctx, mode, fine, cells, code))
  {
    assert FineAmount(fine, cells, ctx.remaining.tokens) <= ctx.remaining.tokens;
  }

  lemma RefitTallied(ctx: Ctx, mode: SendMode, s: Sized)
    ensures Tallied(ctx, mode, Refit(ctx, mode, s)) && Forgiving(ctx, mode, Refit(ctx, mode, s))
  {
    SkipTallied(ctx, mode, s.fine, s.cells, FAILED_TO_FIT_MESSAGE);
  }

  lemma DeliverTallied(env: Env, ctx: Ctx, mode: SendMode, v: Currency, pay: nat, s: Sized)
    ensures Tallied(ctx, mode, Deliver(env, ctx, mode, v, pay, s)) && Forgiving(ctx, mode, Deliver(env, ctx, mode, v, pay, s))
  {
    SkipTallied(ctx, mode, s.fine, s.cells, NOT_ENOUGH_BALANCE);
    SkipTallied(ctx, mode, s.fine, s.cells, NOT_ENOUGH_EXTRA_BALANCE);
    SkipTallied(ctx, mode, s.fine, s.cells, TOO_MANY_EXTRA_CURRENCIES);
    RefitTallied(ctx, mode, s);
  }

  lemma FinishTallied(env: Env, ctx: Ctx, mode: SendMode, value: Currency, s: Sized)
    ensures Tallied(ctx, mode, FinishInt(env, ctx, mode, value, s)) && Forgiving(ctx, mode, FinishInt(env, ctx, mode, value, s))
    ensures Tallied(ctx, mode, FinishExt(env, ctx, mode, s)) && Forgiving(ctx, mode, FinishExt(env, ctx, mode, s))
  {
    SkipTallied(ctx, mode, s.fine, s.cells, NOT_ENOUGH_BALANCE);
    RefitTallied(ctx, mode, s);
    var rewritten := RewriteValue(env, ctx, value, mode, s.fwdFee);
    if rewritten.Some? {
      DeliverTallied(env, ctx, mode, rewritten.value.0, rewritten.value.1, s);
    }
  }

  lemma SizedTallied(env: Env, ctx: Ctx, mode: SendMode, info: RelaxedInfo, layout: Layout, prices: FwdPrices)
    ensures var r := SizeAndFinish(env, ctx, mode, info, layout, prices);
            Tallied(ctx, mode, r) && Forgiving(ctx, mode, r)
  {
    var perCell := FinePerCell(env, prices);
    var funds := if env.special then Some(ctx.remaining.tokens) else FineFunds(env, ctx, mode, info);
    SkipTallied(ctx, mode, Fine(0, 0), 0, NOT_ENOUGH_BALANCE);
    if funds.Some? {
      var fine := Fine(perCell, MaxCells(env, perCell, funds.value));
      var visit := VisitAll(FRESH, Limits(env.cfg.maxMsgBits, fine.maxCells), MsgRoots(env, info, layout), 0);
      SkipTallied(ctx, mode, fine, visit.0.cells, MESSAGE_OUT_OF_LIMITS);
      if visit.1.Some? {
        var fwdFee := if env.special then 0 else FwdFee(prices, visit.0.bits, visit.0.cells);
        var s := Sized(layout, prices, fine, visit.0.cells, fwdFee);
        FinishTallied(env, ctx, mode, if info.RelaxedInt? then info.value else ZERO, s);
      }
    }
  }

  /** A send that no flag saves: malformed, with flags that exclude each other, or in
      another account's name. */
  predicate Hopeless(mode: SendMode, msg: RelaxedMsg) {
    || mode.unknown || (mode.allBalance && mode.withRemaining) || !msg.WellFormed?
    || !msg.parsed.info.srcOk
    || (msg.parsed.info.RelaxedExtOut? && (mode.deleteIfEmpty || mode.withRemaining || mode.allBalance))
  }

  lemma CheckTallied(env: Env, ctx: Ctx, mode: SendMode, msg: RelaxedMsg, w: Option<Rewrite>)
    ensures var c := CheckSend(env, ctx, mode, msg, w);
            c.Stop? ==> Tallied(ctx, mode, c.step) && (!Hopeless(mode, msg) ==> Forgiving(ctx, mode, c.step))
  {
  }

  lemma SendOnceTallied(env: Env, ctx: Ctx, mode: SendMode, msg: RelaxedMsg, w: Option<Rewrite>)
    ensures var r := SendOnce(env, ctx, mode, msg, w);
            var flagged := FlagBounce(ctx, mode.bounceOnError);
            Tallied(flagged, mode, r) && (!Hopeless(mode, msg) ==> Forgiving(flagged, mode, r))
  {
    var flagged := FlagBounce(ctx, mode.bounceOnError);
    CheckTallied(env, flagged, mode, msg, w);
    var c := CheckSend(env, flagged, mode, msg, w);
    if c.Go? {
      SizedTallied(env, flagged, mode, c.info, c.layout, c.prices);
    }
  }

  /** Over all attempts: a send makes one message, or is skipped if it may be, or fails;
      it fails despite the ignore flag only if it is hopeless. A failed send asks for a
      bounce if and only if its own flag says so. */
  lemma {:induction false} SendMeansOneOf(env: Env, ctx: Ctx, mode: SendMode, msg: RelaxedMsg, w: Option<Rewrite>)
    ensures var r := SendLoop(env, ctx, mode, msg, w);
            var flagged := FlagBounce(ctx, mode.bounceOnError);
            Tallied(flagged, mode, r) && (!Hopeless(mode, msg) ==> Forgiving(flagged, mode, r))
    decreases AttemptsLeft(w)
  {
    SendOnceTallied(env, ctx, mode, msg, w);
    var s := SendOnce(env, ctx, mode, msg, w);
    if s.result.Retry? {
      SendMeansOneOf(env, s.ctx, mode, msg, Some(s.result.rewrite));
    }
  }

  // ----- The cell budget of a send -----

  /** The most cells a send may visit is the greatest number, within the limit, whose
      fine the available tokens pay. */
  lemma CellBudget(env: Env, perCell: nat, funds: nat)
    ensures var m := MaxCells(env, perCell, funds);
            && m <= env.cfg.maxMsgCells && perCell * m <= funds
            && (m == env.cfg.maxMsgCells || perCell * (m + 1) > funds)
  {
    if perCell != 0 && funds < env.cfg.maxMsgCells * perCell {
      QuotientBelow(funds, perCell, env.cfg.maxMsgCells);
      DivSandwich(funds, perCell);
    } else {
      MulMonotone(perCell, env.cfg.maxMsgCells, env.cfg.maxMsgCells);
    }
  }

  // ----- The new state -----

  /** What an action that went through makes of the state to be stored. Only code and
      libraries can change; data never does. */
  ghost predicate StateChange(a: OutAction, before: StateInit, after: StateInit) {
    match a
    case SendMsg(_, _) => after == before
    case ReserveCurrency(_, _) => after == before
    case SetCode(code) => after == before.(code := Some(code))
    case ChangeLibrary(mode, lib) =>
      && after == before.(libs := after.libs)
      && (forall c :: c != lib.root ==> (c in after.libs <==> c in before.libs))
      && (forall c :: c != lib.root && c in before.libs ==> c in after.libs && after.libs[c] == before.libs[c])
      && (lib.root in after.libs <==> mode.addPrivate || mode.addPublic)
      && (lib.root in after.libs ==> after.libs[lib.root] == mode.addPublic)
  }

  /** The flag with which an action asks for a bounce if it fails. */
  function BounceFlag(a: OutAction): bool {
    match a
    case SendMsg(mode, _) => mode.bounceOnError
    case ReserveCurrency(mode, _) => mode.bounceOnError
    case ChangeLibrary(mode, _) => mode.bounceOnError
    case SetCode(_) => false
  }

  /** Every action: its state change, or none if it fails; the position it reports; and
      the bounce it asks for. */
  ghost predicate Effect(ctx: Ctx, a: OutAction, idx: nat, r: Step) {
    && r.ctx.needBounce == BounceFlag(a) && r.ctx.resultArg == Some(idx) && OwnMessages(ctx, r.ctx)
    && (r.result.Sent? ==> StateChange(a, ctx.newState, r.ctx.newState))
    && (r.result.Failed? ==> r.ctx.newState == ctx.newState)
  }

  lemma ReserveFrame(env: Env, ctx: Ctx, mode: ReserveMode, value: Currency)
    ensures var r := DoReserve(env, ctx, mode, value);
            && !r.result.Retry?
            && r.ctx == FlagBounce(ctx, mode.bounceOnError).(
                 remaining := r.ctx.remaining, reserved := r.ctx.reserved,
                 resultCode := r.ctx.resultCode, specialActions := r.ctx.specialActions)
  {
    var flagged := FlagBounce(ctx, mode.bounceOnError);
    var amount := ReserveAmount(env, mode, value);
    if amount.Some? {
      var named := if mode.ignoreError then Clamp(amount.value, flagged.remaining) else amount.value;
      assert DoReserve(env, ctx, mode, value) in {Step(flagged, Failed), ReserveClamped(env, flagged, mode, named)};
    }
  }

  lemma AddEffect(env: Env, ctx: Ctx, mode: LibMode, lib: LibRef)
    requires mode.addPrivate != mode.addPublic
    ensures var r := AddLibrary(env, ctx, mode.addPublic, lib);
            r.result.Sent? ==> StateChange(ChangeLibrary(mode, lib), ctx.newState, r.ctx.newState)
  {
  }

  lemma LibraryEffect(env: Env, ctx: Ctx, mode: LibMode, lib: LibRef)
    ensures var r := DoChangeLibrary(env, ctx, mode, lib);
            && r.ctx.resultArg == ctx.resultArg && r.ctx.needBounce == (ctx.needBounce || mode.bounceOnError)
            && r.ctx.outMsgs == ctx.outMsgs
            && (r.result.Sent? ==> StateChange(ChangeLibrary(mode, lib), ctx.newState, r.ctx.newState))
            && (r.result.Failed? ==> r.ctx.newState == ctx.newState)
  {
    var flagged := FlagBounce(ctx, mode.bounceOnError);
    if mode.addPrivate != mode.addPublic {
      assert DoChangeLibrary(env, ctx, mode, lib) == AddLibrary(env, flagged, mode.addPublic, lib);
      AddEffect(env, flagged, mode, lib);
    }
  }

  /** A library change fails if and only if it wants both kinds at once, or adds by hash
      what is not there, or adds or relabels what does not fit; with the code for it. */
  lemma LibraryFailsIff(env: Env, ctx: Ctx, mode: LibMode, lib: LibRef)
    ensures var r := DoChangeLibrary(env, ctx, mode, lib);
            var libs := ctx.newState.libs;
            var adds := mode.addPrivate != mode.addPublic;
            var there := lib.root in libs && libs[lib.root] == mode.addPublic;
            var unknown := adds && lib.root !in libs && lib.LibHash?;
            var large := !(Fits(Reach(lib.root), Limits(U32_MAX, env.cfg.maxLibraryCells)) && Shallow(Reach(lib.root)));
            && (r.result.Failed? <==> (mode.addPrivate && mode.addPublic) || unknown || (adds && !there && large))
            && (unknown ==> r.ctx.resultCode == NO_LIB_CODE)
            && (adds && !there && !unknown && large ==> r.ctx.resultCode == LIB_OUT_OF_LIMITS)
  {
    var lim := Limits(U32_MAX, env.cfg.maxLibraryCells);
    SingleRoot(lim, lib.root);
  }

  lemma SingleRoot(lim: Limits, c: Cell)
    ensures Visit(FRESH, lim, c).1.Some? <==> Fits(Reach(c), lim) && Shallow(Reach(c))
  {
    FreshCounterIsExact(lim, [c]);
    assert [c][1..] == [];
    assert ReachAll([c]) == Reach(c);
  }

  lemma SendEffect(env: Env, start: Ctx, mode: SendMode, msg: RelaxedMsg, idx: nat)
    requires !start.needBounce && start.resultArg == Some(idx)
    ensures Effect(start, SendMsg(mode, msg), idx, SendLoop(env, start, mode, msg, None))
  {
    SendMeansOneOf(env, start, mode, msg, None);
  }

  lemma ReserveEffect(env: Env, start: Ctx, mode: ReserveMode, value: Currency, idx: nat)
    requires !start.needBounce && start.resultArg == Some(idx)
    ensures Effect(start, ReserveCurrency(mode, value), idx, DoReserve(env, start, mode, value))
  {
    ReserveFrame(env, start, mode, value);
  }

  lemma ChangeEffect(env: Env, start: Ctx, mode: LibMode, lib: LibRef, idx: nat)
    requires !start.needBounce && start.resultArg == Some(idx)
    ensures Effect(start, ChangeLibrary(mode, lib), idx, DoChangeLibrary(env, start, mode, lib))
  {
    LibraryEffect(env, start, mode, lib);
  }

  lemma ActionEffect(env: Env, ctx: Ctx, a: OutAction, idx: nat)
    ensures Effect(ctx, a, idx, RunAction(env, ctx, a, idx))
  {
    var start := ctx.(needBounce := false, resultCode := -1, resultArg := Some(idx));
    match a
    case SendMsg(mode, msg) => SendEffect(env, start, mode, msg, idx);
    case SetCode(code) =>
    case ReserveCurrency(mode, value) => ReserveEffect(env, start, mode, value, idx);
    case ChangeLibrary(mode, lib) => ChangeEffect(env, start, mode, lib, idx);
  }

  // ----- Lists of actions -----

  ghost predicate Effective(act: (Ctx, OutAction, nat) -> Step) {
    forall c, a, i :: Effect(c, a, i, act(c, a, i)) && !act(c, a, i).result.Retry?
  }

  lemma RunnerEffective(env: Env)
    ensures Effective(Runner(env))
  {
    forall c, a, i ensures Effect(c, a, i, Runner(env)(c, a, i)) && !Runner(env)(c, a, i).result.Retry? {
      ActionEffect(env, c, a, i);
      NoRetry(env, c, a, i);
    }
  }

  lemma NoRetry(env: Env, ctx: Ctx, a: OutAction, idx: nat)
    ensures !RunAction(env, ctx, a, idx).result.Retry?
  {
  }

  /** The list failed at action `i`: all before went through, and this one did not. */
  ghost predicate FailsAt(act: (Ctx, OutAction, nat) -> Step, start: Ctx, actions: seq<Option<OutAction>>, i: nat, r: Step) {
    && i < |actions| && actions[i].Some?
    && RunAll(act, start, actions, i).result.Sent?
    && r == act(RunAll(act, start, actions, i).ctx, actions[i].value, i) && r.result.Failed?
  }

  /** A list either goes through or fails at one action, which then says where and
      whether to bounce. The data to be stored is what the code committed either way. */
  lemma {:induction false} ListOutcome(act: (Ctx, OutAction, nat) -> Step, start: Ctx, actions: seq<Option<OutAction>>, n: nat)
    requires n <= |actions| && Effective(act)
    ensures var r := RunAll(act, start, actions, n);
            && !r.result.Retry? && r.ctx.newState.data == start.newState.data && OwnMessages(start, r.ctx)
            && (r.result.Failed? ==> exists i: nat :: i < n && FailsAt(act, start, actions, i, r))
    decreases n
  {
    if n > 0 {
      ListOutcome(act, start, actions, n - 1);
      var s := RunAll(act, start, actions, n - 1);
      var r := RunAll(act, start, actions, n);
      if s.result.Sent? && actions[n - 1].Some? {
        assert Effect(s.ctx, actions[n - 1].value, n - 1, r);
        if r.result.Failed? {
          assert FailsAt(act, start, actions, n - 1, r);
        }
      }
    }
  }

  lemma FailureReport(act: (Ctx, OutAction, nat) -> Step, start: Ctx, actions: seq<Option<OutAction>>, i: nat, r: Step)
    requires Effective(act) && FailsAt(act, start, actions, i, r)
    ensures r.ctx.resultArg == Some(i) && r.ctx.needBounce == BounceFlag(actions[i].value)
  {
    assert Effect(RunAll(act, start, actions, i).ctx, actions[i].value, i, r);
  }
}
