/** How an action phase ends: why, where, at what price, and whether it asks for a bounce. */
module PhaseOutcome {
  import opened Util
  import opened Money
  import opened Cells
  import opened CellStat
  import opened Messages
  import opened ExecutorTypes
  import opened ActionSpec
  import opened ActionOrder
  import opened ActionEffects

  /** The stored list can be read: not too long, and ending in an empty cell. */
  predicate Readable(c: Chain) {
    Links(c) <= MAX_ACTIONS && CellAt(c, Links(c)).EndOfList?
  }

  /** The `i`-th action in the order of running. */
  function ItemAt(c: Chain, i: nat): RawAction
    requires i < Links(c)
  {
    LinksAreLinks(c, Links(c) - 1 - i);
    CellAt(c, Links(c) - 1 - i).item
  }

  /** Action `n` is the first that can be neither parsed nor skipped. */
  predicate FirstBad(c: Chain, n: nat) {
    n < Links(c) && !Acceptable(ItemAt(c, n)) && forall i :: 0 <= i < n ==> Acceptable(ItemAt(c, i))
  }

  predicate AllAcceptable(c: Chain) {
    forall i :: 0 <= i < Links(c) ==> Acceptable(ItemAt(c, i))
  }

  /** The new state of an account that is not special has changed and is too large. */
  ghost predicate TooLarge(env: Env, ex: Exec, st: StateInit) {
    && !ex.special
    && (ex.state.Active? ==> (ex.state.init.code, ex.state.init.data, ex.state.init.libs) != (st.code, st.data, st.libs))
    && !(&& Fits(ReachAll(StateRoots(env.cfg, st)), StateLimits(env.cfg))
         && Shallow(ReachAll(StateRoots(env.cfg, st)))
         && (ex.masterchain && (ex.state.Active? ==> ex.state.init.libs != st.libs) ==>
               |PublicLibs(st.libs)| <= env.cfg.maxPublicLibraries))
  }

  lemma TooLargeIff(env: Env, ex: Exec, st: StateInit)
    ensures NewStateExceeds(env, ex, st) <==> TooLarge(env, ex, st)
  {
    var cfg := env.cfg;
    StateExceedsIff(cfg, st, cfg.maxPublicLibraries, ex.masterchain);
    if ex.state.Active? {
      StateExceedsIff(cfg, st, cfg.maxPublicLibraries, ex.masterchain && ex.state.init.libs != st.libs);
    }
  }

  /** The price of failing: the fines, and the fees of the unsent messages if so configured. */
  function PriceOfFailure(env: Env, ctx: Ctx): nat {
    ctx.fine + if env.cfg.chargeFeesOnFail then OrZero(ctx.actionFees) else 0
  }

  predicate Unmoved(ex: Exec, msg: Option<Currency>, o: PhaseOut) {
    o.exec == ex && o.fine == 0 && o.msgBalance == msg && !o.stateExceeds && !o.phase.success && !o.phase.valid
  }

  /** What a list that ran to its end or to a failure makes of the phase. */
  ghost predicate RanAs(env: Env, ex: Exec, s: Step, o: PhaseOut) {
    && o.phase.valid && o.msgBalance == s.ctx.msgBalance
    && (o.phase.success <==> s.result.Sent? && !TooLarge(env, ex, s.ctx.newState))
    && (o.stateExceeds <==> s.result.Sent? && TooLarge(env, ex, s.ctx.newState))
    && (s.result.Failed? ==>
          && o.phase.resultCode == (if s.ctx.resultCode == -1 then ACTION_INVALID else s.ctx.resultCode)
          && (o.phase.noFunds <==> s.ctx.resultCode in {NOT_ENOUGH_BALANCE, NOT_ENOUGH_EXTRA_BALANCE})
          && o.phase.resultArg == s.ctx.resultArg && o.bounce == s.ctx.needBounce)
    && (o.stateExceeds ==> o.phase.resultCode == STATE_OUT_OF_LIMITS)
    && (!o.phase.success ==>
          o.fine == PriceOfFailure(env, s.ctx) && o.exec.state == ex.state && o.exec.endStatus == ex.endStatus && o.exec.outMsgs == ex.outMsgs)
    && (o.phase.success ==>
          && o.phase.resultCode == 0 && !o.bounce && o.exec.state == Active(s.ctx.newState)
          && o.exec.totalFees == ex.totalFees + s.ctx.fine + OrZero(s.ctx.actionFees)
          && o.exec.outMsgs == s.ctx.outMsgs)
  }

  predicate CountedAs(s: Step, total: nat, o: PhaseOut) {
    && o.phase.totalActions == total
    && o.phase.messagesCreated == s.ctx.messagesCreated && o.phase.skippedActions == s.ctx.skippedActions
    && o.phase.specialActions == s.ctx.specialActions
  }

  /** A list that went through reports all fees, the fine among them, adds what was
      reserved to what remained, and deletes the account if the last word on it was to do
      so: for good if nothing at all is left. */
  ghost predicate CompletedAs(ex: Exec, ctx: Ctx, o: PhaseOut) {
    && OrZero(o.phase.actionFees) == ctx.fine + OrZero(ctx.actionFees)
    && o.phase.fwdFees == ctx.fwdFees && o.phase.resultArg == None && o.fine == ctx.fine
    && o.exec.endLt == ctx.endLt
    && o.exec.balance.tokens == ctx.remaining.tokens + ctx.reserved.tokens
    && (forall k :: Amount(o.exec.balance.other, k) == Amount(ctx.remaining.other, k) + Amount(ctx.reserved.other, k))
    && o.phase.deleted == ctx.deleteAccount
    && o.exec.endStatus ==
       (if !ctx.deleteAccount then ex.endStatus
        else if o.exec.balance == ZERO then StNotExists else StUninit)
  }

  predicate FailedAs(o: PhaseOut) {
    OrZero(o.phase.actionFees) == o.fine && o.phase.fwdFees == None && !o.phase.deleted
  }

  ghost predicate ReportedAs(ex: Exec, s: Step, total: nat, o: PhaseOut) {
    CountedAs(s, total, o) && if o.phase.success then CompletedAs(ex, s.ctx, o) else FailedAs(o)
  }

  lemma CompleteReport(env: Env, ex: Exec, ctx: Ctx, total: nat)
    ensures var r := CompletePhase(env, ex, ctx, total);
            r.Ok? ==> r.value.phase.success && CompletedAs(ex, ctx, r.value) && CountedAs(Step(ctx, Sent), total, r.value)
  {
  }

  lemma FineReport(env: Env, ex: Exec, ctx: Ctx, phase: ActionPhase, exceeds: bool)
    requires !phase.success && !phase.deleted
    ensures var r := ApplyFine(env, ex, ctx, phase, exceeds);
            r.Ok? ==>
              && FailedAs(r.value)
              && r.value.phase == phase.(actionFees := r.value.phase.actionFees, fwdFees := None)
  {
  }

  lemma ReportMeaning(env: Env, ex: Exec, s: Step, total: nat)
    requires !s.result.Retry?
    ensures var r := Conclude(env, ex, s, total);
            r.Ok? ==> ReportedAs(ex, s, total, r.value)
  {
    if s.result.Failed? {
      var code := FailedCode(s.ctx.resultCode);
      FineReport(env, ex, s.ctx,
                 Report(s.ctx, total).(resultCode := code,
                                       noFunds := code == NOT_ENOUGH_BALANCE || code == NOT_ENOUGH_EXTRA_BALANCE),
                 false);
    } else if NewStateExceeds(env, ex, s.ctx.newState) {
      FineReport(env, ex, s.ctx, Report(s.ctx, total).(resultCode := STATE_OUT_OF_LIMITS), true);
    } else {
      CompleteReport(env, ex, s.ctx, total);
    }
  }

  lemma ConcludeMeaning(env: Env, ex: Exec, s: Step, total: nat)
    requires !s.result.Retry?
    ensures var r := Conclude(env, ex, s, total);
            r.Ok? ==> RanAs(env, ex, s, r.value)
  {
    TooLargeIff(env, ex, s.ctx.newState);
  }

  /** The stored actions in the order of running. */
  function Stored(c: Chain): (items: seq<RawAction>)
    ensures |items| == Links(c)
    ensures forall i :: 0 <= i < |items| ==> items[i] == ItemAt(c, i)
  {
    seq(Links(c), i requires 0 <= i < Links(c) => ItemAt(c, i))
  }

  lemma UnpacksStored(c: Chain)
    requires Readable(c)
    ensures Unpack(c, 0) == Items(Stored(c))
  {
    UnpackIff(c);
    var items := Unpack(c, 0).items;
    forall i | 0 <= i < |items| ensures items[i] == Stored(c)[i] {
      assert items[|items| - 1 - (|items| - 1 - i)] == CellAt(c, |items| - 1 - i).item;
    }
  }

  lemma PlansStored(c: Chain)
    ensures AllAcceptable(c) <==> MakePlan(Stored(c)).Plan?
    ensures MakePlan(Stored(c)).BadPlan? ==>
              var p := MakePlan(Stored(c));
              FirstBad(c, p.arg) && (p.bounce <==> ItemAt(c, p.arg).UnparsedSend? && ItemAt(c, p.arg).mode.bounceOnError)
  {
    PlanMeaning(Stored(c));
    assert forall i :: 0 <= i < Links(c) ==> Stored(c)[i] == ItemAt(c, i);
  }

  /** The way a list of acceptable actions runs. */
  function Run(env: Env, ex: Exec, msg: Option<Currency>, st: StateInit, c: Chain): Step
    requires AllAcceptable(c)
  {
    PlansStored(c);
    RunList(env, ex, msg, st, Stored(c))
  }

  /** All actions before `i` went through and action `i` failed, which is how the list
      ended; it reports its own place, and asks for a bounce if and only if its flag does. */
  ghost predicate FailedAt(env: Env, start: Ctx, c: Chain, i: nat, s: Step) {
    && i < Links(c) && ItemAt(c, i).Parsed? && s.result.Failed?
    && (exists before: Ctx :: BeforeAction(env, start, c, i, before)
                              && s == Runner(env)(before, ItemAt(c, i).action, i))
    && s.ctx.resultArg == Some(i) && s.ctx.needBounce == BounceFlag(ItemAt(c, i).action)
  }

  /** The context the first `i` actions leave when none of them fails. */
  ghost predicate BeforeAction(env: Env, start: Ctx, c: Chain, i: nat, before: Ctx) {
    && MakePlan(Stored(c)).Plan? && i <= |MakePlan(Stored(c)).actions|
    && RunAll(Runner(env), start, MakePlan(Stored(c)).actions, i) == Step(before, Sent)
  }

  function StartOf(ex: Exec, msg: Option<Currency>, st: StateInit, c: Chain): Ctx
    requires AllAcceptable(c)
  {
    PlansStored(c);
    StartCtx(ex, msg, st, MakePlan(Stored(c)).skipped)
  }

  lemma RunOutcome(env: Env, ex: Exec, msg: Option<Currency>, st: StateInit, c: Chain)
    requires AllAcceptable(c)
    ensures var s := Run(env, ex, msg, st, c);
            && !s.result.Retry? && s.ctx.newState.data == st.data
            && (forall m :: m in s.ctx.outMsgs ==> !m.BouncedMsg?)
            && (s.result.Failed? ==> exists i: nat :: FailedAt(env, StartOf(ex, msg, st, c), c, i, s))
  {
    PlansStored(c);
    var plan := MakePlan(Stored(c));
    PlanMeaning(Stored(c));
    var start := StartOf(ex, msg, st, c);
    RunnerEffective(env);
    ListOutcome(Runner(env), start, plan.actions, |plan.actions|);
    var s := Run(env, ex, msg, st, c);
    if s.result.Failed? {
      var i: nat :| i < |plan.actions| && FailsAt(Runner(env), start, plan.actions, i, s);
      Failing(env, start, c, i, s);
    }
  }

  lemma Failing(env: Env, start: Ctx, c: Chain, i: nat, s: Step)
    requires MakePlan(Stored(c)).Plan? && PlansAs(Stored(c), MakePlan(Stored(c))) && Effective(Runner(env))
    requires FailsAt(Runner(env), start, MakePlan(Stored(c)).actions, i, s)
    ensures FailedAt(env, start, c, i, s)
  {
    var actions := MakePlan(Stored(c)).actions;
    FailureReport(Runner(env), start, actions, i, s);
    assert Stored(c)[i] == ItemAt(c, i);
    assert BeforeAction(env, start, c, i, RunAll(Runner(env), start, actions, i).ctx);
  }

  /** How a phase on any stored list ends. */
  ghost predicate EndsAs(env: Env, ex: Exec, msg: Option<Currency>, st: StateInit, c: Chain, o: PhaseOut) {
    if !Readable(c) then
      && Unmoved(ex, msg, o) && !o.bounce
      && o.phase.resultCode == (if Links(c) > MAX_ACTIONS then TOO_MANY_ACTIONS else ACTION_LIST_INVALID)
      && o.phase.resultArg == Some(if Links(c) > MAX_ACTIONS then MAX_ACTIONS + 1 else Links(c))
    else if !AllAcceptable(c) then
      && Unmoved(ex, msg, o) && o.phase.resultCode == ACTION_INVALID
      && o.phase.resultArg.Some? && FirstBad(c, o.phase.resultArg.value)
      && (o.bounce <==> BadItemBounces(c, o.phase.resultArg.value))
    else RanAs(env, ex, Run(env, ex, msg, st, c), o) && ReportedAs(ex, Run(env, ex, msg, st, c), Links(c), o)
  }

  predicate BadItemBounces(c: Chain, n: nat)
    requires n < Links(c)
  {
    ItemAt(c, n).UnparsedSend? && ItemAt(c, n).mode.bounceOnError
  }

  /** Every phase that ends at all ends in one of these ways: the list is unreadable, an
      item of it is, an action fails, the new state is too large, or all goes through. */
  lemma PhaseMeaning(env: Env, ex: Exec, msg: Option<Currency>, st: StateInit, c: Chain)
    ensures var r := RunPhase(env, ex, msg, st, c);
            r.Ok? ==> EndsAs(env, ex, msg, st, c, r.value)
  {
    UnpackIff(c);
    if Readable(c) {
      UnpacksStored(c);
      PlansStored(c);
      if AllAcceptable(c) {
        RunOutcome(env, ex, msg, st, c);
        ConcludeMeaning(env, ex, Run(env, ex, msg, st, c), Links(c));
        ReportMeaning(env, ex, Run(env, ex, msg, st, c), Links(c));
      }
    }
  }

  /** When a phase asks for a bounce: an item that cannot be read is a send with the flag,
      or an action with the flag fails, or the new state is too large. */
  ghost predicate AsksForBounce(env: Env, ex: Exec, msg: Option<Currency>, st: StateInit, c: Chain) {
    Readable(c) &&
    if !AllAcceptable(c) then exists n: nat :: FirstBad(c, n) && BadItemBounces(c, n)
    else
      var s := Run(env, ex, msg, st, c);
      if s.result.Failed? then exists i: nat :: FailedAt(env, StartOf(ex, msg, st, c), c, i, s) && BounceFlag(ItemAt(c, i).action)
      else TooLarge(env, ex, s.ctx.newState)
  }

  lemma BounceIsAskedFor(env: Env, ex: Exec, msg: Option<Currency>, st: StateInit, c: Chain)
    ensures var r := RunPhase(env, ex, msg, st, c);
            r.Ok? ==> (r.value.stateExceeds || r.value.bounce <==> AsksForBounce(env, ex, msg, st, c))
  {
    var r := RunPhase(env, ex, msg, st, c);
    PhaseMeaning(env, ex, msg, st, c);
    if r.Ok? && Readable(c) {
      if AllAcceptable(c) {
        RunOutcome(env, ex, msg, st, c);
      } else {
        OnlyFirst(c, r.value.phase.resultArg.value);
      }
    }
  }

  lemma OnlyFirst(c: Chain, n: nat)
    requires FirstBad(c, n)
    ensures forall m: nat :: FirstBad(c, m) ==> m == n
  {
  }
}
