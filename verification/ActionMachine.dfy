/** The action loop as the executor runs it: a context updated in place. */
module ActionMachine {
  import opened Util
  import opened Money
  import opened Cells
  import opened CellStat
  import opened Messages
  import opened ExecutorTypes
  import opened ActionSpec

  /** The part of the phase record that the loop keeps up to date. */
  datatype Record = Record(
    resultCode: int, resultArg: Option<nat>, actionFees: Option<nat>, fwdFees: Option<nat>,
    specialActions: nat, skippedActions: nat, messagesCreated: nat)

  class ActionContext {
    const env: Env
    var needBounce: bool
    var msgBalance: Option<Currency>
    var remaining: Currency
    var reserved: Currency
    var fine: nat
    var newState: StateInit
    var endLt: nat
    var outMsgs: seq<OutMsg>
    var deleteAccount: bool
    var phase: Record

    function Value(): Ctx
      reads this
    {
      Ctx(needBounce, msgBalance, remaining, reserved, fine, newState, endLt, outMsgs, deleteAccount,
          phase.resultCode, phase.resultArg, phase.actionFees, phase.fwdFees,
          phase.specialActions, phase.skippedActions, phase.messagesCreated)
    }

    constructor (env: Env, balance: Currency, lt: nat, msg: Option<Currency>, newState: StateInit, skipped: nat)
      ensures this.env == env
      ensures Value() == Ctx(false, msg, balance, ZERO, 0, newState, lt, [], false, -1, None, None, None, 0, skipped, 0)
    {
      this.env := env;
      needBounce, msgBalance := false, msg;
      remaining, reserved, fine := balance, ZERO, 0;
      this.newState, endLt, outMsgs, deleteAccount := newState, lt, [], false;
      phase := Record(-1, None, None, None, 0, skipped, 0);
    }

    method CheckSkipInvalid(mode: SendMode, code: int) returns (res: Attempt)
      modifies this
      ensures Step(Value(), res) == SkipInvalid(old(Value()), mode, code)
    {
      if mode.ignoreError {
        phase := phase.(skippedActions := phase.skippedActions + 1);
        res := Sent;
      } else {
        phase := phase.(resultCode := code);
        res := Failed;
      }
    }

    method Collect(plan: Fine, cells: nat) returns (ok: bool)
      modifies this
      ensures ok == CollectFine(old(Value()), plan, cells).Some?
      ensures Value() == if ok then CollectFine(old(Value()), plan, cells).value else old(Value())
    {
      var amount := FineAmount(plan, cells, remaining.tokens);
      var total := AddTokens(fine, amount);
      if total.None? {
        return false;
      }
      fine := total.value;
      remaining := remaining.(tokens := remaining.tokens - amount);
      ok := true;
    }

    method CheckSkipFined(mode: SendMode, plan: Fine, cells: nat, code: int) returns (res: Attempt)
      modifies this
      ensures Step(Value(), res) == SkipFined(old(Value()), mode, plan, cells, code)
    {
      var ok := Collect(plan, cells);
      if !ok {
        return Failed;
      }
      res := CheckSkipInvalid(mode, code);
    }

    /** The message could not be built: lay it out differently or give up. */
    method RefitMessage(mode: SendMode, s: Sized) returns (res: Attempt)
      modifies this
      ensures Step(Value(), res) == Refit(old(Value()), mode, s)
    {
      var next := NextRewrite(s.layout.rewrite);
      if next.Some? {
        return Retry(next.value);
      }
      res := CheckSkipFined(mode, s.fine, s.cells, FAILED_TO_FIT_MESSAGE);
    }

    /** The inbound value has been attached to a message: it is gone. */
    method ClearReceived(mode: SendMode)
      modifies this`msgBalance
      ensures msgBalance == ClearMsgBalance(env, old(Value()), mode)
    {
      if msgBalance.Some? && (mode.allBalance || mode.withRemaining) {
        if env.cfg.strictExtra {
          msgBalance := Some(msgBalance.value.(tokens := 0));
        } else {
          msgBalance := Some(ZERO);
        }
      }
    }

    method FlagDeletion(mode: SendMode)
      modifies this`deleteAccount
      ensures deleteAccount == if mode.allBalance && mode.deleteIfEmpty then
                                 (if env.cfg.strictExtra then reserved.tokens == 0 else reserved.IsZero())
                               else old(deleteAccount)
    {
      if mode.allBalance && mode.deleteIfEmpty {
        deleteAccount := if env.cfg.strictExtra then reserved.tokens == 0 else reserved.IsZero();
      }
    }

    /** The tail of a send shared by internal and external messages. */
    method PushMessage(mode: SendMode, m: OutMsg, collected: nat, fwdFee: nat, left: Currency)
      modifies this
      ensures Value() == Push(env, old(Value()), mode, m, left, collected, fwdFee)
    {
      if m.IntMsg? {
        ClearReceived(mode);
      }
      remaining, endLt, outMsgs := left, endLt + 1, outMsgs + [m];
      phase := phase.(
        messagesCreated := phase.messagesCreated + 1,
        actionFees := Some(OrZero(phase.actionFees) + collected),
        fwdFees := Some(OrZero(phase.fwdFees) + fwdFee));
      FlagDeletion(mode);
    }

    method FinishInternal(mode: SendMode, value: Currency, s: Sized) returns (res: Attempt)
      modifies this
      ensures Step(Value(), res) == FinishInt(env, old(Value()), mode, value, s)
    {
      var rewritten := RewriteValue(env, Value(), value, mode, s.fwdFee);
      if rewritten.None? {
        res := CheckSkipFined(mode, s.fine, s.cells, NOT_ENOUGH_BALANCE);
      } else {
        res := Withdraw(mode, rewritten.value.0, rewritten.value.1, s);
      }
    }

    /** Checks the balance, builds the message and takes the payment. */
    method Withdraw(mode: SendMode, v: Currency, pay: nat, s: Sized) returns (res: Attempt)
      modifies this
      ensures Step(Value(), res) == Deliver(env, old(Value()), mode, v, pay, s)
    {
      if remaining.tokens < pay {
        res := CheckSkipFined(mode, s.fine, s.cells, NOT_ENOUGH_BALANCE);
        return;
      }
      if env.cfg.strictExtra && TooManyExtra(v.other) {
        res := CheckSkipFined(mode, s.fine, s.cells, TOO_MANY_EXTRA_CURRENCIES);
        return;
      }
      var other := SubExtra(remaining.other, v.other);
      if other.None? {
        res := CheckSkipFined(mode, s.fine, s.cells, NOT_ENOUGH_EXTRA_BALANCE);
        return;
      }
      var collected := FirstPart(s.prices, s.fwdFee);
      var m := IntMsg(v, s.fwdFee - collected, endLt, s.layout.init, s.layout.body);
      if !env.cfg.fits(m) {
        res := RefitMessage(mode, s);
        return;
      }
      PushMessage(mode, m, collected, s.fwdFee, Currency(remaining.tokens - pay, other.value));
      res := Sent;
    }

    method FinishExternal(mode: SendMode, s: Sized) returns (res: Attempt)
      modifies this
      ensures Step(Value(), res) == FinishExt(env, old(Value()), mode, s)
    {
      if remaining.tokens < s.fwdFee {
        res := CheckSkipFined(mode, s.fine, s.cells, NOT_ENOUGH_BALANCE);
        return;
      }
      var m := ExtMsg(endLt, s.layout.init, s.layout.body);
      if !env.cfg.fits(m) {
        res := RefitMessage(mode, s);
        return;
      }
      PushMessage(mode, m, s.fwdFee, s.fwdFee, remaining.(tokens := remaining.tokens - s.fwdFee));
      res := Sent;
    }

    method FinishMessage(mode: SendMode, info: RelaxedInfo, layout: Layout, prices: FwdPrices) returns (res: Attempt)
      modifies this
      ensures Step(Value(), res) == SizeAndFinish(env, old(Value()), mode, info, layout, prices)
    {
      var perCell := FinePerCell(env, prices);
      var funds := if env.special then Some(remaining.tokens) else FineFunds(env, Value(), mode, info);
      if funds.None? {
        res := CheckSkipInvalid(mode, NOT_ENOUGH_BALANCE);
        return;
      }
      var plan := Fine(perCell, MaxCells(env, perCell, funds.value));
      var stats := new ExtStorageStat.WithLimits(Limits(env.cfg.maxMsgBits, plan.maxCells));
      var valid := stats.AddCells(MsgRoots(env, info, layout));
      if !valid {
        res := CheckSkipFined(mode, plan, stats.cells, MESSAGE_OUT_OF_LIMITS);
        return;
      }
      var fwdFee := if env.special then 0 else FwdFee(prices, stats.bits, stats.cells);
      var s := Sized(layout, prices, plan, stats.cells, fwdFee);
      if info.RelaxedInt? {
        res := FinishInternal(mode, info.value, s);
      } else {
        res := FinishExternal(mode, s);
      }
    }

    method DoSendMessage(mode: SendMode, msg: RelaxedMsg, rewrite: Option<Rewrite>) returns (res: Attempt)
      modifies this
      ensures Step(Value(), res) == SendOnce(env, old(Value()), mode, msg, rewrite)
    {
      if mode.bounceOnError {
        needBounce := true;
      }
      if mode.unknown || (mode.allBalance && mode.withRemaining) {
        return Failed;
      }
      if !msg.WellFormed? {
        return Failed;
      }
      var layout := ApplyRewrite(msg.parsed, rewrite);
      var info := msg.parsed.info;
      var useMcPrices := env.masterchain;
      match info {
        case RelaxedInt(srcOk, dstOk, dstMc, value) =>
          if !srcOk {
            phase := phase.(resultCode := INVALID_SRC_ADDR);
            return Failed;
          }
          if !dstOk {
            res := CheckSkipInvalid(mode, INVALID_DST_ADDR);
            return;
          }
          useMcPrices := useMcPrices || dstMc;
          if env.cfg.strictExtra {
            if TooManyExtra(value.other) {
              res := CheckSkipInvalid(mode, TOO_MANY_EXTRA_CURRENCIES);
              return;
            }
            info := RelaxedInt(srcOk, dstOk, dstMc, value.(other := Normalize(value.other)));
          }
        case RelaxedExtOut(srcOk) =>
          if mode.deleteIfEmpty || mode.withRemaining || mode.allBalance {
            return Failed;
          }
          if !srcOk {
            phase := phase.(resultCode := INVALID_SRC_ADDR);
            return Failed;
          }
      }
      res := FinishMessage(mode, info, layout, env.cfg.Fwd(useMcPrices));
    }

    /** The retry loop of the action phase around one send: at most three attempts. */
    method SendWithRewrites(mode: SendMode, msg: RelaxedMsg) returns (res: Attempt, ghost attempts: nat)
      modifies this
      ensures !res.Retry?
      ensures Step(Value(), res) == SendLoop(env, old(Value()), mode, msg, None)
      ensures attempts == Attempts(env, old(Value()), mode, msg, None) && 1 <= attempts <= 3
    {
      var rewrite: Option<Rewrite> := None;
      attempts := 0;
      while true
        invariant SendLoop(env, Value(), mode, msg, rewrite) == SendLoop(env, old(Value()), mode, msg, None)
        invariant attempts + Attempts(env, Value(), mode, msg, rewrite) == Attempts(env, old(Value()), mode, msg, None)
        decreases AttemptsLeft(rewrite)
      {
        res := DoSendMessage(mode, msg, rewrite);
        attempts := attempts + 1;
        if !res.Retry? {
          return;
        }
        rewrite := Some(res.rewrite);
      }
    }

    method SetNewCode(code: Cell) returns (res: Attempt)
      modifies this
      ensures Step(Value(), res) == DoSetCode(old(Value()), code)
    {
      newState := newState.(code := Some(code));
      phase := phase.(specialActions := phase.specialActions + 1);
      res := Sent;
    }

    method ReserveBalance(mode: ReserveMode, value: Currency) returns (res: Attempt)
      modifies this
      ensures Step(Value(), res) == DoReserve(env, old(Value()), mode, value)
    {
      if mode.bounceOnError {
        needBounce := true;
      }
      if mode.unknown {
        return Failed;
      }
      if env.cfg.strictExtra && value.other != map[] {
        return Failed;
      }
      var amount := ReserveAmount(env, mode, value);
      if amount.None? {
        return Failed;
      }
      var reserve := amount.value;
      if mode.ignoreError {
        reserve := Clamp(reserve, remaining);
      }
      res := TakeReserve(mode, reserve);
    }

    method TakeReserve(mode: ReserveMode, reserve: Currency) returns (res: Attempt)
      modifies this
      ensures Step(Value(), res) == ReserveClamped(env, old(Value()), mode, reserve)
    {
      var take := TakeFrom(remaining, reserve);
      if take.Short? {
        phase := phase.(resultCode := take.code);
        return Failed;
      }
      res := StoreReserve(SplitBalance(env, mode, take.left, reserve.(other := Normalize(reserve.other))));
    }

    method StoreReserve(split: Split) returns (res: Attempt)
      modifies this
      ensures Step(Value(), res) == StoreSplit(old(Value()), split)
    {
      remaining := split.available;
      var sum := AddCurrency(reserved, split.reserved);
      if sum.None? {
        return Failed;
      }
      reserved := sum.value;
      phase := phase.(specialActions := phase.specialActions + 1);
      res := Sent;
    }

    method LibraryFits(root: Cell) returns (fits: bool)
      ensures fits == Visit(FRESH, Limits(U32_MAX, env.cfg.maxLibraryCells), root).1.Some?
    {
      var stats := new ExtStorageStat.WithLimits(Limits(U32_MAX, env.cfg.maxLibraryCells));
      fits := stats.AddCell(root);
    }

    method UpdateLibrary(mode: LibMode, lib: LibRef) returns (res: Attempt)
      modifies this
      ensures Step(Value(), res) == DoChangeLibrary(env, old(Value()), mode, lib)
    {
      if mode.bounceOnError {
        needBounce := true;
      }
      if mode.addPrivate && mode.addPublic {
        return Failed;
      }
      if mode.addPrivate || mode.addPublic {
        res := InsertLibrary(mode.addPublic, lib);
      } else {
        StoreLibraries(newState.libs - {lib.root});
        res := Sent;
      }
    }

    method StoreLibraries(libs: map<Cell, bool>)
      modifies this
      ensures Value() == WithLibraries(old(Value()), libs)
    {
      newState := newState.(libs := libs);
      phase := phase.(specialActions := phase.specialActions + 1);
    }

    method InsertLibrary(public: bool, lib: LibRef) returns (res: Attempt)
      modifies this
      ensures Step(Value(), res) == AddLibrary(env, old(Value()), public, lib)
    {
      var libs := newState.libs;
      if lib.root in libs {
        if libs[lib.root] == public {
          StoreLibraries(libs);
          return Sent;
        }
      } else if lib.LibHash? {
        phase := phase.(resultCode := NO_LIB_CODE);
        return Failed;
      }
      var fits := LibraryFits(lib.root);
      if !fits {
        phase := phase.(resultCode := LIB_OUT_OF_LIMITS);
        return Failed;
      }
      StoreLibraries(libs[lib.root := public]);
      res := Sent;
    }

    /** One turn of the loop over the parsed actions. */
    method Perform(action: OutAction, idx: nat) returns (res: Attempt)
      modifies this
      ensures Step(Value(), res) == Runner(env)(old(Value()), action, idx)
    {
      needBounce, phase := false, phase.(resultCode := -1, resultArg := Some(idx));
      match action {
        case SendMsg(mode, msg) =>
          ghost var attempts;
          res, attempts := SendWithRewrites(mode, msg);
        case SetCode(code) => res := SetNewCode(code);
        case ReserveCurrency(mode, value) => res := ReserveBalance(mode, value);
        case ChangeLibrary(mode, lib) => res := UpdateLibrary(mode, lib);
      }
    }

    /** One turn of the loop, with what the loop has done so far. */
    method PerformNext(actions: seq<Option<OutAction>>, i: nat, ghost start: Ctx) returns (res: Attempt)
      requires i < |actions| && RunAll(Runner(env), start, actions, i) == Step(Value(), Sent)
      modifies this
      ensures RunAll(Runner(env), start, actions, i + 1) == Step(Value(), res)
    {
      if actions[i].None? {
        return Sent;
      }
      res := Perform(actions[i].value, i);
    }

    /** The loop over the parsed actions. */
    method PerformAll(actions: seq<Option<OutAction>>) returns (res: Attempt)
      modifies this
      ensures Step(Value(), res) == RunActions(env, old(Value()), actions)
    {
      ghost var start := Value();
      var i := 0;
      res := Sent;
      while i < |actions| && res.Sent?
        invariant i <= |actions|
        invariant RunAll(Runner(env), start, actions, i) == Step(Value(), res)
      {
        res := PerformNext(actions, i, start);
        i := i + 1;
      }
      RunEnded(env, start, actions, i);
    }
  }

  /** The loop stops at the end of the list or at the first failure; either way it has
      the result of the whole list. */
  lemma RunEnded(env: Env, start: Ctx, actions: seq<Option<OutAction>>, i: nat)
    requires i <= |actions| && (i == |actions| || !RunAll(Runner(env), start, actions, i).result.Sent?)
    ensures RunActions(env, start, actions) == RunAll(Runner(env), start, actions, i)
  {
    forall c, a, j ensures !Runner(env)(c, a, j).result.Retry? {
      ActionSettles(env, c, a, j);
    }
    NeverRetries(Runner(env), start, actions, i);
    if i < |actions| {
      FailureStops(Runner(env), start, actions, i, |actions|);
    }
  }

  lemma {:induction false} NeverRetries(act: (Ctx, OutAction, nat) -> Step, start: Ctx,
                                        actions: seq<Option<OutAction>>, n: nat)
    requires n <= |actions| && forall c, a, i :: !act(c, a, i).result.Retry?
    ensures !RunAll(act, start, actions, n).result.Retry?
    decreases n
  {
    if n > 0 {
      NeverRetries(act, start, actions, n - 1);
    }
  }

  lemma ActionSettles(env: Env, ctx: Ctx, action: OutAction, idx: nat)
    ensures !RunAction(env, ctx, action, idx).result.Retry?
  {
  }

  /** Once an action has failed, the rest of the list changes nothing. */
  lemma {:induction false} FailureStops(act: (Ctx, OutAction, nat) -> Step, ctx: Ctx,
                                        actions: seq<Option<OutAction>>, i: nat, n: nat)
    requires i <= n <= |actions| && RunAll(act, ctx, actions, i).result.Failed?
    ensures RunAll(act, ctx, actions, n) == RunAll(act, ctx, actions, i)
    decreases n - i
  {
    if i < n {
      FailureStops(act, ctx, actions, i, n - 1);
    }
  }

  // ----- Reading the action list -----

  /** Follows the chain of action cells from the newest to the oldest. */
  method UnpackActions(chain: Chain) returns (res: Unpacked)
    ensures res == Unpack(chain, 0)
  {
    var rest := chain;
    var items: seq<RawAction> := [];
    var idx := 0;
    while true
      invariant idx == |items|
      invariant Unpack(chain, 0) == var tail := Unpack(rest, idx); if tail.Items? then Items(tail.items + items) else tail
      decreases rest
    {
      match rest {
        case ExoticCell => return BadList(ACTION_LIST_INVALID, idx);
        case NoReference => return BadList(ACTION_LIST_INVALID, idx);
        case EndOfList => return Items(items);
        case Link(prev, item) =>
          if idx + 1 > MAX_ACTIONS {
            return BadList(TOO_MANY_ACTIONS, idx + 1);
          }
          ghost var tail := Unpack(prev, idx + 1);
          assert tail.Items? ==> (tail.items + [item]) + items == tail.items + ([item] + items);
          items := [item] + items;
          rest := prev;
          idx := idx + 1;
      }
    }
  }

  /** Parses the unpacked actions, oldest first. */
  method ParseActions(items: seq<RawAction>) returns (res: Plan)
    ensures res == MakePlan(items)
  {
    var actions: seq<Option<OutAction>> := [];
    var skipped := 0;
    for i := 0 to |items|
      invariant MakePlan(items[..i]) == Plan(actions, skipped)
    {
      assert items[..i + 1][..i] == items[..i];
      match items[i] {
        case Parsed(a) => actions := actions + [Some(a)];
        case UnparsedSend(mode) =>
          if mode.ignoreError {
            actions, skipped := actions + [None], skipped + 1;
          } else {
            BadItemStops(items, i + 1);
            return BadPlan(i, mode.bounceOnError, skipped);
          }
        case Unparsed =>
          BadItemStops(items, i + 1);
          return BadPlan(i, false, skipped);
      }
    }
    assert items[..|items|] == items;
    res := Plan(actions, skipped);
  }

  lemma {:induction false} BadItemStops(items: seq<RawAction>, n: nat)
    requires n <= |items| && MakePlan(items[..n]).BadPlan?
    ensures MakePlan(items) == MakePlan(items[..n])
    decreases |items|
  {
    if n == |items| {
      assert items[..n] == items;
    } else {
      var init := items[..|items| - 1];
      assert init[..n] == items[..n];
      BadItemStops(init, n);
    }
  }
}
