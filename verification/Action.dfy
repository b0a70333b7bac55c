/** The action phase as functions on values: every action list, every outcome. */
module ActionSpec {
  import opened Util
  import opened Money
  import opened Cells
  import opened CellStat
  import opened Messages
  import opened ExecutorTypes

  // ----- Result codes -----

  const ACTION_LIST_INVALID := 32
  const TOO_MANY_ACTIONS := 33
  const ACTION_INVALID := 34
  const INVALID_SRC_ADDR := 35
  const INVALID_DST_ADDR := 36
  const NOT_ENOUGH_BALANCE := 37
  const NOT_ENOUGH_EXTRA_BALANCE := 38
  const FAILED_TO_FIT_MESSAGE := 39
  const MESSAGE_OUT_OF_LIMITS := 40
  const NO_LIB_CODE := 41
  const LIB_OUT_OF_LIMITS := 43
  const TOO_MANY_EXTRA_CURRENCIES := 44
  const STATE_OUT_OF_LIMITS := 50

  const MAX_ACTIONS := 255
  const MAX_MSG_EXTRA_CURRENCIES := 2

  // ----- Inputs -----

  datatype LibRef = LibCell(root: Cell) | LibHash(root: Cell)

  datatype OutAction =
    | SendMsg(mode: SendMode, msg: RelaxedMsg)
    | SetCode(code: Cell)
    | ReserveCurrency(reserveMode: ReserveMode, value: Currency)
    | ChangeLibrary(libMode: LibMode, lib: LibRef)

  /** What stays fixed while the actions of one transaction run. */
  datatype Env = Env(cfg: Config, special: bool, masterchain: bool, original: Currency, gasFees: nat)

  /** The mutable context of the action loop, with the counters of the phase. */
  datatype Ctx = Ctx(
    needBounce: bool,
    msgBalance: Option<Currency>,
    remaining: Currency, reserved: Currency, fine: nat,
    newState: StateInit,
    endLt: nat, outMsgs: seq<OutMsg>, deleteAccount: bool,
    resultCode: int, resultArg: Option<nat>,
    actionFees: Option<nat>, fwdFees: Option<nat>,
    specialActions: nat, skippedActions: nat, messagesCreated: nat)

  datatype Attempt = Sent | Retry(rewrite: Rewrite) | Failed

  datatype Step = Step(ctx: Ctx, result: Attempt)

  // ----- Sending a message -----

  /** An erroneous send is either skipped or fails the phase. */
  function SkipInvalid(ctx: Ctx, mode: SendMode, code: int): (r: Step)
    ensures !r.result.Retry?
  {
    if mode.ignoreError then Step(ctx.(skippedActions := ctx.skippedActions + 1), Sent)
    else Step(ctx.(resultCode := code), Failed)
  }

  datatype Fine = Fine(perCell: nat, maxCells: nat)

  function FineAmount(fine: Fine, cells: nat, available: nat): nat {
    Min(Min(fine.perCell * Min(fine.maxCells, cells), U64_MAX), available)
  }

  /** Charges for visited cells, at most what is left. */
  function CollectFine(ctx: Ctx, fine: Fine, cells: nat): Option<Ctx> {
    var amount := FineAmount(fine, cells, ctx.remaining.tokens);
    var total := AddTokens(ctx.fine, amount);
    if total.None? then None
    else Some(ctx.(fine := total.value,
                   remaining := ctx.remaining.(tokens := ctx.remaining.tokens - amount)))
  }

  function SkipFined(ctx: Ctx, mode: SendMode, fine: Fine, cells: nat, code: int): (r: Step)
    ensures !r.result.Retry?
  {
    var fined := CollectFine(ctx, fine, cells);
    if fined.None? then Step(ctx, Failed) else SkipInvalid(fined.value, mode, code)
  }

  function FinePerCell(env: Env, prices: FwdPrices): nat {
    if env.special then 0 else prices.cellPrice / 65536 / 4
  }

  function MsgTokens(ctx: Ctx): nat {
    if ctx.msgBalance.Some? then ctx.msgBalance.value.tokens else 0
  }

  /** Tokens that may be spent on visiting cells; `None` when the value attached
      by "carry the remaining inbound value" does not even cover the gas. */
  function FineFunds(env: Env, ctx: Ctx, mode: SendMode, info: RelaxedInfo): Option<nat> {
    if info.RelaxedInt? && !mode.allBalance && !mode.paySeparately then
      if mode.withRemaining then
        var sum := AddTokens(info.value.tokens, MsgTokens(ctx));
        if sum.None? || sum.value < env.gasFees + ctx.fine then None
        else Some(Min(ctx.remaining.tokens, sum.value - env.gasFees - ctx.fine))
      else Some(Min(ctx.remaining.tokens, info.value.tokens))
    else Some(ctx.remaining.tokens)
  }

  function MaxCells(env: Env, perCell: nat, funds: nat): nat {
    if perCell != 0 && funds < env.cfg.maxMsgCells * perCell then Min(funds / perCell, U32_MAX)
    else env.cfg.maxMsgCells
  }

  /** `rewrite_message_value`: the final value and what is withdrawn for it. */
  function RewriteValue(env: Env, ctx: Ctx, value: Currency, mode: SendMode, fwdFee: nat): Option<(Currency, nat)> {
    var attached := AttachValue(env, ctx, value, mode);
    if attached.None? then None
    else
      var v := attached.value;
      if mode.paySeparately && !mode.allBalance then
        var total := AddTokens(v.tokens, fwdFee);
        if total.None? then None else Some((v, total.value))
      else if v.tokens < fwdFee then None
      else Some((v.(tokens := v.tokens - fwdFee), v.tokens))
  }

  function AttachValue(env: Env, ctx: Ctx, value: Currency, mode: SendMode): Option<Currency> {
    if mode.allBalance then
      Some(if env.cfg.strictExtra then value.(tokens := ctx.remaining.tokens) else ctx.remaining)
    else if mode.withRemaining then
      var carried :=
        if ctx.msgBalance.None? then Some(value)
        else if env.cfg.strictExtra then
          var sum := AddTokens(value.tokens, ctx.msgBalance.value.tokens);
          if sum.None? then None else Some(value.(tokens := sum.value))
        else AddCurrency(value, ctx.msgBalance.value);
      if carried.None? || mode.paySeparately then carried
      else if carried.value.tokens < ctx.fine + env.gasFees then None
      else Some(carried.value.(tokens := carried.value.tokens - ctx.fine - env.gasFees))
    else Some(value)
  }

  function TooManyExtra(e: Extra): bool {
    |e| > MAX_MSG_EXTRA_CURRENCIES + 1
  }

  /** The part of a send that precedes the size computation. */
  datatype Checked = Stop(step: Step) | Go(info: RelaxedInfo, layout: Layout, prices: FwdPrices)

  function CheckSend(env: Env, ctx: Ctx, mode: SendMode, msg: RelaxedMsg, rewrite: Option<Rewrite>): (c: Checked)
    ensures c.Stop? ==> !c.step.result.Retry?
    ensures c.Go? ==> AttemptsLeft(c.layout.rewrite) <= AttemptsLeft(rewrite)
  {
    if mode.unknown || (mode.allBalance && mode.withRemaining) then Stop(Step(ctx, Failed))
    else if !msg.WellFormed? then Stop(Step(ctx, Failed))
    else
      var layout := ApplyRewrite(msg.parsed, rewrite);
      match msg.parsed.info
      case RelaxedInt(srcOk, dstOk, dstMc, value) =>
        if !srcOk then Stop(Step(ctx.(resultCode := INVALID_SRC_ADDR), Failed))
        else if !dstOk then Stop(SkipInvalid(ctx, mode, INVALID_DST_ADDR))
        else if env.cfg.strictExtra && TooManyExtra(value.other) then
          Stop(SkipInvalid(ctx, mode, TOO_MANY_EXTRA_CURRENCIES))
        else
          var v := if env.cfg.strictExtra then value.(other := Normalize(value.other)) else value;
          Go(RelaxedInt(srcOk, dstOk, dstMc, v), layout, env.cfg.Fwd(env.masterchain || dstMc))
      case RelaxedExtOut(srcOk) =>
        if mode.deleteIfEmpty || mode.withRemaining || mode.allBalance then Stop(Step(ctx, Failed))
        else if !srcOk then Stop(Step(ctx.(resultCode := INVALID_SRC_ADDR), Failed))
        else Go(msg.parsed.info, layout, env.cfg.Fwd(env.masterchain))
  }

  /** Cells a message is charged for: everything below its root. */
  function MsgRoots(env: Env, info: RelaxedInfo, layout: Layout): seq<Cell> {
    layout.init.refs + layout.body.refs +
    if !env.cfg.strictExtra && info.RelaxedInt? then RootOf(env.cfg.dictRoot(info.value.other)) else []
  }

  /** Everything known about a send once its size has been computed. */
  datatype Sized = Sized(layout: Layout, prices: FwdPrices, fine: Fine, cells: nat, fwdFee: nat)

  /** The received message's value was attached: it cannot be attached again. */
  function ClearMsgBalance(env: Env, ctx: Ctx, mode: SendMode): Option<Currency> {
    if ctx.msgBalance.Some? && (mode.allBalance || mode.withRemaining) then
      Some(if env.cfg.strictExtra then ctx.msgBalance.value.(tokens := 0) else ZERO)
    else ctx.msgBalance
  }

  /** Bookkeeping of a message that was built. */
  function Push(env: Env, ctx: Ctx, mode: SendMode, m: OutMsg, remaining: Currency, collected: nat, fwdFee: nat): Ctx {
    ctx.(
      msgBalance := if m.IntMsg? then ClearMsgBalance(env, ctx, mode) else ctx.msgBalance,
      remaining := remaining,
      endLt := ctx.endLt + 1,
      outMsgs := ctx.outMsgs + [m],
      messagesCreated := ctx.messagesCreated + 1,
      actionFees := Some(OrZero(ctx.actionFees) + collected),
      fwdFees := Some(OrZero(ctx.fwdFees) + fwdFee),
      deleteAccount :=
        if mode.allBalance && mode.deleteIfEmpty then
          (if env.cfg.strictExtra then ctx.reserved.tokens == 0 else ctx.reserved.IsZero())
        else ctx.deleteAccount)
  }

  /** A retry changes nothing and is strictly further along the rewrite chain. */
  ghost predicate RetriesCleanly(ctx: Ctx, before: Option<Rewrite>, r: Step) {
    r.result.Retry? ==> r.ctx == ctx && AttemptsLeft(Some(r.result.rewrite)) < AttemptsLeft(before)
  }

  /** A message that does not fit is laid out again, or given up. */
  function Refit(ctx: Ctx, mode: SendMode, s: Sized): (r: Step)
    ensures RetriesCleanly(ctx, s.layout.rewrite, r)
  {
    var next := NextRewrite(s.layout.rewrite);
    if next.Some? then Step(ctx, Retry(next.value))
    else SkipFined(ctx, mode, s.fine, s.cells, FAILED_TO_FIT_MESSAGE)
  }

  /** Withdraws `pay` and hands the message over, if the balance allows it. */
  function Deliver(env: Env, ctx: Ctx, mode: SendMode, v: Currency, pay: nat, s: Sized): (r: Step)
    ensures RetriesCleanly(ctx, s.layout.rewrite, r)
  {
    if ctx.remaining.tokens < pay then SkipFined(ctx, mode, s.fine, s.cells, NOT_ENOUGH_BALANCE)
    else if env.cfg.strictExtra && TooManyExtra(v.other) then
      SkipFined(ctx, mode, s.fine, s.cells, TOO_MANY_EXTRA_CURRENCIES)
    else
      var other := SubExtra(ctx.remaining.other, v.other);
      if other.None? then SkipFined(ctx, mode, s.fine, s.cells, NOT_ENOUGH_EXTRA_BALANCE)
      else
        var collected := FirstPart(s.prices, s.fwdFee);
        var m := IntMsg(v, s.fwdFee - collected, ctx.endLt, s.layout.init, s.layout.body);
        if !env.cfg.fits(m) then Refit(ctx, mode, s)
        else
          Step(Push(env, ctx, mode, m, Currency(ctx.remaining.tokens - pay, other.value), collected, s.fwdFee), Sent)
  }

  function FinishInt(env: Env, ctx: Ctx, mode: SendMode, value: Currency, s: Sized): (r: Step)
    ensures RetriesCleanly(ctx, s.layout.rewrite, r)
  {
    var rewritten := RewriteValue(env, ctx, value, mode, s.fwdFee);
    if rewritten.None? then SkipFined(ctx, mode, s.fine, s.cells, NOT_ENOUGH_BALANCE)
    else Deliver(env, ctx, mode, rewritten.value.0, rewritten.value.1, s)
  }

  function FinishExt(env: Env, ctx: Ctx, mode: SendMode, s: Sized): (r: Step)
    ensures RetriesCleanly(ctx, s.layout.rewrite, r)
  {
    if ctx.remaining.tokens < s.fwdFee then SkipFined(ctx, mode, s.fine, s.cells, NOT_ENOUGH_BALANCE)
    else
      var m := ExtMsg(ctx.endLt, s.layout.init, s.layout.body);
      if !env.cfg.fits(m) then Refit(ctx, mode, s)
      else
        Step(Push(env, ctx, mode, m, ctx.remaining.(tokens := ctx.remaining.tokens - s.fwdFee), s.fwdFee, s.fwdFee), Sent)
  }

  /** Sizes, prices and finishes a message whose header passed the checks. */
  function SizeAndFinish(env: Env, ctx: Ctx, mode: SendMode, info: RelaxedInfo, layout: Layout, prices: FwdPrices): (r: Step)
    ensures RetriesCleanly(ctx, layout.rewrite, r)
  {
    var perCell := FinePerCell(env, prices);
    var funds := if env.special then Some(ctx.remaining.tokens) else FineFunds(env, ctx, mode, info);
    if funds.None? then SkipInvalid(ctx, mode, NOT_ENOUGH_BALANCE)
    else
      var fine := Fine(perCell, MaxCells(env, perCell, funds.value));
      var visit := VisitAll(FRESH, Limits(env.cfg.maxMsgBits, fine.maxCells), MsgRoots(env, info, layout), 0);
      if visit.1.None? then SkipFined(ctx, mode, fine, visit.0.cells, MESSAGE_OUT_OF_LIMITS)
      else
        var fwdFee := if env.special then 0 else FwdFee(prices, visit.0.bits, visit.0.cells);
        var s := Sized(layout, prices, fine, visit.0.cells, fwdFee);
        if info.RelaxedInt? then FinishInt(env, ctx, mode, info.value, s) else FinishExt(env, ctx, mode, s)
  }

  function FlagBounce(ctx: Ctx, bounceOnError: bool): Ctx {
    if bounceOnError then ctx.(needBounce := true) else ctx
  }

  /** One attempt of `do_send_message`. */
  function SendOnce(env: Env, ctx: Ctx, mode: SendMode, msg: RelaxedMsg, rewrite: Option<Rewrite>): (r: Step)
    ensures RetriesCleanly(FlagBounce(ctx, mode.bounceOnError), rewrite, r)
  {
    var flagged := FlagBounce(ctx, mode.bounceOnError);
    var checked := CheckSend(env, flagged, mode, msg, rewrite);
    if checked.Stop? then checked.step
    else SizeAndFinish(env, flagged, mode, checked.info, checked.layout, checked.prices)
  }

  /** The retry loop around a send: it makes at most three attempts. */
  function SendLoop(env: Env, ctx: Ctx, mode: SendMode, msg: RelaxedMsg, rewrite: Option<Rewrite>): (r: Step)
    ensures !r.result.Retry?
    decreases AttemptsLeft(rewrite)
  {
    var s := SendOnce(env, ctx, mode, msg, rewrite);
    if s.result.Retry? then SendLoop(env, s.ctx, mode, msg, Some(s.result.rewrite)) else s
  }

  /** How often a send is attempted: the rewrites run out after the third time. */
  function Attempts(env: Env, ctx: Ctx, mode: SendMode, msg: RelaxedMsg, rewrite: Option<Rewrite>): (n: nat)
    ensures 1 <= n <= 1 + AttemptsLeft(rewrite)
    decreases AttemptsLeft(rewrite)
  {
    var s := SendOnce(env, ctx, mode, msg, rewrite);
    if s.result.Retry? then 1 + Attempts(env, s.ctx, mode, msg, Some(s.result.rewrite)) else 1
  }

  // ----- The other actions -----

  function DoSetCode(ctx: Ctx, code: Cell): Step {
    Step(ctx.(newState := ctx.newState.(code := Some(code)), specialActions := ctx.specialActions + 1), Sent)
  }

  /** The amount a reserve action names, before clamping. */
  function ReserveAmount(env: Env, mode: ReserveMode, value: Currency): Option<Currency> {
    if mode.withOriginal then
      if env.cfg.strictExtra then
        var tokens := if mode.reverse then SubTokens(env.original.tokens, value.tokens)
                      else AddTokens(value.tokens, env.original.tokens);
        if tokens.None? then None else Some(value.(tokens := tokens.value))
      else if mode.reverse then SubCurrency(env.original, value)
      else AddCurrency(value, env.original)
    else if mode.reverse then None
    else Some(value)
  }

  /** Splits the remaining balance into what stays available and what is reserved. */
  datatype Split = Split(available: Currency, reserved: Currency)

  function SplitBalance(env: Env, mode: ReserveMode, left: Currency, taken: Currency): Split {
    if !mode.allBut then Split(left, taken)
    else if env.cfg.strictExtra then Split(left.(tokens := taken.tokens), taken.(tokens := left.tokens))
    else Split(taken, left)
  }

  datatype Take = Left(left: Currency) | Short(code: int)

  /** What is left of the balance without `amount`. */
  function TakeFrom(balance: Currency, amount: Currency): Take {
    if balance.tokens < amount.tokens then Short(NOT_ENOUGH_BALANCE)
    else
      var other := SubExtra(balance.other, amount.other);
      if other.None? then Short(NOT_ENOUGH_EXTRA_BALANCE)
      else Left(Currency(balance.tokens - amount.tokens, other.value))
  }

  function ReserveClamped(env: Env, ctx: Ctx, mode: ReserveMode, amount: Currency): (r: Step)
    ensures !r.result.Retry?
    ensures r.ctx == ctx.(remaining := r.ctx.remaining, reserved := r.ctx.reserved,
                          resultCode := r.ctx.resultCode, specialActions := r.ctx.specialActions)
  {
    match TakeFrom(ctx.remaining, amount)
    case Short(code) => Step(ctx.(resultCode := code), Failed)
    case Left(left) =>
      StoreSplit(ctx, SplitBalance(env, mode, left, amount.(other := Normalize(amount.other))))
  }

  function StoreSplit(ctx: Ctx, split: Split): Step {
    var reserved := AddCurrency(ctx.reserved, split.reserved);
    if reserved.None? then Step(ctx.(remaining := split.available), Failed)
    else Step(ctx.(remaining := split.available, reserved := reserved.value,
                   specialActions := ctx.specialActions + 1), Sent)
  }

  function DoReserve(env: Env, ctx: Ctx, mode: ReserveMode, value: Currency): Step {
    var ctx := FlagBounce(ctx, mode.bounceOnError);
    var amount := ReserveAmount(env, mode, value);
    if mode.unknown || (env.cfg.strictExtra && value.other != map[]) || amount.None? then Step(ctx, Failed)
    else
      ReserveClamped(env, ctx, mode, if mode.ignoreError then Clamp(amount.value, ctx.remaining) else amount.value)
  }

  function DoChangeLibrary(env: Env, ctx: Ctx, mode: LibMode, lib: LibRef): Step {
    var ctx := FlagBounce(ctx, mode.bounceOnError);
    if mode.addPrivate && mode.addPublic then Step(ctx, Failed)
    else if mode.addPrivate || mode.addPublic then AddLibrary(env, ctx, mode.addPublic, lib)
    else Step(WithLibraries(ctx, ctx.newState.libs - {lib.root}), Sent)
  }

  function WithLibraries(ctx: Ctx, libs: map<Cell, bool>): Ctx {
    ctx.(newState := ctx.newState.(libs := libs), specialActions := ctx.specialActions + 1)
  }

  function AddLibrary(env: Env, ctx: Ctx, public: bool, lib: LibRef): (r: Step)
    ensures !r.result.Retry?
    ensures r.ctx == if r.result.Sent? then WithLibraries(ctx, r.ctx.newState.libs) else ctx.(resultCode := r.ctx.resultCode)
  {
    var libs := ctx.newState.libs;
    var hash := lib.root;
    if hash in libs && libs[hash] == public then Step(WithLibraries(ctx, libs), Sent)
    else if hash !in libs && lib.LibHash? then Step(ctx.(resultCode := NO_LIB_CODE), Failed)
    else if Visit(FRESH, Limits(U32_MAX, env.cfg.maxLibraryCells), hash).1.None? then
      Step(ctx.(resultCode := LIB_OUT_OF_LIMITS), Failed)
    else Step(WithLibraries(ctx, libs[hash := public]), Sent)
  }

  // ----- The list of actions -----

  /** An action cell that did not parse as an action still may show send flags. */
  datatype RawAction = Parsed(action: OutAction) | UnparsedSend(mode: SendMode) | Unparsed

  /** The action list as it is stored: newest action outermost. */
  datatype Chain = EndOfList | ExoticCell | NoReference | Link(prev: Chain, item: RawAction)

  datatype Unpacked = Items(items: seq<RawAction>) | BadList(code: int, arg: nat)

  /** Oldest action first; `idx` links have been followed already. */
  function Unpack(c: Chain, idx: nat): Unpacked {
    match c
    case EndOfList => Items([])
    case ExoticCell => BadList(ACTION_LIST_INVALID, idx)
    case NoReference => BadList(ACTION_LIST_INVALID, idx)
    case Link(prev, item) =>
      if idx + 1 > MAX_ACTIONS then BadList(TOO_MANY_ACTIONS, idx + 1)
      else
        var rest := Unpack(prev, idx + 1);
        if rest.Items? then Items(rest.items + [item]) else rest
  }

  datatype Plan = Plan(actions: seq<Option<OutAction>>, skipped: nat) | BadPlan(arg: nat, bounce: bool, skipped: nat)

  function MakePlan(items: seq<RawAction>): Plan {
    if items == [] then Plan([], 0)
    else
      var n := |items| - 1;
      var p := MakePlan(items[..n]);
      if p.BadPlan? then p
      else
        match items[n]
        case Parsed(a) => Plan(p.actions + [Some(a)], p.skipped)
        case UnparsedSend(mode) =>
          if mode.ignoreError then Plan(p.actions + [None], p.skipped + 1)
          else BadPlan(n, mode.bounceOnError, p.skipped)
        case Unparsed => BadPlan(n, false, p.skipped)
  }

  function RunAction(env: Env, ctx: Ctx, action: OutAction, idx: nat): Step {
    var ctx := ctx.(needBounce := false, resultCode := -1, resultArg := Some(idx));
    match action
    case SendMsg(mode, msg) => SendLoop(env, ctx, mode, msg, None)
    case SetCode(code) => DoSetCode(ctx, code)
    case ReserveCurrency(mode, value) => DoReserve(env, ctx, mode, value)
    case ChangeLibrary(mode, lib) => DoChangeLibrary(env, ctx, mode, lib)
  }

  /** Runs actions in order and stops at the first that fails. */
  function RunAll(act: (Ctx, OutAction, nat) -> Step, ctx: Ctx, actions: seq<Option<OutAction>>, n: nat): Step
    requires n <= |actions|
  {
    if n == 0 then Step(ctx, Sent)
    else
      var s := RunAll(act, ctx, actions, n - 1);
      if s.result.Failed? || actions[n - 1].None? then s
      else act(s.ctx, actions[n - 1].value, n - 1)
  }

  function Runner(env: Env): (Ctx, OutAction, nat) -> Step {
    (ctx: Ctx, action: OutAction, idx: nat) => RunAction(env, ctx, action, idx)
  }

  function RunActions(env: Env, ctx: Ctx, actions: seq<Option<OutAction>>): Step {
    RunAll(Runner(env), ctx, actions, |actions|)
  }

  // ----- The phase -----

  datatype ActionPhase = ActionPhase(
    success: bool, valid: bool, noFunds: bool, deleted: bool,
    actionFees: Option<nat>, fwdFees: Option<nat>,
    resultCode: int, resultArg: Option<nat>,
    totalActions: nat, specialActions: nat, skippedActions: nat, messagesCreated: nat)

  datatype PhaseOut = PhaseOut(
    exec: Exec, phase: ActionPhase, fine: nat, stateExceeds: bool, bounce: bool, msgBalance: Option<Currency>)

  function BadListPhase(code: int, arg: nat, total: nat, skipped: nat): ActionPhase {
    ActionPhase(false, false, false, false, None, None, code, Some(arg), total, 0, skipped, 0)
  }

  /** The phase record as it stands in the middle of the loop. */
  function Report(ctx: Ctx, total: nat): ActionPhase {
    ActionPhase(false, true, false, false, ctx.actionFees, ctx.fwdFees, ctx.resultCode, ctx.resultArg,
                total, ctx.specialActions, ctx.skippedActions, ctx.messagesCreated)
  }

  /** `apply_fine_on_error`: the balance pays the fine and, if so configured, the
      fees of the messages that were not sent after all. */
  function ApplyFine(env: Env, ex: Exec, ctx: Ctx, phase: ActionPhase, exceeds: bool): Result<PhaseOut> {
    var fine := if env.cfg.chargeFeesOnFail then AddTokens(ctx.fine, OrZero(ctx.actionFees)) else Some(ctx.fine);
    if fine.None? then Err(Overflow)
    else if ex.balance.tokens < fine.value then Err(Underflow)
    else
      var fees := AddTokens(ex.totalFees, fine.value);
      if fees.None? then Err(Overflow)
      else
        Ok(PhaseOut(
             ex.(balance := ex.balance.(tokens := ex.balance.tokens - fine.value), totalFees := fees.value),
             phase.(actionFees := if fine.value == 0 then None else Some(fine.value), fwdFees := None),
             fine.value, exceeds, ctx.needBounce, ctx.msgBalance))
  }

  function FailedCode(code: int): int {
    if code == -1 then ACTION_INVALID else code
  }

  function FailPhase(env: Env, ex: Exec, ctx: Ctx, total: nat): Result<PhaseOut> {
    var code := FailedCode(ctx.resultCode);
    ApplyFine(env, ex, ctx,
              Report(ctx, total).(resultCode := code,
                                  noFunds := code == NOT_ENOUGH_BALANCE || code == NOT_ENOUGH_EXTRA_BALANCE),
              false)
  }

  predicate NewStateExceeds(env: Env, ex: Exec, st: StateInit) {
    if ex.special then false
    else if ex.state.Active? then StateDiffExceeds(env.cfg, ex.state.init, st, env.cfg.maxPublicLibraries, ex.masterchain)
    else StateExceeds(env.cfg, st, env.cfg.maxPublicLibraries, ex.masterchain)
  }

  function CompletePhase(env: Env, ex: Exec, ctx: Ctx, total: nat): Result<PhaseOut> {
    var fees := if ctx.fine == 0 then Some(ctx.actionFees)
                else
                  var sum := AddTokens(OrZero(ctx.actionFees), ctx.fine);
                  if sum.None? then None else Some(Some(sum.value));
    var balance := AddCurrency(ctx.remaining, ctx.reserved);
    if fees.None? || balance.None? then Err(Overflow)
    else
      var totalFees := AddTokens(ex.totalFees, OrZero(fees.value));
      if fees.value.Some? && totalFees.None? then Err(Overflow)
      else
        var endStatus := if !ctx.deleteAccount then ex.endStatus
                         else if balance.value.IsZero() then StNotExists else StUninit;
        Ok(PhaseOut(
             ex.(balance := balance.value, totalFees := ex.totalFees + OrZero(fees.value),
                 outMsgs := ctx.outMsgs, endLt := ctx.endLt, state := Active(ctx.newState), endStatus := endStatus),
             Report(ctx, total).(success := true, resultCode := 0, resultArg := None,
                                 actionFees := fees.value, deleted := ctx.deleteAccount),
             ctx.fine, false, false, ctx.msgBalance))
  }

  /** What the phase makes of the way its list of actions ran. */
  function Conclude(env: Env, ex: Exec, s: Step, total: nat): Result<PhaseOut> {
    if s.result.Failed? then FailPhase(env, ex, s.ctx, total)
    else if NewStateExceeds(env, ex, s.ctx.newState) then
      ApplyFine(env, ex, s.ctx, Report(s.ctx, total).(resultCode := STATE_OUT_OF_LIMITS), true)
    else CompletePhase(env, ex, s.ctx, total)
  }

  function StartCtx(ex: Exec, msg: Option<Currency>, newState: StateInit, skipped: nat): Ctx {
    Ctx(false, msg, ex.balance, ZERO, 0, newState, ex.endLt, [], false, -1, None, None, None, 0, skipped, 0)
  }

  /** `action_phase`. */
  function RunPhase(env: Env, ex: Exec, msg: Option<Currency>, newState: StateInit, chain: Chain): Result<PhaseOut> {
    var unpacked := Unpack(chain, 0);
    if unpacked.BadList? then Ok(PhaseOut(ex, BadListPhase(unpacked.code, unpacked.arg, 0, 0), 0, false, false, msg))
    else
      var total := |unpacked.items|;
      var plan := MakePlan(unpacked.items);
      if plan.BadPlan? then
        Ok(PhaseOut(ex, BadListPhase(ACTION_INVALID, plan.arg, total, plan.skipped), 0, false, plan.bounce, msg))
      else
        Conclude(env, ex, RunActions(env, StartCtx(ex, msg, newState, plan.skipped), plan.actions), total)
  }
}
