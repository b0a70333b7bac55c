/** The phases of an ordinary transaction as functions on the executor state. */
module PhaseSpec {
  import opened Util
  import opened Money
  import opened Cells
  import opened CellStat
  import opened GasPricing
  import opened StorageFees
  import opened Messages
  import opened ExecutorTypes
  import opened ActionSpec

  // ----- Inbound messages -----

  datatype Header =
    | InInt(dstOk: bool, bounce: bool, value: Currency, ihrFee: nat, createdLt: nat, srcOk: bool, srcMasterchain: bool)
    | InExt(dstOk: bool, rootBits: nat, refs: seq<Cell>)
    | NotInbound

  datatype MsgInit = MsgInit(rootHash: nat, parsed: StateInit)

  /** `tailOk` says whether state init and body could be read after the header. */
  datatype Inbound = Inbound(header: Header, tailOk: bool, init: Option<MsgInit>, fullBody: Cell)

  datatype Received = Received(external: bool, bounceEnabled: bool, balance: Currency, init: Option<MsgInit>)

  datatype WithMsg = WithMsg(exec: Exec, msg: Received)

  // ----- Receive -----

  /** The fee for importing an external message; `None` if it is too large. Its root
      takes part in the limits but is not paid for. */
  function ImportFee(cfg: Config, ex: Exec, h: Header): Option<nat>
    requires h.InExt?
  {
    var visit := VisitAll(Stat(map[], 1, h.rootBits), Limits(cfg.maxMsgBits, cfg.maxMsgCells), h.refs, 0);
    if visit.1.None? then None
    else if ex.special then Some(0)
    else Some(FwdFee(cfg.Fwd(ex.masterchain), Max(visit.0.bits - h.rootBits, 0), Max(visit.0.cells - 1, 0)))
  }

  function ReceiveHeader(cfg: Config, ex: Exec, m: Inbound): Result<WithMsg> {
    match m.header
    case NotInbound => Err(BadMessage)
    case InInt(dstOk, bounce, value, ihrFee, createdLt, _, _) =>
      var tokens := AddTokens(value.tokens, ihrFee);
      if !dstOk then Err(BadMessage)
      else if tokens.None? then Err(Overflow)
      else
        var late := createdLt >= ex.startLt;
        Ok(WithMsg(
             ex.(startLt := if late then createdLt + 1 else ex.startLt,
                 endLt := if late then createdLt + 2 else ex.endLt),
             Received(false, bounce, value.(tokens := tokens.value), m.init)))
    case InExt(dstOk, _, _) =>
      var fee := ImportFee(cfg, ex, m.header);
      if !dstOk || fee.None? || ex.balance.tokens < fee.value then Err(BadMessage)
      else
        var fees := AddTokens(ex.totalFees, fee.value);
        if fees.None? then Err(Overflow)
        else
          Ok(WithMsg(
               ex.(balance := ex.balance.(tokens := ex.balance.tokens - fee.value), totalFees := fees.value),
               Received(true, false, ZERO, m.init)))
  }

  predicate IsBlackhole(cfg: Config, ex: Exec) {
    ex.masterchain && cfg.blackhole == Some(ex.address)
  }

  function Receive(cfg: Config, ex: Exec, m: Inbound): Result<WithMsg> {
    var r := ReceiveHeader(cfg, ex, m);
    if r.Err? then r
    else if !m.tailOk then Err(BadMessage)
    else if IsBlackhole(cfg, ex) then
      Ok(WithMsg(r.value.exec.(burned := r.value.msg.balance.tokens),
                 r.value.msg.(balance := r.value.msg.balance.(tokens := 0))))
    else r
  }

  // ----- Storage -----

  datatype StatusChange = Unchanged | ToFrozen | ToDeleted

  datatype StorageOut = StorageOut(exec: Exec, msg: Currency, collected: nat, due: Option<nat>, change: StatusChange)

  /** The fee since the last payment plus the debt, never more than an amount can hold. */
  function ToPay(cfg: Config, ex: Exec): nat {
    var fee := StorageFee(cfg.storagePrices, ex.used, ex.lastPaid, cfg.now, ex.special, ex.masterchain);
    if ex.due.Some? then SatAdd(fee, ex.due.value, MAX_TOKENS) else fee
  }

  function StorageStatusChange(cfg: Config, ex: Exec, due: nat): StatusChange {
    var prices := cfg.Gas(ex.masterchain);
    if ex.special then Unchanged
    else if ex.state.Active? then (if due > prices.freezeDueLimit then ToFrozen else Unchanged)
    else if && (ex.state.Uninit? || !cfg.disableDeleteFrozen)
            && due > prices.deleteDueLimit
            && ex.balance.other != map[] then ToDeleted
    else Unchanged
  }

  function ChangeStatus(s: Status, change: StatusChange): Status {
    match change
    case Unchanged => s
    case ToFrozen => StFrozen
    case ToDeleted => StNotExists
  }

  /** Collects what the balance can pay; the rest becomes the account's debt. */
  function CollectStorage(cfg: Config, ex: Exec, toPay: nat): StorageOut {
    if toPay == 0 then StorageOut(ex, ZERO, 0, None, Unchanged)
    else if toPay <= ex.balance.tokens then
      StorageOut(ex.(balance := ex.balance.(tokens := ex.balance.tokens - toPay), due := None), ZERO, toPay, None, Unchanged)
    else
      var due := toPay - ex.balance.tokens;
      var change := StorageStatusChange(cfg, ex, due);
      StorageOut(ex.(balance := ex.balance.(tokens := 0),
                     due := if ex.special then ex.due else Some(due),
                     endStatus := ChangeStatus(ex.endStatus, change)),
                 ZERO, ex.balance.tokens, Some(due), change)
  }

  function StoragePhase(cfg: Config, ex: Exec, msg: Currency, adjust: bool): Result<StorageOut> {
    if cfg.now < ex.lastPaid then Err(TimeWentBack)
    else
      var out := CollectStorage(cfg, ex.(lastPaid := if ex.special then 0 else cfg.now), ToPay(cfg, ex));
      var fees := AddTokens(ex.totalFees, out.collected);
      var msg' := if adjust && msg.tokens > out.exec.balance.tokens then msg.(tokens := out.exec.balance.tokens) else msg;
      if fees.None? then Err(Overflow)
      else Ok(out.(exec := out.exec.(totalFees := fees.value), msg := msg'))
  }

  // ----- Credit -----

  function CreditPhase(ex: Exec, msg: Currency): Result<Exec> {
    var balance := AddCurrency(ex.balance, msg);
    if balance.None? then Err(Overflow) else Ok(ex.(balance := balance.value))
  }

  // ----- Compute -----

  /** The virtual machine as the compute phase sees it: gas in, outcome out. */
  datatype VmOutcome = VmOutcome(consumed: nat, limit: nat, credit: nat, committed: Option<(Cell, Chain)>)

  type Vm = GasParams -> VmOutcome

  /** The gas contract of a run: the limit never exceeds the maximum, and no credit
      appears where none was granted. */
  ghost predicate GasContract(vm: Vm) {
    forall g: GasParams :: g.limit <= g.max ==> vm(g).limit <= g.max && (g.credit == 0 ==> vm(g).credit == 0)
  }

  datatype ComputeOut = ComputeOut(
    exec: Exec, executed: bool, success: bool, accepted: bool, gasFees: nat,
    original: Currency, newState: StateInit, actions: Chain)

  datatype Deploy = NoDeploy | UseMsgState | Refuse

  /** Which state the code runs in, or whether it can run at all. */
  function DeployDecision(cfg: Config, ex: Exec, msg: Received): Deploy {
    match ex.state
    case Active(_) =>
      if msg.init.Some? && msg.external && msg.init.value.rootHash != ex.address then Refuse else NoDeploy
    case Uninit =>
      if msg.init.None? || msg.init.value.rootHash != ex.address then Refuse
      else AcceptDeploy(cfg, ex, msg.init.value.parsed, if ex.masterchain then 0 else cfg.maxPublicLibraries)
    case Frozen(hash) =>
      if msg.init.None? || msg.init.value.rootHash != hash then Refuse
      else AcceptDeploy(cfg, ex, msg.init.value.parsed, cfg.maxPublicLibraries)
  }

  function AcceptDeploy(cfg: Config, ex: Exec, st: StateInit, maxPublic: nat): Deploy {
    if st.splitDepth || StateDiffExceeds(cfg, EMPTY_STATE, st, maxPublic, ex.masterchain) then Refuse else UseMsgState
  }

  function GasFor(cfg: Config, ex: Exec, msg: Received): GasParams {
    ComputeGasParams(cfg.Gas(ex.masterchain), ex.balance.tokens, msg.balance.tokens, ex.special, true, msg.external)
  }

  /** Charges the gas and records what the run committed. */
  function Charge(cfg: Config, ex: Exec, original: Currency, st: StateInit, deployed: bool, run: VmOutcome): Result<ComputeOut> {
    var accepted := run.credit == 0;
    var gasUsed := Min(run.consumed, run.limit);
    var fees := if accepted && !ex.special then GasFee(cfg.Gas(ex.masterchain), gasUsed) else 0;
    if ex.balance.tokens < fees then Err(Underflow)
    else
      var total := AddTokens(ex.totalFees, fees);
      if total.None? then Err(Overflow)
      else
        var committed := accepted && run.committed.Some?;
        Ok(ComputeOut(
             ex.(balance := ex.balance.(tokens := ex.balance.tokens - fees), totalFees := total.value,
                 endStatus := if accepted && deployed then StActive else ex.endStatus),
             true, committed, accepted, fees, original,
             if committed then st.(data := Some(run.committed.value.0)) else st,
             if committed then run.committed.value.1 else EndOfList))
  }

  function CurrentState(ex: Exec): StateInit {
    if ex.state.Active? then ex.state.init else EMPTY_STATE
  }

  /** Runs the code, unless there is no state to run it in. */
  function Execute(cfg: Config, ex: Exec, msg: Received, skipped: ComputeOut, run: VmOutcome): Result<ComputeOut> {
    match DeployDecision(cfg, ex, msg)
    case Refuse => Ok(skipped)
    case NoDeploy => Charge(cfg, ex, skipped.original, CurrentState(ex), false, run)
    case UseMsgState =>
      if msg.init.None? then Ok(skipped)
      else
        var st := msg.init.value.parsed;
        Charge(cfg, ex.(state := Active(st)), skipped.original, st, true, run)
  }

  function ComputePhase(cfg: Config, ex: Exec, msg: Received, vm: Vm): Result<ComputeOut> {
    var original := SubCurrency(ex.balance, msg.balance);
    if original.None? then Err(Underflow)
    else
      var skipped := ComputeOut(ex, false, false, false, 0, original.value, CurrentState(ex), EndOfList);
      var gas := GasFor(cfg, ex, msg);
      if ex.balance.tokens == 0 || (gas.limit == 0 && gas.credit == 0) then Ok(skipped)
      else Execute(cfg, ex, msg, skipped, vm(gas))
  }

  // ----- Bounce -----

  datatype BounceOut = BounceOut(exec: Exec, sent: bool, msgFees: nat, fwdFees: nat)

  function BounceRoots(cfg: Config, msg: Currency, fullBody: Cell): seq<Cell> {
    RootOf(cfg.dictRoot(msg.other)) + if cfg.fullBodyInBounced then [fullBody] else []
  }

  /** Sends the remaining inbound value back, if it pays for its own way. */
  function BouncePhase(cfg: Config, ex: Exec, m: Inbound, msg: Currency, gasFees: nat, fine: nat): Result<BounceOut> {
    if !m.header.InInt? then Err(BadMessage)
    else if !m.header.srcOk then Err(BadBounceAddress)
    else
      var visit := VisitAll(FRESH, Limits(cfg.maxMsgBits, cfg.maxMsgCells), BounceRoots(cfg, msg, m.fullBody), 0);
      if visit.1.None? then Ok(BounceOut(ex, false, 0, 0))
      else
        var prices := cfg.Fwd(ex.masterchain || m.header.srcMasterchain);
        var fwdFee := FwdFee(prices, visit.0.bits, visit.0.cells);
        SendBack(ex, msg, gasFees + fine, fwdFee, FirstPart(prices, fwdFee))
  }

  /** `spent` is what the failed run has cost; `kept` is the shard's part of the fee. */
  function SendBack(ex: Exec, msg: Currency, spent: nat, fwdFee: nat, kept: nat): Result<BounceOut>
    requires kept <= fwdFee
  {
    if msg.tokens < spent + fwdFee then Ok(BounceOut(ex, false, 0, 0))
    else
      var value := msg.(tokens := msg.tokens - spent);
      var balance := SubCurrency(ex.balance, value);
      if balance.None? then Err(Underflow)
      else
        var fees := AddTokens(ex.totalFees, kept);
        if fees.None? then Err(Overflow)
        else
          var out := BouncedMsg(value.(tokens := value.tokens - fwdFee), fwdFee - kept, ex.endLt);
          Ok(BounceOut(
               ex.(balance := balance.value, totalFees := fees.value, outMsgs := ex.outMsgs + [out], endLt := ex.endLt + 1),
               true, kept, fwdFee - kept))
  }

  // ----- The whole transaction -----

  datatype TxOut = TxOut(exec: Exec, aborted: bool, destroyed: bool, bounced: bool, action: Option<ActionPhase>)

  datatype Credited = Credited(exec: Exec, msg: Received)

  /** Storage and credit, in the order the bounce flag asks for. */
  function StorageAndCredit(cfg: Config, ex: Exec, msg: Received): Result<Credited> {
    if msg.bounceEnabled then
      var storage := StoragePhase(cfg, ex, msg.balance, false);
      if storage.Err? then Err(storage.error)
      else
        var credit := if msg.external then Ok(storage.value.exec) else CreditPhase(storage.value.exec, msg.balance);
        if credit.Err? then Err(credit.error) else Ok(Credited(credit.value, msg))
    else
      var credit := if msg.external then Ok(ex) else CreditPhase(ex, msg.balance);
      if credit.Err? then Err(credit.error)
      else
        var storage := StoragePhase(cfg, credit.value, msg.balance, true);
        if storage.Err? then Err(storage.error)
        else Ok(Credited(storage.value.exec, msg.(balance := storage.value.msg)))
  }

  function EnvFor(cfg: Config, c: ComputeOut): Env {
    Env(cfg, c.exec.special, c.exec.masterchain, c.original, c.gasFees)
  }

  /** What the action phase leaves for the bounce decision. */
  datatype Acted = Acted(exec: Exec, msg: Currency, fine: nat, bounce: bool, success: bool, destroyed: bool, phase: Option<ActionPhase>)

  function ActIfComputed(cfg: Config, c: ComputeOut, msg: Currency): Result<Acted> {
    if !c.success then Ok(Acted(c.exec, msg, 0, true, false, false, None))
    else
      var r := RunPhase(EnvFor(cfg, c), c.exec, Some(msg), c.newState, c.actions);
      if r.Err? then Err(r.error)
      else
        Ok(FromPhase(r.value))
  }

  function FromPhase(o: PhaseOut): Acted {
    Acted(o.exec, if o.msgBalance.Some? then o.msgBalance.value else ZERO, o.fine,
          o.stateExceeds || o.bounce, o.phase.success, o.exec.endStatus == StNotExists, Some(o.phase))
  }

  function BounceIfNeeded(cfg: Config, m: Inbound, msg: Received, gasFees: nat, a: Acted): Result<TxOut> {
    var done := TxOut(a.exec, !a.success, a.destroyed, false, a.phase);
    if !(msg.bounceEnabled && a.bounce) then Ok(done)
    else
      var b := BouncePhase(cfg, a.exec, m, a.msg, gasFees, a.fine);
      if b.Err? then Err(b.error) else Ok(done.(exec := b.value.exec, bounced := b.value.sent))
  }

  function AfterCredit(cfg: Config, ex: Exec, m: Inbound, msg: Received, vm: Vm): Result<TxOut> {
    var compute := ComputePhase(cfg, ex, msg, vm);
    if compute.Err? then Err(compute.error)
    else if msg.external && !compute.value.accepted then Err(NotAccepted)
    else
      var acted := ActIfComputed(cfg, compute.value, msg.balance);
      if acted.Err? then Err(acted.error)
      else BounceIfNeeded(cfg, m, msg, compute.value.gasFees, acted.value)
  }

  /** `run_ordinary_transaction`. */
  function RunOrdinary(cfg: Config, ex: Exec, external: bool, m: Inbound, vm: Vm): Result<TxOut> {
    var received := Receive(cfg, ex, m);
    if received.Err? then Err(received.error)
    else if received.value.msg.external != external then Err(BadMessage)
    else
      var credited := StorageAndCredit(cfg, received.value.exec, received.value.msg);
      if credited.Err? then Err(credited.error)
      else AfterCredit(cfg, credited.value.exec, m, credited.value.msg, vm)
  }
}
