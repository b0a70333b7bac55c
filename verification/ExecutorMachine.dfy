/** The executor as a mutable state driven through the phases of a transaction. */
module ExecutorMachine {
  import opened Util
  import opened Money
  import opened Cells
  import opened CellStat
  import opened GasPricing
  import opened StorageFees
  import opened Messages
  import opened ExecutorTypes
  import opened ActionSpec
  import opened ActionProofs
  import opened PhaseSpec
  import opened TransactionProofs
  import opened ActionMachine
  import opened History

  datatype StorageStat = StorageStat(used: Usage, lastPaid: nat, due: Option<nat>)

  class ExecutorState {
    const cfg: Config
    const special: bool
    const masterchain: bool
    const address: nat
    const origStatus: Status
    var storage: StorageStat
    var balance: Currency
    var state: AccountState
    var endStatus: Status
    var startLt: nat
    var endLt: nat
    var outMsgs: seq<OutMsg>
    var totalFees: nat
    var burned: nat

    function Value(): Exec
      reads this
    {
      Exec(special, masterchain, address, storage.used, storage.lastPaid, storage.due, balance, state,
           origStatus, endStatus, startLt, endLt, outMsgs, totalFees, burned)
    }

    constructor (cfg: Config, ex: Exec)
      ensures Value() == ex && this.cfg == cfg
    {
      this.cfg := cfg;
      special, masterchain, address, origStatus := ex.special, ex.masterchain, ex.address, ex.origStatus;
      storage := StorageStat(ex.used, ex.lastPaid, ex.due);
      balance, state, endStatus := ex.balance, ex.state, ex.endStatus;
      startLt, endLt, outMsgs, totalFees, burned := ex.startLt, ex.endLt, ex.outMsgs, ex.totalFees, ex.burned;
    }

    /** Size limits of an external message; its root is counted but free. */
    method ExternalImportFee(h: Header) returns (fee: Option<nat>)
      requires h.InExt?
      ensures fee == ImportFee(cfg, Value(), h)
    {
      var stats := new ExtStorageStat.WithLimits(Limits(cfg.maxMsgBits, cfg.maxMsgCells));
      stats.cells, stats.bits := 1, h.rootBits;
      var ok := stats.AddCells(h.refs);
      if !ok {
        return None;
      }
      if special {
        return Some(0);
      }
      return Some(FwdFee(cfg.Fwd(masterchain), Max(stats.bits - h.rootBits, 0), Max(stats.cells - 1, 0)));
    }

    method ReceiveInMsg(m: Inbound) returns (r: Result<Received>)
      modifies this
      ensures r.Ok? <==> Receive(cfg, old(Value()), m).Ok?
      ensures r.Ok? ==> WithMsg(Value(), r.value) == Receive(cfg, old(Value()), m).value
      ensures r.Err? ==> r.error == Receive(cfg, old(Value()), m).error
    {
      var external, bounceEnabled := false, false;
      var msgBalance := ZERO;
      match m.header {
        case NotInbound =>
          return Err(BadMessage);
        case InInt(dstOk, bounce, value, ihrFee, createdLt, _, _) =>
          if !dstOk {
            return Err(BadMessage);
          }
          bounceEnabled := bounce;
          var tokens := AddTokens(value.tokens, ihrFee);
          if tokens.None? {
            return Err(Overflow);
          }
          msgBalance := value.(tokens := tokens.value);
          if createdLt >= startLt {
            startLt := createdLt + 1;
            endLt := startLt + 1;
          }
        case InExt(dstOk, _, _) =>
          if !dstOk {
            return Err(BadMessage);
          }
          external := true;
          var fee := ExternalImportFee(m.header);
          if fee.None? || balance.tokens < fee.value {
            return Err(BadMessage);
          }
          balance := balance.(tokens := balance.tokens - fee.value);
          var fees := AddTokens(totalFees, fee.value);
          if fees.None? {
            return Err(Overflow);
          }
          totalFees := fees.value;
      }
      if !m.tailOk {
        return Err(BadMessage);
      }
      if masterchain && cfg.blackhole == Some(address) {
        burned := msgBalance.tokens;
        msgBalance := msgBalance.(tokens := 0);
      }
      return Ok(Received(external, bounceEnabled, msgBalance, m.init));
    }

    /** Takes the storage fee from the balance, or everything and leaves a debt. */
    method CollectStorageFee(toPay: nat) returns (out: StorageOut)
      modifies this
      ensures out == CollectStorage(cfg, old(Value()), toPay) && out.exec == Value()
    {
      if toPay == 0 {
        return StorageOut(Value(), ZERO, 0, None, Unchanged);
      }
      if toPay <= balance.tokens {
        balance := balance.(tokens := balance.tokens - toPay);
        storage := storage.(due := None);
        return StorageOut(Value(), ZERO, toPay, None, Unchanged);
      }
      var due, collected := toPay - balance.tokens, balance.tokens;
      var change := StorageStatusChange(cfg, Value(), due);
      balance := balance.(tokens := 0);
      if !special {
        storage := storage.(due := Some(due));
      }
      endStatus := ChangeStatus(endStatus, change);
      return StorageOut(Value(), ZERO, collected, Some(due), change);
    }

    /** Also returns the message value, lowered to the balance if so asked. */
    method ChargeStorage(msg: Currency, adjust: bool) returns (r: Result<StorageOut>)
      modifies this
      ensures r == StoragePhase(cfg, old(Value()), msg, adjust)
      ensures r.Ok? ==> Value() == r.value.exec
    {
      if cfg.now < storage.lastPaid {
        return Err(TimeWentBack);
      }
      var toPay := ComputeStorageFees(cfg.storagePrices, storage.used, storage.lastPaid, cfg.now, special, masterchain);
      if storage.due.Some? {
        toPay := SatAdd(toPay, storage.due.value, MAX_TOKENS);
      }
      storage := storage.(lastPaid := if special then 0 else cfg.now);
      var out := CollectStorageFee(toPay);
      var msg' := msg;
      if adjust && msg.tokens > balance.tokens {
        msg' := msg.(tokens := balance.tokens);
      }
      var fees := AddTokens(totalFees, out.collected);
      if fees.None? {
        return Err(Overflow);
      }
      totalFees := fees.value;
      return Ok(out.(exec := Value(), msg := msg'));
    }

    method CreditMessage(msg: Currency) returns (r: Result<()>)
      modifies this`balance
      ensures r.Ok? <==> CreditPhase(old(Value()), msg).Ok?
      ensures r.Ok? ==> Value() == CreditPhase(old(Value()), msg).value
      ensures r.Err? ==> r.error == CreditPhase(old(Value()), msg).error
    {
      var sum := AddCurrency(balance, msg);
      if sum.None? {
        return Err(Overflow);
      }
      balance := sum.value;
      return Ok(());
    }

    /** Charges the gas of a run and takes over what it committed. */
    method ChargeGas(original: Currency, st: StateInit, deployed: bool, run: VmOutcome) returns (r: Result<ComputeOut>)
      modifies this
      ensures r == Charge(cfg, old(Value()), original, st, deployed, run)
      ensures r.Ok? ==> Value() == r.value.exec
    {
      var accepted := run.credit == 0;
      var success := accepted && run.committed.Some?;
      var gasUsed := Min(run.consumed, run.limit);
      var gasFees := if accepted && !special then GasFee(cfg.Gas(masterchain), gasUsed) else 0;
      if accepted && deployed {
        endStatus := StActive;
      }
      var newState, actions := st, EndOfList;
      if success {
        newState := newState.(data := Some(run.committed.value.0));
        actions := run.committed.value.1;
      }
      if balance.tokens < gasFees {
        return Err(Underflow);
      }
      balance := balance.(tokens := balance.tokens - gasFees);
      var total := AddTokens(totalFees, gasFees);
      if total.None? {
        return Err(Overflow);
      }
      totalFees := total.value;
      return Ok(ComputeOut(Value(), true, success, accepted, gasFees, original, newState, actions));
    }

    method Compute(msg: Received, vm: Vm) returns (r: Result<ComputeOut>)
      modifies this
      ensures r == ComputePhase(cfg, old(Value()), msg, vm)
      ensures r.Ok? ==> Value() == r.value.exec
    {
      var original := SubCurrency(balance, msg.balance);
      if original.None? {
        return Err(Underflow);
      }
      var skipped := ComputeOut(Value(), false, false, false, 0, original.value, CurrentState(Value()), EndOfList);
      if balance.tokens == 0 {
        return Ok(skipped);
      }
      var gas := GasFor(cfg, Value(), msg);
      if gas.limit == 0 && gas.credit == 0 {
        return Ok(skipped);
      }
      r := ExecuteCode(msg, skipped, vm(gas));
    }

    method ExecuteCode(msg: Received, skipped: ComputeOut, run: VmOutcome) returns (r: Result<ComputeOut>)
      requires skipped.exec == Value()
      modifies this
      ensures r == Execute(cfg, old(Value()), msg, skipped, run)
      ensures r.Ok? ==> Value() == r.value.exec
    {
      match DeployDecision(cfg, Value(), msg) {
        case Refuse =>
          return Ok(skipped);
        case NoDeploy =>
          r := ChargeGas(skipped.original, CurrentState(Value()), false, run);
        case UseMsgState =>
          if msg.init.None? {
            return Ok(skipped);
          }
          state := Active(msg.init.value.parsed);
          r := ChargeGas(skipped.original, msg.init.value.parsed, true, run);
      }
    }

    /** Applies the fine of a failed action phase. */
    method FineOnError(env: Env, ctx: Ctx, phase: ActionPhase, exceeds: bool) returns (r: Result<PhaseOut>)
      requires env.cfg == cfg
      modifies this
      ensures r == ApplyFine(env, old(Value()), ctx, phase, exceeds)
      ensures r.Ok? ==> Value() == r.value.exec
    {
      var fine := ctx.fine;
      if cfg.chargeFeesOnFail {
        var sum := AddTokens(fine, OrZero(ctx.actionFees));
        if sum.None? {
          return Err(Overflow);
        }
        fine := sum.value;
      }
      if balance.tokens < fine {
        return Err(Underflow);
      }
      balance := balance.(tokens := balance.tokens - fine);
      var fees := AddTokens(totalFees, fine);
      if fees.None? {
        return Err(Overflow);
      }
      totalFees := fees.value;
      return Ok(PhaseOut(Value(), phase.(actionFees := if fine == 0 then None else Some(fine), fwdFees := None),
                         fine, exceeds, ctx.needBounce, ctx.msgBalance));
    }

    /** Takes over the result of a list of actions that all went through. */
    method CompleteActions(env: Env, ctx: Ctx, total: nat) returns (r: Result<PhaseOut>)
      modifies this
      ensures r == CompletePhase(env, old(Value()), ctx, total)
      ensures r.Ok? ==> Value() == r.value.exec
    {
      var fees := ctx.actionFees;
      if ctx.fine != 0 {
        var sum := AddTokens(OrZero(fees), ctx.fine);
        if sum.None? {
          return Err(Overflow);
        }
        fees := Some(sum.value);
      }
      var left := AddCurrency(ctx.remaining, ctx.reserved);
      if left.None? {
        return Err(Overflow);
      }
      if ctx.deleteAccount {
        endStatus := if left.value.IsZero() then StNotExists else StUninit;
      }
      if fees.Some? {
        var sum := AddTokens(totalFees, fees.value);
        if sum.None? {
          return Err(Overflow);
        }
        totalFees := sum.value;
      }
      balance, outMsgs, endLt, state := left.value, ctx.outMsgs, ctx.endLt, Active(ctx.newState);
      return Ok(PhaseOut(Value(),
        Report(ctx, total).(success := true, resultCode := 0, resultArg := None, actionFees := fees, deleted := ctx.deleteAccount),
        ctx.fine, false, false, ctx.msgBalance));
    }

    method ConcludeActions(env: Env, s: Step, total: nat) returns (r: Result<PhaseOut>)
      requires env.cfg == cfg
      modifies this
      ensures r == Conclude(env, old(Value()), s, total)
      ensures r.Ok? ==> Value() == r.value.exec
    {
      var ctx := s.ctx;
      if s.result.Failed? {
        var code := FailedCode(ctx.resultCode);
        r := FineOnError(env, ctx,
          Report(ctx, total).(resultCode := code,
                              noFunds := code == NOT_ENOUGH_BALANCE || code == NOT_ENOUGH_EXTRA_BALANCE), false);
      } else if NewStateExceeds(env, Value(), ctx.newState) {
        r := FineOnError(env, ctx, Report(ctx, total).(resultCode := STATE_OUT_OF_LIMITS), true);
      } else {
        r := CompleteActions(env, ctx, total);
      }
    }

    method Act(env: Env, msg: Option<Currency>, newState: StateInit, chain: Chain) returns (r: Result<PhaseOut>)
      requires env.cfg == cfg
      modifies this
      ensures r == RunPhase(env, old(Value()), msg, newState, chain)
      ensures r.Ok? ==> Value() == r.value.exec
      ensures old(outMsgs) == [] ==>
        && (r.Err? ==> r.error == Overflow)
        && (r.Ok? ==>
              && balance.tokens + totalFees + NativeSum(outMsgs) == old(balance.tokens + totalFees)
              && (forall k :: Amount(balance.other, k) + ExtraSum(outMsgs, k) == Amount(old(balance.other), k))
              && Consecutive(outMsgs, old(endLt)) && endLt == old(endLt) + |outMsgs|
              && (if r.value.phase.success then Completed(env, r.value) else Atomic(old(Value()), r.value)))
    {
      if outMsgs == [] {
        ActionPhaseSound(env, Value(), msg, newState, chain);
      }
      r := PerformPhase(env, msg, newState, chain);
    }

    method PerformPhase(env: Env, msg: Option<Currency>, newState: StateInit, chain: Chain) returns (r: Result<PhaseOut>)
      requires env.cfg == cfg
      modifies this
      ensures r == RunPhase(env, old(Value()), msg, newState, chain)
      ensures r.Ok? ==> Value() == r.value.exec
    {
      var list := UnpackActions(chain);
      if list.BadList? {
        return Ok(PhaseOut(Value(), BadListPhase(list.code, list.arg, 0, 0), 0, false, false, msg));
      }
      var total := |list.items|;
      var plan := ParseActions(list.items);
      if plan.BadPlan? {
        return Ok(PhaseOut(Value(), BadListPhase(ACTION_INVALID, plan.arg, total, plan.skipped), 0, false, plan.bounce, msg));
      }
      var ctx := new ActionContext(env, balance, endLt, msg, newState, plan.skipped);
      var res := ctx.PerformAll(plan.actions);
      r := ConcludeActions(env, Step(ctx.Value(), res), total);
    }

    /** Takes the value back from the balance and sends it to where it came from. */
    method SendValueBack(msg: Currency, spent: nat, fwdFee: nat, kept: nat) returns (r: Result<BounceOut>)
      requires kept <= fwdFee
      modifies this
      ensures r == SendBack(old(Value()), msg, spent, fwdFee, kept)
      ensures r.Ok? ==> Value() == r.value.exec
    {
      if msg.tokens < spent + fwdFee {
        return Ok(BounceOut(Value(), false, 0, 0));
      }
      var value := msg.(tokens := msg.tokens - spent);
      var left := SubCurrency(balance, value);
      if left.None? {
        return Err(Underflow);
      }
      balance := left.value;
      value := value.(tokens := value.tokens - fwdFee);
      var fees := AddTokens(totalFees, kept);
      if fees.None? {
        return Err(Overflow);
      }
      totalFees := fees.value;
      outMsgs := outMsgs + [BouncedMsg(value, fwdFee - kept, endLt)];
      endLt := endLt + 1;
      return Ok(BounceOut(Value(), true, kept, fwdFee - kept));
    }

    method Bounce(m: Inbound, msg: Currency, gasFees: nat, fine: nat) returns (r: Result<BounceOut>)
      modifies this
      ensures r == BouncePhase(cfg, old(Value()), m, msg, gasFees, fine)
      ensures r.Ok? ==> Value() == r.value.exec
    {
      if !m.header.InInt? {
        return Err(BadMessage);
      }
      if !m.header.srcOk {
        return Err(BadBounceAddress);
      }
      var stats := new ExtStorageStat.WithLimits(Limits(cfg.maxMsgBits, cfg.maxMsgCells));
      var fits := stats.AddCells(BounceRoots(cfg, msg, m.fullBody));
      if !fits {
        return Ok(BounceOut(Value(), false, 0, 0));
      }
      var prices := cfg.Fwd(masterchain || m.header.srcMasterchain);
      var fwdFee := FwdFee(prices, stats.bits, stats.cells);
      r := SendValueBack(msg, gasFees + fine, fwdFee, FirstPart(prices, fwdFee));
    }

    /** Storage and credit in the order the bounce flag asks for. */
    method StoreAndCredit(msg: Received) returns (r: Result<Received>)
      modifies this
      ensures r.Ok? <==> StorageAndCredit(cfg, old(Value()), msg).Ok?
      ensures r.Ok? ==> Credited(Value(), r.value) == StorageAndCredit(cfg, old(Value()), msg).value
      ensures r.Err? ==> r.error == StorageAndCredit(cfg, old(Value()), msg).error
    {
      if msg.bounceEnabled {
        var storage := ChargeStorage(msg.balance, false);
        if storage.Err? {
          return Err(storage.error);
        }
        if !msg.external {
          var credit := CreditMessage(msg.balance);
          if credit.Err? {
            return Err(credit.error);
          }
        }
        return Ok(msg);
      }
      if !msg.external {
        var credit := CreditMessage(msg.balance);
        if credit.Err? {
          return Err(credit.error);
        }
      }
      var storage := ChargeStorage(msg.balance, true);
      if storage.Err? {
        return Err(storage.error);
      }
      return Ok(msg.(balance := storage.value.msg));
    }

    /** Compute, action and bounce. */
    method RunAfterCredit(m: Inbound, msg: Received, vm: Vm) returns (r: Result<TxOut>)
      modifies this
      ensures r == AfterCredit(cfg, old(Value()), m, msg, vm)
      ensures r.Ok? ==> Value() == r.value.exec
    {
      var compute := Compute(msg, vm);
      if compute.Err? {
        return Err(compute.error);
      }
      var c := compute.value;
      if msg.external && !c.accepted {
        return Err(NotAccepted);
      }
      var acted := Acted(c.exec, msg.balance, 0, true, false, false, None);
      if c.success {
        var action := Act(EnvFor(cfg, c), Some(msg.balance), c.newState, c.actions);
        if action.Err? {
          return Err(action.error);
        }
        acted := FromPhase(action.value);
      }
      r := BounceWhenNeeded(m, msg, c.gasFees, acted);
    }

    method BounceWhenNeeded(m: Inbound, msg: Received, gasFees: nat, a: Acted) returns (r: Result<TxOut>)
      requires a.exec == Value()
      modifies this
      ensures r == BounceIfNeeded(cfg, m, msg, gasFees, a)
      ensures r.Ok? ==> Value() == r.value.exec
    {
      var bounced := false;
      if msg.bounceEnabled && a.bounce {
        var b := Bounce(m, a.msg, gasFees, a.fine);
        if b.Err? {
          return Err(b.error);
        }
        bounced := b.value.sent;
      }
      return Ok(TxOut(Value(), !a.success, a.destroyed, bounced, a.phase));
    }

    /** Receives the message, settles storage and credit, and runs the rest. */
    method RunPhases(external: bool, m: Inbound, vm: Vm) returns (r: Result<TxOut>)
      modifies this
      ensures r == RunOrdinary(cfg, old(Value()), external, m, vm)
      ensures r.Ok? ==> Value() == r.value.exec
    {
      var received := ReceiveInMsg(m);
      if received.Err? {
        return Err(received.error);
      }
      if received.value.external != external {
        return Err(BadMessage);
      }
      var credited := StoreAndCredit(received.value);
      if credited.Err? {
        return Err(credited.error);
      }
      r := RunAfterCredit(m, credited.value, vm);
    }

    /** An ordinary transaction on a state that has just begun: nothing is lost of any
        currency, times are in order, and the state never lacks what it is charged. */
    method RunOrdinaryTransaction(external: bool, m: Inbound, vm: Vm) returns (r: Result<TxOut>)
      modifies this
      ensures r == RunOrdinary(cfg, old(Value()), external, m, vm)
      ensures r.Ok? ==> Value() == r.value.exec
      ensures old(Started(Value())) && GasContract(vm) ==>
        && (r.Err? ==> r.error != Underflow && (r.error == Overflow ==> !ValidFlow(old(Value()), m)))
        && (r.Ok? ==>
              && old(balance.tokens) + InboundNative(m) == balance.tokens + totalFees + burned + NativeSum(outMsgs)
              && (forall k :: Amount(old(balance.other), k) + InboundExtra(m, k) == Amount(balance.other, k) + ExtraSum(outMsgs, k))
              && old(startLt) <= startLt && (m.header.InInt? ==> m.header.createdLt < startLt)
              && Consecutive(outMsgs, startLt + 1) && endLt == startLt + 1 + |outMsgs|)
    {
      if Started(Value()) && GasContract(vm) {
        TransactionSound(cfg, Value(), external, m, vm);
      }
      r := RunPhases(external, m, vm);
    }

    /** `commit`: the account to store, if it still exists. */
    method CommitAccount(used: Usage, hash: StateInit -> nat) returns (acc: Option<Account>)
      ensures acc == Commit(Value(), used, hash)
      ensures acc.Some? ==> acc.value.balance == balance && acc.value.lastTransLt == endLt
      ensures acc.None? && !balance.IsZero() ==> endStatus == StNotExists
    {
      var st := FinalState(Value(), hash);
      if st.None? {
        return None;
      }
      acc := Some(Account(used, storage.lastPaid, storage.due, balance, st.value, endLt));
    }
  }

  /** Begins, runs and commits one transaction of an account. A surviving account has
      what it had, plus what came in, less what was paid, burned and sent; and its next
      transaction will lie entirely after this one. */
  method ExecuteOrdinary(acc: Account, tx: Tx) returns (r: Result<TxOut>, next: Option<Account>)
    requires GasContract(tx.vm)
    ensures r == Transact(acc, tx)
    ensures r.Err? ==> next.None? && r.error != Underflow
    ensures r.Ok? ==> next == Commit(r.value.exec, tx.used, tx.hash)
    ensures r.Ok? && next.Some? ==>
      var o := r.value.exec;
      && acc.balance.tokens + InboundNative(tx.msg) == next.value.balance.tokens + o.totalFees + o.burned + NativeSum(o.outMsgs)
      && (forall k :: Amount(acc.balance.other, k) + InboundExtra(tx.msg, k) ==
                      Amount(next.value.balance.other, k) + ExtraSum(o.outMsgs, k))
      && acc.lastTransLt <= o.startLt < next.value.lastTransLt
      && (forall i :: 0 <= i < |o.outMsgs| ==> o.startLt < o.outMsgs[i].createdLt < next.value.lastTransLt)
  {
    var ex := new ExecutorState(tx.cfg, Begin(tx.special, tx.masterchain, tx.address, tx.minLt, Some(acc)));
    r := ex.RunOrdinaryTransaction(tx.external, tx.msg, tx.vm);
    if r.Err? {
      return r, None;
    }
    next := ex.CommitAccount(tx.used, tx.hash);
  }
}
