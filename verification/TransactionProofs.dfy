/** Conservation of money, order of logical time and absence of shortfalls over
    whole ordinary transactions. */
module TransactionProofs {
  import opened Util
  import opened Money
  import opened Cells
  import opened CellStat
  import opened GasPricing
  import opened StorageFees
  import opened Messages
  import opened ExecutorTypes
  import opened ActionSpec
  import opened ActionProofs
  import opened PhaseSpec

  /** Everything native the executor holds or has handed on. */
  ghost function Total(ex: Exec): nat {
    ex.balance.tokens + ex.totalFees + ex.burned + NativeSum(ex.outMsgs)
  }

  ghost function TotalExtra(ex: Exec, k: nat): nat {
    Amount(ex.balance.other, k) + ExtraSum(ex.outMsgs, k)
  }

  /** Tokens an inbound message brings: its value and the unused routing fee. */
  function InboundNative(m: Inbound): nat {
    if m.header.InInt? then m.header.value.tokens + m.header.ihrFee else 0
  }

  function InboundExtra(m: Inbound, k: nat): nat {
    if m.header.InInt? then Amount(m.header.value.other, k) else 0
  }

  /** The executor state as a transaction starts from it. */
  predicate Started(ex: Exec) {
    ex.outMsgs == [] && ex.totalFees == 0 && ex.burned == 0 && ex.endLt == ex.startLt + 1
  }

  /** No message yet, time at its start: what holds until the action phase. */
  predicate Quiet(ex: Exec) {
    ex.outMsgs == [] && ex.endLt == ex.startLt + 1
  }

  ghost predicate CoversMsg(ex: Exec, msg: Currency) {
    msg.tokens <= ex.balance.tokens && Covers(ex.balance.other, msg.other)
  }

  ghost predicate SameExtra(a: Exec, b: Exec) {
    forall k :: TotalExtra(a, k) == TotalExtra(b, k)
  }

  /** All the money in play, with `msg` still to be credited, fits into amounts. */
  ghost predicate Flows(ex: Exec, msg: Currency) {
    && Total(ex) + msg.tokens <= MAX_TOKENS
    && forall k :: TotalExtra(ex, k) + Amount(msg.other, k) <= MAX_EXTRA
  }

  /** What the account has and what the message brings fit together: value flow is valid. */
  ghost predicate ValidFlow(ex: Exec, m: Inbound) {
    && ex.balance.tokens + InboundNative(m) <= MAX_TOKENS
    && forall k :: Amount(ex.balance.other, k) + InboundExtra(m, k) <= MAX_EXTRA
  }

  // ----- Phase by phase -----

  /** What the message brings is either in the state or still to be credited. */
  ghost predicate ReceivedAs(ex: Exec, m: Inbound, w: WithMsg) {
    && Quiet(w.exec)
    && Total(w.exec) + w.msg.balance.tokens == Total(ex) + InboundNative(m)
    && w.exec.balance.other == ex.balance.other
    && (forall k :: Amount(w.msg.balance.other, k) == InboundExtra(m, k))
    && (w.msg.external <==> m.header.InExt?)
    && (w.msg.external ==> w.msg.balance == ZERO && !w.msg.bounceEnabled)
    && ex.startLt <= w.exec.startLt
    && (m.header.InInt? ==> m.header.createdLt < w.exec.startLt)
  }

  lemma ReceiveSound(cfg: Config, ex: Exec, m: Inbound)
    requires Started(ex)
    ensures var r := Receive(cfg, ex, m);
            && (r.Err? ==> r.error == BadMessage || (r.error == Overflow && !ValidFlow(ex, m)))
            && (r.Ok? ==> ReceivedAs(ex, m, r.value))
  {
  }

  lemma StorageSound(cfg: Config, ex: Exec, msg: Currency, adjust: bool)
    requires Quiet(ex)
    ensures var r := StoragePhase(cfg, ex, msg, adjust);
            && (r.Err? ==> r.error == TimeWentBack || (r.error == Overflow && !Flows(ex, ZERO)))
            && (r.Ok? ==>
                  && Quiet(r.value.exec)
                  && Total(r.value.exec) == Total(ex)
                  && r.value.exec.balance.other == ex.balance.other
                  && r.value.exec.startLt == ex.startLt
                  && r.value.msg.other == msg.other && r.value.msg.tokens <= msg.tokens
                  && (adjust ==> r.value.msg.tokens <= r.value.exec.balance.tokens)
                  && (!adjust ==> r.value.msg == msg))
  {
  }

  lemma CreditSound(ex: Exec, msg: Currency)
    requires Quiet(ex)
    ensures var r := CreditPhase(ex, msg);
            && (r.Err? ==> r.error == Overflow && !Flows(ex, msg))
            && (r.Ok? ==>
                  && Quiet(r.value)
                  && Total(r.value) == Total(ex) + msg.tokens
                  && (forall k :: TotalExtra(r.value, k) == TotalExtra(ex, k) + Amount(msg.other, k))
                  && CoversMsg(r.value, msg)
                  && r.value.startLt == ex.startLt)
  {
    if Flows(ex, msg) {
      forall k | k in msg.other ensures Amount(ex.balance.other, k) + msg.other[k] <= MAX_EXTRA {
        assert TotalExtra(ex, k) + Amount(msg.other, k) <= MAX_EXTRA;
      }
    }
  }

  ghost predicate CreditedAs(ex: Exec, msg: Received, c: Credited) {
    && Quiet(c.exec)
    && Total(c.exec) == Total(ex) + msg.balance.tokens
    && (forall k :: TotalExtra(c.exec, k) == TotalExtra(ex, k) + Amount(msg.balance.other, k))
    && CoversMsg(c.exec, c.msg.balance)
    && c.msg == msg.(balance := c.msg.balance)
    && c.exec.startLt == ex.startLt
  }

  lemma StorageAndCreditSound(cfg: Config, ex: Exec, msg: Received)
    requires Quiet(ex) && (msg.external ==> msg.balance == ZERO && !msg.bounceEnabled)
    ensures var r := StorageAndCredit(cfg, ex, msg);
            && (r.Err? ==> r.error == TimeWentBack || (r.error == Overflow && !Flows(ex, msg.balance)))
            && (r.Ok? ==> CreditedAs(ex, msg, r.value))
  {
    if msg.bounceEnabled {
      StorageSound(cfg, ex, msg.balance, false);
      var storage := StoragePhase(cfg, ex, msg.balance, false);
      if storage.Ok? {
        CreditSound(storage.value.exec, msg.balance);
      }
    } else {
      CreditSound(ex, msg.balance);
      var credit := if msg.external then Ok(ex) else CreditPhase(ex, msg.balance);
      if credit.Ok? {
        StorageSound(cfg, credit.value, msg.balance, true);
      }
    }
  }

  ghost predicate ComputedFrom(ex: Exec, external: bool, c: ComputeOut) {
    && Quiet(c.exec)
    && Total(c.exec) == Total(ex)
    && c.exec.balance.other == ex.balance.other
    && c.exec.balance.tokens + c.gasFees == ex.balance.tokens
    && c.exec.startLt == ex.startLt
    && (!external && c.executed ==> c.accepted)
    && (c.success ==> c.executed && c.accepted)
  }

  lemma ChargeSound(cfg: Config, ex: Exec, original: Currency, st: StateInit, deployed: bool, run: VmOutcome, external: bool)
    requires Quiet(ex) && (!external ==> run.credit == 0)
    requires !ex.special ==> GasFee(cfg.Gas(ex.masterchain), Min(run.consumed, run.limit)) <= ex.balance.tokens
    ensures var r := Charge(cfg, ex, original, st, deployed, run);
            && (r.Err? ==> r.error == Overflow && !Flows(ex, ZERO))
            && (r.Ok? ==> ComputedFrom(ex, external, r.value))
  {
  }

  /** The gas fee never exceeds the balance: the machine's limit stays below the
      maximum that this very balance bought. */
  lemma ComputeSound(cfg: Config, ex: Exec, msg: Received, vm: Vm)
    requires Quiet(ex) && CoversMsg(ex, msg.balance) && GasContract(vm)
    ensures var r := ComputePhase(cfg, ex, msg, vm);
            && (r.Err? ==> r.error == Overflow && !Flows(ex, ZERO))
            && (r.Ok? ==> ComputedFrom(ex, msg.external, r.value))
  {
    var original := SubCurrency(ex.balance, msg.balance);
    assert original.Some?;
    var gas := GasFor(cfg, ex, msg);
    GasParamsBounds(cfg.Gas(ex.masterchain), ex.balance.tokens, msg.balance.tokens, ex.special, true, msg.external);
    if ex.balance.tokens != 0 && (gas.limit != 0 || gas.credit != 0) {
      var skipped := ComputeOut(ex, false, false, false, 0, original.value, CurrentState(ex), EndOfList);
      ExecuteSound(cfg, ex, msg, skipped, vm(gas));
    }
  }

  lemma ExecuteSound(cfg: Config, ex: Exec, msg: Received, skipped: ComputeOut, run: VmOutcome)
    requires Quiet(ex) && ComputedFrom(ex, msg.external, skipped)
    requires var gas := GasFor(cfg, ex, msg);
             && ex.balance.tokens != 0 && (gas.limit != 0 || gas.credit != 0)
             && run.limit <= gas.max && (!msg.external ==> run.credit == 0)
    ensures var r := Execute(cfg, ex, msg, skipped, run);
            && (r.Err? ==> r.error == Overflow && !Flows(ex, ZERO))
            && (r.Ok? ==> ComputedFrom(ex, msg.external, r.value))
  {
    if !ex.special {
      GrantedGasIsPayable(cfg.Gas(ex.masterchain), ex.balance.tokens, msg.balance.tokens, true, msg.external, Min(run.consumed, run.limit));
    }
    match DeployDecision(cfg, ex, msg)
    case Refuse =>
    case NoDeploy =>
      ChargeSound(cfg, ex, skipped.original, CurrentState(ex), false, run, msg.external);
    case UseMsgState =>
      var st := msg.init.value.parsed;
      ChargeSound(cfg, ex.(state := Active(st)), skipped.original, st, true, run, msg.external);
  }

  /** What the action phase keeps, whether it ran, failed or completed. */
  ghost predicate ActedFrom(ex: Exec, gasFees: nat, a: Acted) {
    && Total(a.exec) == Total(ex)
    && SameExtra(a.exec, ex)
    && a.exec.startLt == ex.startLt
    && Consecutive(a.exec.outMsgs, ex.endLt)
    && a.exec.endLt == ex.endLt + |a.exec.outMsgs|
    && (a.success ==> !a.bounce)
    && (!a.success ==>
          && a.exec.outMsgs == []
          && a.msg.tokens <= a.exec.balance.tokens + gasFees + a.fine
          && Covers(a.exec.balance.other, a.msg.other))
  }

  /** A failed phase takes at most the fine; what may be bounced stays covered. */
  lemma ActSound(cfg: Config, ex: Exec, c: ComputeOut, msg: Currency, external: bool)
    requires Quiet(ex) && ComputedFrom(ex, external, c) && CoversMsg(ex, msg)
    ensures var r := ActIfComputed(cfg, c, msg);
            && (r.Err? ==> r.error == Overflow && !Flows(ex, ZERO))
            && (r.Ok? ==> ActedFrom(ex, c.gasFees, r.value))
  {
    if c.success {
      ActionPhaseSound(EnvFor(cfg, c), c.exec, Some(msg), c.newState, c.actions);
      FlowsBound(ex, c, external);
      var r := RunPhase(EnvFor(cfg, c), c.exec, Some(msg), c.newState, c.actions);
      if r.Ok? {
        PhaseActed(EnvFor(cfg, c), ex, c, msg, r.value, external);
      }
    }
  }

  lemma FlowsBound(ex: Exec, c: ComputeOut, external: bool)
    requires Quiet(ex) && ComputedFrom(ex, external, c)
    ensures Flows(ex, ZERO) ==> Bounded(c.exec.balance) && c.exec.balance.tokens + c.exec.totalFees <= MAX_TOKENS
  {
    if Flows(ex, ZERO) {
      forall k ensures Amount(c.exec.balance.other, k) <= MAX_EXTRA {
        assert TotalExtra(ex, k) + Amount(ZERO.other, k) <= MAX_EXTRA;
      }
    }
  }

  lemma PhaseActed(env: Env, ex: Exec, c: ComputeOut, msg: Currency, o: PhaseOut, external: bool)
    requires Quiet(ex) && ComputedFrom(ex, external, c) && CoversMsg(ex, msg)
    requires PhaseSound(env, c.exec, Some(msg), o)
    ensures ActedFrom(ex, c.gasFees, FromPhase(o))
  {
    forall k ensures TotalExtra(o.exec, k) == TotalExtra(ex, k) {
      assert Amount(o.exec.balance.other, k) + ExtraSum(o.exec.outMsgs, k) == Amount(c.exec.balance.other, k);
    }
  }

  /** What a finished transaction has kept, compared to the state after credit. */
  ghost predicate FinishedFrom(ex: Exec, o: Exec) {
    && Total(o) == Total(ex)
    && SameExtra(o, ex)
    && o.startLt == ex.startLt
    && Consecutive(o.outMsgs, ex.endLt)
    && o.endLt == ex.endLt + |o.outMsgs|
  }

  /** The value sent back is covered, and leaves with its fee. */
  lemma SendBackSound(ex: Exec, msg: Currency, spent: nat, fwdFee: nat, kept: nat)
    requires ex.outMsgs == [] && kept <= fwdFee
    requires msg.tokens <= ex.balance.tokens + spent && Covers(ex.balance.other, msg.other)
    ensures var r := SendBack(ex, msg, spent, fwdFee, kept);
            && (r.Err? ==> r.error == Overflow && !Flows(ex, ZERO))
            && (r.Ok? ==> FinishedFrom(ex, r.value.exec))
  {
    SendBackResult(ex, msg, spent, fwdFee, kept);
    if msg.tokens < spent + fwdFee {
      NothingMoved(ex);
    } else if ex.totalFees + kept > MAX_TOKENS {
      KeptOverflow(ex, kept);
    } else {
      var value := msg.(tokens := msg.tokens - spent);
      SentBack(ex, SubCurrency(ex.balance, value).value, value, Returned(ex, value, fwdFee, kept), kept);
    }
  }

  function Returned(ex: Exec, value: Currency, fwdFee: nat, kept: nat): OutMsg
    requires kept <= fwdFee <= value.tokens
  {
    BouncedMsg(value.(tokens := value.tokens - fwdFee), fwdFee - kept, ex.endLt)
  }

  lemma SendBackResult(ex: Exec, msg: Currency, spent: nat, fwdFee: nat, kept: nat)
    requires kept <= fwdFee
    requires msg.tokens <= ex.balance.tokens + spent && Covers(ex.balance.other, msg.other)
    ensures var r := SendBack(ex, msg, spent, fwdFee, kept);
            if msg.tokens < spent + fwdFee then r == Ok(BounceOut(ex, false, 0, 0))
            else if ex.totalFees + kept > MAX_TOKENS then r == Err(Overflow)
            else
              var value := msg.(tokens := msg.tokens - spent);
              && SubCurrency(ex.balance, value).Some?
              && r.Ok?
              && r.value.exec == AfterSendBack(ex, SubCurrency(ex.balance, value).value, Returned(ex, value, fwdFee, kept), kept)
  {
    if msg.tokens >= spent + fwdFee {
      CoveredValue(ex, msg.(tokens := msg.tokens - spent));
    }
  }

  lemma CoveredValue(ex: Exec, value: Currency)
    requires value.tokens <= ex.balance.tokens && Covers(ex.balance.other, value.other)
    ensures SubCurrency(ex.balance, value).Some?
  {
  }

  lemma KeptOverflow(ex: Exec, kept: nat)
    requires kept <= ex.balance.tokens
    ensures AddTokens(ex.totalFees, kept).None? ==> !Flows(ex, ZERO)
  {
  }

  lemma NothingMoved(ex: Exec)
    requires ex.outMsgs == []
    ensures FinishedFrom(ex, ex)
  {
  }

  function AfterSendBack(ex: Exec, balance: Currency, out: OutMsg, kept: nat): Exec {
    ex.(balance := balance, totalFees := ex.totalFees + kept, outMsgs := ex.outMsgs + [out], endLt := ex.endLt + 1)
  }

  lemma SentBack(ex: Exec, balance: Currency, value: Currency, out: OutMsg, kept: nat)
    requires ex.outMsgs == [] && SubCurrency(ex.balance, value) == Some(balance)
    requires !out.ExtMsg? && out.value.other == value.other && NativeOf(out) + kept == value.tokens
    requires out.createdLt == ex.endLt
    ensures FinishedFrom(ex, AfterSendBack(ex, balance, out, kept))
  {
    var o := AfterSendBack(ex, balance, out, kept);
    AppendSums([], out);
    forall k ensures TotalExtra(o, k) == TotalExtra(ex, k) {
      assert ExtraSum([] + [out], k) == ExtraSum([], k) + ExtraOf(out, k);
    }
  }

  lemma BouncePhaseSound(cfg: Config, ex: Exec, m: Inbound, msg: Currency, gasFees: nat, fine: nat)
    requires ex.outMsgs == []
    requires msg.tokens <= ex.balance.tokens + gasFees + fine && Covers(ex.balance.other, msg.other)
    ensures var r := BouncePhase(cfg, ex, m, msg, gasFees, fine);
            && (r.Err? ==> r.error in {BadMessage, BadBounceAddress} || (r.error == Overflow && !Flows(ex, ZERO)))
            && (r.Ok? ==> FinishedFrom(ex, r.value.exec))
  {
    if m.header.InInt? && m.header.srcOk {
      var visit := VisitAll(FRESH, Limits(cfg.maxMsgBits, cfg.maxMsgCells), BounceRoots(cfg, msg, m.fullBody), 0);
      var prices := cfg.Fwd(ex.masterchain || m.header.srcMasterchain);
      var fwdFee := FwdFee(prices, visit.0.bits, visit.0.cells);
      SendBackSound(ex, msg, gasFees + fine, fwdFee, FirstPart(prices, fwdFee));
      if visit.1.None? {
        NothingMoved(ex);
      } else {
        assert BouncePhase(cfg, ex, m, msg, gasFees, fine) == SendBack(ex, msg, gasFees + fine, fwdFee, FirstPart(prices, fwdFee));
      }
    }
  }

  lemma SameFlows(a: Exec, b: Exec)
    requires Total(a) == Total(b) && SameExtra(a, b)
    ensures Flows(a, ZERO) <==> Flows(b, ZERO)
  {
    assert forall k :: TotalExtra(a, k) == TotalExtra(b, k);
  }

  lemma BounceSound(cfg: Config, ex: Exec, m: Inbound, msg: Received, gasFees: nat, a: Acted)
    requires Quiet(ex) && ActedFrom(ex, gasFees, a)
    ensures var r := BounceIfNeeded(cfg, m, msg, gasFees, a);
            && (r.Err? ==> r.error in {BadMessage, BadBounceAddress} || (r.error == Overflow && !Flows(ex, ZERO)))
            && (r.Ok? ==> FinishedFrom(ex, r.value.exec))
  {
    if msg.bounceEnabled && a.bounce {
      BouncePhaseSound(cfg, a.exec, m, a.msg, gasFees, a.fine);
      SameFlows(a.exec, ex);
      var b := BouncePhase(cfg, a.exec, m, a.msg, gasFees, a.fine);
      if b.Ok? {
        FinishedChain(ex, a.exec, b.value.exec);
      }
    }
  }

  lemma FinishedChain(ex: Exec, a: Exec, o: Exec)
    requires FinishedFrom(ex, a) && a.outMsgs == [] && FinishedFrom(a, o)
    ensures FinishedFrom(ex, o)
  {
    assert forall k :: TotalExtra(a, k) == TotalExtra(ex, k);
  }

  lemma AfterCreditSound(cfg: Config, ex: Exec, m: Inbound, msg: Received, vm: Vm)
    requires Quiet(ex) && CoversMsg(ex, msg.balance) && GasContract(vm)
    ensures var r := AfterCredit(cfg, ex, m, msg, vm);
            && (r.Err? ==> r.error != Underflow && (r.error == Overflow ==> !Flows(ex, ZERO)))
            && (r.Ok? ==> FinishedFrom(ex, r.value.exec))
  {
    ComputeSound(cfg, ex, msg, vm);
    var compute := ComputePhase(cfg, ex, msg, vm);
    if compute.Ok? {
      ActSound(cfg, ex, compute.value, msg.balance, msg.external);
      var acted := ActIfComputed(cfg, compute.value, msg.balance);
      if acted.Ok? {
        BounceSound(cfg, ex, m, msg, compute.value.gasFees, acted.value);
      }
    }
  }

  // ----- The theorems -----

  /** How an ordinary transaction may end: without one, never for want of money and
      overflowing only if the inputs were out of range; or with every amount of every
      currency accounted for and all logical times in order. */
  ghost predicate Settled(ex: Exec, m: Inbound, r: Result<TxOut>) {
    && (r.Err? ==> r.error != Underflow && (r.error == Overflow ==> !ValidFlow(ex, m)))
    && (r.Ok? ==> SettledAs(ex, m, r.value.exec))
  }

  ghost predicate SettledAs(ex: Exec, m: Inbound, o: Exec) {
    && ex.balance.tokens + InboundNative(m) == o.balance.tokens + o.totalFees + o.burned + NativeSum(o.outMsgs)
    && (forall k :: Amount(ex.balance.other, k) + InboundExtra(m, k) ==
                    Amount(o.balance.other, k) + ExtraSum(o.outMsgs, k))
    && ex.startLt <= o.startLt
    && (m.header.InInt? ==> m.header.createdLt < o.startLt)
    && Consecutive(o.outMsgs, o.startLt + 1)
    && o.endLt == o.startLt + 1 + |o.outMsgs|
  }

  /** For every ordinary transaction that completes, in every currency: what the
      account had and what the message brought is what the account has, what was
      collected, burned, and sent away. Messages are stamped with consecutive logical
      times after the transaction's own, which is after the inbound message's. For
      every transaction at all: no phase asks for more than the balance holds, and no
      amount overflows unless the value flow was invalid to begin with. */
  lemma TransactionSound(cfg: Config, ex: Exec, external: bool, m: Inbound, vm: Vm)
    requires Started(ex) && GasContract(vm)
    ensures Settled(ex, m, RunOrdinary(cfg, ex, external, m, vm))
  {
    ReceiveSound(cfg, ex, m);
    var received := Receive(cfg, ex, m);
    if received.Ok? && received.value.msg.external == external {
      SettlesAfterReceive(cfg, ex, m, received.value, vm);
    }
  }

  function AfterReceive(cfg: Config, m: Inbound, w: WithMsg, vm: Vm): Result<TxOut> {
    var credited := StorageAndCredit(cfg, w.exec, w.msg);
    if credited.Err? then Err(credited.error)
    else AfterCredit(cfg, credited.value.exec, m, credited.value.msg, vm)
  }

  lemma SettlesAfterReceive(cfg: Config, ex: Exec, m: Inbound, w: WithMsg, vm: Vm)
    requires Started(ex) && GasContract(vm) && ReceivedAs(ex, m, w)
    ensures Settled(ex, m, AfterReceive(cfg, m, w, vm))
  {
    StorageAndCreditSound(cfg, w.exec, w.msg);
    SameInflow(ex, m, w);
    var credited := StorageAndCredit(cfg, w.exec, w.msg);
    if credited.Ok? {
      var c := credited.value;
      FlowsAfterCredit(w, c);
      AfterCreditSound(cfg, c.exec, m, c.msg, vm);
      var r := AfterCredit(cfg, c.exec, m, c.msg, vm);
      if r.Ok? {
        SettledChain(ex, m, w, c, r.value.exec);
      }
    }
  }

  lemma SameInflow(ex: Exec, m: Inbound, w: WithMsg)
    requires Started(ex) && ReceivedAs(ex, m, w)
    ensures Flows(w.exec, w.msg.balance) <==> ValidFlow(ex, m)
  {
    assert forall k :: TotalExtra(w.exec, k) + Amount(w.msg.balance.other, k) ==
                       Amount(ex.balance.other, k) + InboundExtra(m, k);
  }

  lemma FlowsAfterCredit(w: WithMsg, c: Credited)
    requires CreditedAs(w.exec, w.msg, c)
    ensures Flows(c.exec, ZERO) <==> Flows(w.exec, w.msg.balance)
  {
    assert forall k :: TotalExtra(c.exec, k) == TotalExtra(w.exec, k) + Amount(w.msg.balance.other, k);
  }

  lemma SettledChain(ex: Exec, m: Inbound, w: WithMsg, c: Credited, o: Exec)
    requires Started(ex) && ReceivedAs(ex, m, w) && CreditedAs(w.exec, w.msg, c) && FinishedFrom(c.exec, o)
    ensures SettledAs(ex, m, o)
  {
    forall k ensures Amount(ex.balance.other, k) + InboundExtra(m, k) == Amount(o.balance.other, k) + ExtraSum(o.outMsgs, k) {
      assert TotalExtra(o, k) == TotalExtra(c.exec, k);
      assert TotalExtra(c.exec, k) == TotalExtra(w.exec, k) + Amount(w.msg.balance.other, k);
      assert TotalExtra(w.exec, k) == Amount(ex.balance.other, k);
    }
  }
}
