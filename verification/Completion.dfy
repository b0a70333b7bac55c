/** Which ordinary transactions complete, and why the others do not. */
module Completion {
  import opened Util
  import opened Money
  import opened GasPricing
  import opened Messages
  import opened ExecutorTypes
  import opened ActionSpec
  import opened ActionProofs
  import opened PhaseSpec
  import opened TransactionProofs
  import opened ReceiveMeaning
  import opened StorageMeaning
  import opened ComputeMeaning
  import opened BounceMeaning

  /** The run an external message needs: code ran and gave back all its credit. */
  ghost predicate RanWithoutCredit(cfg: Config, ex: Exec, msg: Received, vm: Vm) {
    && HasGas(cfg, ex, msg) && (RunsOwn(ex, msg) || Deploys(cfg, ex, msg))
    && vm(GasFor(cfg, ex, msg)).credit == 0
  }

  /** Arithmetic errors, which the balance and a valid value flow exclude. */
  predicate Arithmetic(e: Failure) {
    e == Underflow || e == Overflow
  }

  lemma ActErrors(cfg: Config, c: ComputeOut, msg: Currency)
    ensures var a := ActIfComputed(cfg, c, msg);
            a.Err? ==> Arithmetic(a.error)
  {
  }

  /** After the credit phase there are two ways to fail: an external message that was
      not accepted, and a way back without an address. */
  ghost predicate EndsAfterCredit(cfg: Config, ex: Exec, m: Inbound, msg: Received, vm: Vm, r: Result<TxOut>)
    requires ComputePhase(cfg, ex, msg, vm).Ok?
  {
    var c := ComputePhase(cfg, ex, msg, vm).value;
    if msg.external && !RanWithoutCredit(cfg, ex, msg, vm) then r == Err(NotAccepted)
    else if msg.bounceEnabled && Unsuccessful(cfg, c, msg.balance) && !(m.header.InInt? && m.header.srcOk) then
      r.Err? && (r.error == (if m.header.InInt? then BadBounceAddress else BadMessage) || Arithmetic(r.error))
    else r.Ok? || Arithmetic(r.error)
  }

  lemma BounceErrors(cfg: Config, m: Inbound, msg: Received, gasFees: nat, a: Acted)
    ensures var r := BounceIfNeeded(cfg, m, msg, gasFees, a);
            if msg.bounceEnabled && a.bounce && !(m.header.InInt? && m.header.srcOk)
            then r == Err(if m.header.InInt? then BadBounceAddress else BadMessage)
            else r.Ok? || Arithmetic(r.error)
  {
  }

  lemma AfterCreditEnds(cfg: Config, ex: Exec, m: Inbound, msg: Received, vm: Vm)
    requires ex.outMsgs == [] && ComputePhase(cfg, ex, msg, vm).Ok?
    ensures EndsAfterCredit(cfg, ex, m, msg, vm, AfterCredit(cfg, ex, m, msg, vm))
  {
    var c := ComputePhase(cfg, ex, msg, vm).value;
    ComputeMeaning.ComputeMeaning(cfg, ex, msg, vm);
    ActErrors(cfg, c, msg.balance);
    var a := ActIfComputed(cfg, c, msg.balance);
    if a.Ok? {
      ActMeaning(cfg, c, msg.balance);
      BounceErrors(cfg, m, msg, c.gasFees, a.value);
    }
  }

  /** The message is for this account, can be read and paid for, and is of the kind the
      executor was called for. */
  ghost predicate Arrives(cfg: Config, ex: Exec, external: bool, m: Inbound) {
    Receivable(cfg, ex, m) && (external <==> m.header.InExt?)
  }

  /** Why a transaction does not complete, if it does not. */
  ghost function WhyNot(cfg: Config, c: Credited, m: Inbound, vm: Vm): Option<Failure>
    requires ComputePhase(cfg, c.exec, c.msg, vm).Ok?
  {
    var run := ComputePhase(cfg, c.exec, c.msg, vm).value;
    if c.msg.external && !RanWithoutCredit(cfg, c.exec, c.msg, vm) then Some(NotAccepted)
    else if m.header.InInt? && m.header.bounce && Unsuccessful(cfg, run, c.msg.balance) && !m.header.srcOk then Some(BadBounceAddress)
    else None
  }

  ghost predicate Ends(cfg: Config, ex: Exec, external: bool, m: Inbound, vm: Vm, r: Result<TxOut>) {
    if !Arrives(cfg, ex, external, m) then r == Err(BadMessage)
    else if ex.lastPaid > cfg.now then r == Err(TimeWentBack)
    else
      && Prepared(cfg, ex, m).Ok?
      && var c := Prepared(cfg, ex, m).value;
      && ComputePhase(cfg, c.exec, c.msg, vm).Ok?
      && match WhyNot(cfg, c, m, vm)
         case None => r.Ok?
         case Some(e) => r == Err(e)
  }

  /** If the value flow is valid, a transaction completes if and only if its message
      arrives, time has not gone backwards, an external message is accepted by a run that
      needed no credit, and a message that must go back says where to. Each failure has
      its own reason; none is for want of money. */
  lemma TransactionCompletesIff(cfg: Config, ex: Exec, external: bool, m: Inbound, vm: Vm)
    requires Started(ex) && GasContract(vm) && ValidFlow(ex, m)
    ensures Ends(cfg, ex, external, m, vm, RunOrdinary(cfg, ex, external, m, vm))
  {
    ReceiveIff(cfg, ex, m);
    ReceiveSound(cfg, ex, m);
    TransactionSound(cfg, ex, external, m, vm);
    if Arrives(cfg, ex, external, m) {
      var w := Receive(cfg, ex, m).value;
      PreparedIff(cfg, ex, m, w);
      SettlesAfterReceive(cfg, ex, m, w, vm);
      if ex.lastPaid <= cfg.now {
        RunsToTheEnd(cfg, ex, m, w, vm);
      }
    }
  }

  lemma PreparedIff(cfg: Config, ex: Exec, m: Inbound, w: WithMsg)
    requires Started(ex) && ValidFlow(ex, m) && Receive(cfg, ex, m) == Ok(w) && ReceivedAs(ex, m, w)
    ensures var s := StorageAndCredit(cfg, w.exec, w.msg);
            if ex.lastPaid > cfg.now then s == Err(TimeWentBack) else s.Ok? && CreditedAs(w.exec, w.msg, s.value)
  {
    SameInflow(ex, m, w);
    StorageAndCreditSound(cfg, w.exec, w.msg);
    CreditSound(w.exec, w.msg.balance);
  }

  lemma RunsToTheEnd(cfg: Config, ex: Exec, m: Inbound, w: WithMsg, vm: Vm)
    requires Started(ex) && GasContract(vm) && ValidFlow(ex, m)
    requires Receive(cfg, ex, m) == Ok(w) && ReceivedAs(ex, m, w) && ReceivedExactly(cfg, ex, m, w)
    requires StorageAndCredit(cfg, w.exec, w.msg).Ok? && CreditedAs(w.exec, w.msg, StorageAndCredit(cfg, w.exec, w.msg).value)
    ensures var c := StorageAndCredit(cfg, w.exec, w.msg).value;
            && ComputePhase(cfg, c.exec, c.msg, vm).Ok?
            && match WhyNot(cfg, c, m, vm)
               case None => AfterCredit(cfg, c.exec, m, c.msg, vm).Ok?
               case Some(e) => AfterCredit(cfg, c.exec, m, c.msg, vm) == Err(e)
  {
    var c := StorageAndCredit(cfg, w.exec, w.msg).value;
    SameInflow(ex, m, w);
    FlowsAfterCredit(w, c);
    ComputeSound(cfg, c.exec, c.msg, vm);
    AfterCreditSound(cfg, c.exec, m, c.msg, vm);
    AfterCreditEnds(cfg, c.exec, m, c.msg, vm);
  }
}
