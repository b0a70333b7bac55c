/** When a transaction sends its message back, what then comes back, and which state stays. */
module BounceMeaning {
  import opened Util
  import opened Money
  import opened Cells
  import opened CellStat
  import opened Messages
  import opened ExecutorTypes
  import opened ActionSpec
  import opened ActionProofs
  import opened PhaseSpec
  import opened TransactionProofs
  import opened PhaseOutcome
  import opened ReceiveMeaning
  import opened ComputeMeaning

  // ----- After the run -----

  /** What the actions know: the account, what it had before the message, and what the
      run has cost. */
  function Around(cfg: Config, c: ComputeOut): Env {
    Env(cfg, c.exec.special, c.exec.masterchain, c.original, c.gasFees)
  }

  /** The action phase that follows a run with something committed. */
  function Actions(cfg: Config, c: ComputeOut, msg: Currency): Result<PhaseOut> {
    RunPhase(Around(cfg, c), c.exec, Some(msg), c.newState, c.actions)
  }

  /** What of the inbound value has not been sent on. */
  function LeftOver(cfg: Config, c: ComputeOut, msg: Currency): Currency {
    if !c.success then msg
    else if Actions(cfg, c, msg).Ok? && Actions(cfg, c, msg).value.msgBalance.Some? then Actions(cfg, c, msg).value.msgBalance.value
    else ZERO
  }

  function FineOf(cfg: Config, c: ComputeOut, msg: Currency): nat {
    if c.success && Actions(cfg, c, msg).Ok? then Actions(cfg, c, msg).value.fine else 0
  }

  /** The run did not succeed, or its actions ask for a bounce. */
  ghost predicate Unsuccessful(cfg: Config, c: ComputeOut, msg: Currency) {
    !c.success || AsksForBounce(Around(cfg, c), c.exec, Some(msg), c.newState, c.actions)
  }

  // ----- The way back -----

  /** The cells a bounced message is charged for. */
  function CellsBack(cfg: Config, m: Inbound, left: Currency): seq<Cell> {
    (if cfg.dictRoot(left.other).Some? then [cfg.dictRoot(left.other).value] else [])
    + (if cfg.fullBodyInBounced then [m.fullBody] else [])
  }

  function PricesBack(cfg: Config, ex: Exec, m: Inbound): FwdPrices {
    if ex.masterchain || (m.header.InInt? && m.header.srcMasterchain) then cfg.mcFwdPrices else cfg.fwdPrices
  }

  ghost function FeeBack(cfg: Config, ex: Exec, m: Inbound, left: Currency): nat {
    var reach := ReachAll(CellsBack(cfg, m, left));
    FwdFee(PricesBack(cfg, ex, m), BitSum(reach), |reach|)
  }

  /** The way back fits the limits and what is left pays for gas, fine and fee. */
  ghost predicate CanReturn(cfg: Config, ex: Exec, m: Inbound, left: Currency, spent: nat) {
    var reach := ReachAll(CellsBack(cfg, m, left));
    && Fits(reach, Limits(cfg.maxMsgBits, cfg.maxMsgCells)) && Shallow(reach)
    && left.tokens >= spent + FeeBack(cfg, ex, m, left)
  }

  /** The message that goes back: all that is left, less what was spent and the fee. */
  ghost predicate ComesBack(cfg: Config, ex: Exec, m: Inbound, left: Currency, spent: nat, out: OutMsg) {
    var fee := FeeBack(cfg, ex, m, left);
    && out.BouncedMsg?
    && out.value.tokens == left.tokens - spent - fee && out.value.other == left.other
    && out.fwdFee == fee - FirstPart(PricesBack(cfg, ex, m), fee)
  }

  lemma BounceExactly(cfg: Config, ex: Exec, m: Inbound, left: Currency, gasFees: nat, fine: nat)
    requires BouncePhase(cfg, ex, m, left, gasFees, fine).Ok?
    ensures var b := BouncePhase(cfg, ex, m, left, gasFees, fine).value;
            && (b.sent <==> CanReturn(cfg, ex, m, left, gasFees + fine))
            && (!b.sent ==> b.exec == ex)
            && b.exec.state == ex.state && b.exec.endStatus == ex.endStatus
            && (b.sent ==>
                  && |b.exec.outMsgs| == |ex.outMsgs| + 1 && b.exec.outMsgs[..|ex.outMsgs|] == ex.outMsgs
                  && ComesBack(cfg, ex, m, left, gasFees + fine, b.exec.outMsgs[|ex.outMsgs|]))
  {
    assert BounceRoots(cfg, left, m.fullBody) == CellsBack(cfg, m, left);
    FreshCounterIsExact(Limits(cfg.maxMsgBits, cfg.maxMsgCells), CellsBack(cfg, m, left));
  }

  // ----- From the credited message to the end -----

  /** A credited message is sent back if and only if it is bounceable, the run or its
      actions were unsuccessful, and the way back is paid for. It is then the only
      message; otherwise the messages are those of the actions. */
  ghost predicate SendsBack(cfg: Config, c: ComputeOut, m: Inbound, msg: Received) {
    && msg.bounceEnabled && Unsuccessful(cfg, c, msg.balance)
    && CanReturn(cfg, c.exec, m, LeftOver(cfg, c, msg.balance), c.gasFees + FineOf(cfg, c, msg.balance))
  }

  ghost predicate EndsWith(cfg: Config, c: ComputeOut, m: Inbound, msg: Received, o: TxOut) {
    var acted := c.success && Actions(cfg, c, msg.balance).Ok?;
    && (c.success ==> acted)
    && (o.bounced <==> SendsBack(cfg, c, m, msg))
    && (o.bounced ==>
          && |o.exec.outMsgs| == 1
          && ComesBack(cfg, c.exec, m, LeftOver(cfg, c, msg.balance), c.gasFees + FineOf(cfg, c, msg.balance), o.exec.outMsgs[0]))
    && (!o.bounced ==>
          && (forall x :: x in o.exec.outMsgs ==> !x.BouncedMsg?)
          && o.exec.outMsgs == if acted then Actions(cfg, c, msg.balance).value.exec.outMsgs else c.exec.outMsgs)
    && (o.aborted <==> !(acted && Actions(cfg, c, msg.balance).value.phase.success))
    && (o.destroyed <==> acted && Actions(cfg, c, msg.balance).value.exec.endStatus == StNotExists)
    && StateStays(c, o)
  }

  /** If everything went through, the data the code committed is what the account has
      now; otherwise the account has the state the code was run in. */
  ghost predicate StateStays(c: ComputeOut, o: TxOut) {
    if !o.aborted then o.exec.state.Active? && o.exec.state.init.data == c.newState.data
    else o.exec.state == c.exec.state
  }

  /** What the action phase hands on, for the bounce decision. */
  ghost predicate ActedAs(cfg: Config, c: ComputeOut, msg: Currency, a: Acted) {
    && a.msg == LeftOver(cfg, c, msg) && a.fine == FineOf(cfg, c, msg)
    && (a.bounce <==> Unsuccessful(cfg, c, msg))
    && a.exec.masterchain == c.exec.masterchain
    && (a.bounce ==> a.exec.outMsgs == [])
    && (forall x :: x in a.exec.outMsgs ==> !x.BouncedMsg?)
    && (if c.success then
          && Actions(cfg, c, msg).Ok?
          && var p := Actions(cfg, c, msg).value;
          && a.exec == p.exec && a.success == p.phase.success && a.destroyed == (p.exec.endStatus == StNotExists)
          && (if p.phase.success then p.exec.state.Active? && p.exec.state.init.data == c.newState.data else p.exec.state == c.exec.state)
        else a.exec == c.exec && !a.success && !a.destroyed)
  }

  lemma ActMeaning(cfg: Config, c: ComputeOut, msg: Currency)
    requires c.exec.outMsgs == [] && ActIfComputed(cfg, c, msg).Ok?
    ensures ActedAs(cfg, c, msg, ActIfComputed(cfg, c, msg).value)
  {
    if c.success {
      var env := Around(cfg, c);
      var p := Actions(cfg, c, msg).value;
      ActionPhaseSound(env, c.exec, Some(msg), c.newState, c.actions);
      BounceIsAskedFor(env, c.exec, Some(msg), c.newState, c.actions);
      PhaseMeaning(env, c.exec, Some(msg), c.newState, c.actions);
      PhaseState(env, c.exec, Some(msg), c.newState, c.actions, p);
    }
  }

  lemma PhaseState(env: Env, ex: Exec, msg: Option<Currency>, st: StateInit, chain: Chain, p: PhaseOut)
    requires ex.outMsgs == [] && EndsAs(env, ex, msg, st, chain, p)
    ensures if p.phase.success then p.exec.state.Active? && p.exec.state.init.data == st.data else p.exec.state == ex.state
    ensures forall x :: x in p.exec.outMsgs ==> !x.BouncedMsg?
    ensures p.stateExceeds || p.bounce ==> !p.phase.success
    ensures !p.phase.success ==> p.exec.outMsgs == []
  {
    if Readable(chain) && AllAcceptable(chain) {
      RunOutcome(env, ex, msg, st, chain);
    }
  }

  lemma BounceDecision(cfg: Config, c: ComputeOut, m: Inbound, msg: Received, a: Acted)
    requires ActedAs(cfg, c, msg.balance, a) && BounceIfNeeded(cfg, m, msg, c.gasFees, a).Ok?
    ensures EndsWith(cfg, c, m, msg, BounceIfNeeded(cfg, m, msg, c.gasFees, a).value)
  {
    if msg.bounceEnabled && a.bounce {
      BounceExactly(cfg, a.exec, m, a.msg, c.gasFees, a.fine);
      SameWayBack(cfg, a.exec, c.exec, m, a.msg, c.gasFees + a.fine);
    }
  }

  lemma SameWayBack(cfg: Config, a: Exec, b: Exec, m: Inbound, left: Currency, spent: nat)
    requires a.masterchain == b.masterchain
    ensures CanReturn(cfg, a, m, left, spent) <==> CanReturn(cfg, b, m, left, spent)
    ensures forall out :: ComesBack(cfg, a, m, left, spent, out) <==> ComesBack(cfg, b, m, left, spent, out)
  {
  }

  lemma AfterCreditMeaning(cfg: Config, ex: Exec, m: Inbound, msg: Received, vm: Vm)
    requires ex.outMsgs == [] && AfterCredit(cfg, ex, m, msg, vm).Ok?
    ensures ComputePhase(cfg, ex, msg, vm).Ok?
    ensures EndsWith(cfg, ComputePhase(cfg, ex, msg, vm).value, m, msg, AfterCredit(cfg, ex, m, msg, vm).value)
  {
    var c := ComputePhase(cfg, ex, msg, vm).value;
    ComputeMeaning.ComputeMeaning(cfg, ex, msg, vm);
    ActMeaning(cfg, c, msg.balance);
    BounceDecision(cfg, c, m, msg, ActIfComputed(cfg, c, msg.balance).value);
  }

  // ----- The whole transaction -----

  /** The state and message after receipt, storage and credit. */
  function Prepared(cfg: Config, ex: Exec, m: Inbound): Result<Credited> {
    var w := Receive(cfg, ex, m);
    if w.Err? then Err(w.error) else StorageAndCredit(cfg, w.value.exec, w.value.msg)
  }

  /** Every ordinary transaction that completes, from its header to its messages and its
      state: it sends the message back if and only if the header is internal with its
      bounce flag set, the run did not succeed or its actions ask for it, and the way back
      fits and is paid for. */
  lemma TransactionMeaning(cfg: Config, ex: Exec, external: bool, m: Inbound, vm: Vm)
    requires Started(ex) && RunOrdinary(cfg, ex, external, m, vm).Ok?
    ensures Prepared(cfg, ex, m).Ok?
    ensures var c := Prepared(cfg, ex, m).value;
            && ComputePhase(cfg, c.exec, c.msg, vm).Ok?
            && var run := ComputePhase(cfg, c.exec, c.msg, vm).value;
            && EndsWith(cfg, run, m, c.msg, RunOrdinary(cfg, ex, external, m, vm).value)
            && (c.msg.bounceEnabled <==> m.header.InInt? && m.header.bounce)
  {
    ReceiveSound(cfg, ex, m);
    ReceiveIff(cfg, ex, m);
    var w := Receive(cfg, ex, m).value;
    StorageAndCreditSound(cfg, w.exec, w.msg);
    var c := Prepared(cfg, ex, m).value;
    AfterCreditMeaning(cfg, c.exec, m, c.msg, vm);
  }
}
