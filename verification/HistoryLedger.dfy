/** What an account pays for storage over its whole history: the storage phases of its
    transactions form one ledger. */
module HistoryLedger {
  import opened Util
  import opened Money
  import opened GasPricing
  import opened StorageFees
  import opened Messages
  import opened ExecutorTypes
  import opened ActionSpec
  import opened ActionProofs
  import opened PhaseSpec
  import opened TransactionProofs
  import opened ReceiveMeaning
  import opened ComputeMeaning
  import opened StorageMeaning
  import opened History

  // ----- What only a storage phase changes -----

  predicate SameClock(a: Exec, b: Exec) {
    && a.lastPaid == b.lastPaid && a.due == b.due && a.used == b.used
    && a.special == b.special && a.masterchain == b.masterchain && a.address == b.address
  }

  lemma ActClock(cfg: Config, c: ComputeOut, msg: Currency)
    requires c.exec.outMsgs == [] && ActIfComputed(cfg, c, msg).Ok?
    ensures SameClock(c.exec, ActIfComputed(cfg, c, msg).value.exec)
  {
    if c.success {
      ActionPhaseSound(EnvFor(cfg, c), c.exec, Some(msg), c.newState, c.actions);
    }
  }

  lemma BounceClock(cfg: Config, m: Inbound, msg: Received, gasFees: nat, a: Acted)
    requires BounceIfNeeded(cfg, m, msg, gasFees, a).Ok?
    ensures SameClock(a.exec, BounceIfNeeded(cfg, m, msg, gasFees, a).value.exec)
  {
  }

  lemma AfterCreditClock(cfg: Config, ex: Exec, m: Inbound, msg: Received, vm: Vm)
    requires ex.outMsgs == [] && AfterCredit(cfg, ex, m, msg, vm).Ok?
    ensures SameClock(ex, AfterCredit(cfg, ex, m, msg, vm).value.exec)
  {
    ComputeMeaning.ComputeMeaning(cfg, ex, msg, vm);
    var c := ComputePhase(cfg, ex, msg, vm).value;
    ActClock(cfg, c, msg.balance);
    BounceClock(cfg, m, msg, c.gasFees, ActIfComputed(cfg, c, msg.balance).value);
  }

  // ----- The storage phase of a transaction -----

  /** What a storage phase meets: the account before the message is credited if that can
      bounce, and after it otherwise. */
  function StorageOf(cfg: Config, w: WithMsg): Payment {
    var credit := CreditPhase(w.exec, w.msg.balance);
    if w.msg.bounceEnabled then Payment(cfg, w.exec, w.msg.balance, false)
    else Payment(cfg, if w.msg.external || credit.Err? then w.exec else credit.value, w.msg.balance, true)
  }

  lemma SettledClock(cfg: Config, w: WithMsg)
    requires StorageAndCredit(cfg, w.exec, w.msg).Ok? && w.exec.outMsgs == []
    ensures var p := StorageOf(cfg, w);
            var c := StorageAndCredit(cfg, w.exec, w.msg).value;
            && Paid(p).Ok? && p.cfg == cfg && SameClock(w.exec, p.exec)
            && SameClock(Paid(p).value.exec, c.exec) && c.exec.outMsgs == []
  {
    var p := StorageOf(cfg, w);
    CreditClock(w.exec, w.msg.balance);
    StorageExactly(p.cfg, p.exec, p.msg, p.adjust);
    CreditClock(Paid(p).value.exec, w.msg.balance);
  }

  lemma CreditClock(ex: Exec, msg: Currency)
    ensures var c := CreditPhase(ex, msg);
            c.Ok? ==> SameClock(ex, c.value) && c.value.outMsgs == ex.outMsgs
  {
  }

  function PaymentIn(acc: Account, tx: Tx): Payment
    requires Transact(acc, tx).Ok?
  {
    var ex := Begin(tx.special, tx.masterchain, tx.address, tx.minLt, Some(acc));
    StorageOf(tx.cfg, Receive(tx.cfg, ex, tx.msg).value)
  }

  /** The one storage phase of a transaction starts from the record of the account, and
      what it leaves is what the record will say. */
  ghost predicate PaysFor(acc: Account, tx: Tx, p: Payment, next: Account) {
    && Paid(p).Ok? && p.cfg == tx.cfg && p.exec.special == tx.special && p.exec.masterchain == tx.masterchain
    && p.exec.lastPaid == acc.lastPaid && p.exec.due == acc.due && p.exec.used == acc.used
    && next.lastPaid == Paid(p).value.exec.lastPaid && next.due == Paid(p).value.exec.due
  }

  lemma PaymentMeaning(acc: Account, tx: Tx, next: Account)
    requires Transact(acc, tx).Ok? && Commit(Transact(acc, tx).value.exec, tx.used, tx.hash) == Some(next)
    ensures PaysFor(acc, tx, PaymentIn(acc, tx), next)
  {
    var ex := Begin(tx.special, tx.masterchain, tx.address, tx.minLt, Some(acc));
    var w := Receive(tx.cfg, ex, tx.msg).value;
    ReceiveIff(tx.cfg, ex, tx.msg);
    ReceivedClock(tx.cfg, ex, tx.msg, w);
    SettledClock(tx.cfg, w);
    var c := StorageAndCredit(tx.cfg, w.exec, w.msg).value;
    AfterCreditClock(tx.cfg, c.exec, tx.msg, c.msg, tx.vm);
  }

  lemma ReceivedClock(cfg: Config, ex: Exec, m: Inbound, w: WithMsg)
    requires ReceivedExactly(cfg, ex, m, w)
    ensures SameClock(ex, w.exec) && w.exec.outMsgs == ex.outMsgs
  {
  }

  // ----- Histories -----

  /** The storage phases of a history, in order. */
  ghost function Payments(accs: seq<Account>, txs: seq<Tx>): (ps: seq<Payment>)
    requires |accs| == |txs| + 1 && forall i :: 0 <= i < |txs| ==> Transact(accs[i], txs[i]).Ok?
    ensures |ps| == |txs| && forall i :: 0 <= i < |txs| ==> ps[i] == PaymentIn(accs[i], txs[i])
  {
    seq(|txs|, i requires 0 <= i < |txs| => PaymentIn(accs[i], txs[i]))
  }

  ghost predicate Chained(accs: seq<Account>, txs: seq<Tx>, ps: seq<Payment>) {
    && |accs| == |txs| + 1 && |ps| == |txs|
    && forall i :: 0 <= i < |txs| ==> PaysFor(accs[i], txs[i], ps[i], accs[i + 1])
  }

  lemma HistoryPays(accs: seq<Account>, txs: seq<Tx>, outs: seq<Exec>)
    requires IsHistory(accs, txs, outs)
    ensures Chained(accs, txs, Payments(accs, txs))
  {
    forall i | 0 <= i < |txs| ensures PaysFor(accs[i], txs[i], Payments(accs, txs)[i], accs[i + 1]) {
      PaymentMeaning(accs[i], txs[i], accs[i + 1]);
    }
  }

  /** No fee with the debt before it is more than an amount can hold. */
  ghost predicate FeesFit(accs: seq<Account>, txs: seq<Tx>)
    requires |accs| == |txs| + 1 && forall i :: 0 <= i < |txs| ==> Transact(accs[i], txs[i]).Ok?
  {
    forall i :: 0 <= i < |txs| ==> var p := Payments(accs, txs)[i]; FeeOf(p.cfg, p.exec) + OrZero(p.exec.due) <= MAX_TOKENS
  }

  lemma HistoryIsLedger(accs: seq<Account>, txs: seq<Tx>, outs: seq<Exec>)
    requires IsHistory(accs, txs, outs) && FeesFit(accs, txs)
    requires forall i :: 0 <= i < |txs| ==> !txs[i].special
    ensures IsLedger(Payments(accs, txs))
  {
    HistoryPays(accs, txs, outs);
    var ps := Payments(accs, txs);
    forall i | 0 <= i < |ps| - 1 ensures Paid(ps[i]).Ok? && ps[i + 1].exec.due == Paid(ps[i]).value.exec.due {
      assert PaysFor(accs[i], txs[i], ps[i], accs[i + 1]);
      assert PaysFor(accs[i + 1], txs[i + 1], ps[i + 1], accs[i + 1 + 1]);
    }
  }

  /** Over the whole history of an ordinary account: what was ever collected for storage,
      with what is still owed, is what storage has cost, with what was owed at first. */
  lemma HistoryOwes(accs: seq<Account>, txs: seq<Tx>, outs: seq<Exec>)
    requires IsHistory(accs, txs, outs) && FeesFit(accs, txs) && txs != []
    requires forall i :: 0 <= i < |txs| ==> !txs[i].special
    ensures var ps, n := Payments(accs, txs), |txs|;
            && IsLedger(ps)
            && Collected(ps, n) + OrZero(accs[n].due) == Fees(ps, n) + OrZero(accs[0].due)
  {
    HistoryIsLedger(accs, txs, outs);
    HistoryPays(accs, txs, outs);
    LedgerBalances(Payments(accs, txs), |txs|);
    assert PaysFor(accs[0], txs[0], Payments(accs, txs)[0], accs[1]);
    assert PaysFor(accs[|txs| - 1], txs[|txs| - 1], Payments(accs, txs)[|txs| - 1], accs[|txs| - 1 + 1]);
  }

  /** All transactions see the same price of a second, and segments in order. */
  ghost predicate OnePrice(accs: seq<Account>, txs: seq<Tx>, t: seq<Priced>) {
    && |accs| == |txs| + 1 && Sorted(t)
    && forall i :: 0 <= i < |txs| ==> Table(txs[i].cfg.storagePrices, accs[i].used, txs[i].masterchain) == t
  }

  lemma ChainIsLinked(accs: seq<Account>, txs: seq<Tx>, ps: seq<Payment>, t: seq<Priced>)
    requires Chained(accs, txs, ps) && IsLedger(ps) && OnePrice(accs, txs, t)
    requires txs != [] && accs[0].lastPaid > 0
    ensures Linked(ps) && TableOf(ps[0]) == t
    ensures ps[0].exec.lastPaid == accs[0].lastPaid && ps[|ps| - 1].cfg == txs[|txs| - 1].cfg
  {
    forall i | 0 <= i < |ps| ensures TableOf(ps[i]) == t {
      assert PaysFor(accs[i], txs[i], ps[i], accs[i + 1]);
    }
    forall i | 0 <= i < |ps| - 1 ensures ps[i + 1].exec.lastPaid == Paid(ps[i]).value.exec.lastPaid {
      assert PaysFor(accs[i], txs[i], ps[i], accs[i + 1]);
      assert PaysFor(accs[i + 1], txs[i + 1], ps[i + 1], accs[i + 1 + 1]);
    }
    assert PaysFor(accs[0], txs[0], ps[0], accs[0 + 1]);
    assert PaysFor(accs[|txs| - 1], txs[|txs| - 1], ps[|txs| - 1], accs[|txs| - 1 + 1]);
  }

  /** The price of every second from `first` to `last`, each once, and less than one unit
      more per phase; at least that price up to the cap of a single fee. */
  ghost predicate EachSecondOnce(t: seq<Priced>, first: nat, last: nat, fees: nat, phases: nat) {
    && first <= last
    && fees * 65536 < PerSecond(t, first, last) + phases * 65536
    && (PerSecond(t, first, last) <= U128_MAX ==> PerSecond(t, first, last) <= fees * 65536)
  }

  lemma ChainPaysEverySecond(accs: seq<Account>, txs: seq<Tx>, ps: seq<Payment>, t: seq<Priced>)
    requires Chained(accs, txs, ps) && IsLedger(ps) && OnePrice(accs, txs, t)
    requires txs != [] && accs[0].lastPaid > 0
    ensures EachSecondOnce(t, accs[0].lastPaid, txs[|txs| - 1].cfg.now, Fees(ps, |ps|), |txs|)
  {
    ChainIsLinked(accs, txs, ps, t);
    EverySecondOnce(ps, |ps|);
  }

  /** Over the whole history of an ordinary account with one price: storage costs the
      price of every second from its first record to its last transaction. */
  lemma HistoryPaysEverySecond(accs: seq<Account>, txs: seq<Tx>, outs: seq<Exec>, t: seq<Priced>)
    requires IsHistory(accs, txs, outs) && FeesFit(accs, txs) && txs != []
    requires forall i :: 0 <= i < |txs| ==> !txs[i].special
    requires OnePrice(accs, txs, t) && accs[0].lastPaid > 0
    ensures EachSecondOnce(t, accs[0].lastPaid, txs[|txs| - 1].cfg.now, Fees(Payments(accs, txs), |txs|), |txs|)
  {
    HistoryIsLedger(accs, txs, outs);
    HistoryPays(accs, txs, outs);
    ChainPaysEverySecond(accs, txs, Payments(accs, txs), t);
  }
}
