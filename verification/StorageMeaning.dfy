/** What a storage phase collects, what it leaves owed, and what it all adds up to. */
module StorageMeaning {
  import opened Util
  import opened Money
  import opened GasPricing
  import opened StorageFees
  import opened ExecutorTypes
  import opened PhaseSpec
  import opened History

  /** Fee and debt, as far as an amount can hold them. */
  function Owed(cfg: Config, ex: Exec): nat {
    Min(FeeOf(cfg, ex) + OrZero(ex.due), MAX_TOKENS)
  }

  /** As much as the balance can pay of what is owed is collected, the rest stays owed,
      and the account has paid up to now; a special account has no clock, and its debt
      goes only when it is paid in full. */
  ghost predicate StoredAs(cfg: Config, ex: Exec, msg: Currency, adjust: bool, o: StorageOut) {
    var owed := Owed(cfg, ex);
    && o.collected == Min(ex.balance.tokens, owed)
    && o.exec.balance == Currency(ex.balance.tokens - o.collected, ex.balance.other)
    && o.exec.totalFees == ex.totalFees + o.collected
    && o.exec.lastPaid == (if ex.special then 0 else cfg.now)
    && (!ex.special ==> OrZero(o.exec.due) == owed - o.collected && (0 < owed == o.collected ==> o.exec.due == None))
    && (ex.special ==> o.exec.due == if 0 < owed == o.collected then None else ex.due)
    && o.due == (if owed > o.collected then Some(owed - o.collected) else None)
    && o.msg == Currency(if adjust then Min(msg.tokens, o.exec.balance.tokens) else msg.tokens, msg.other)
    && o.exec == ex.(balance := o.exec.balance, totalFees := o.exec.totalFees, lastPaid := o.exec.lastPaid,
                     due := o.exec.due, endStatus := o.exec.endStatus)
  }

  lemma StorageExactly(cfg: Config, ex: Exec, msg: Currency, adjust: bool)
    requires StoragePhase(cfg, ex, msg, adjust).Ok?
    ensures StoredAs(cfg, ex, msg, adjust, StoragePhase(cfg, ex, msg, adjust).value)
  {
    FeeFits(cfg.storagePrices, ex.used, ex.lastPaid, cfg.now, ex.special, ex.masterchain);
  }

  /** A storage phase happens unless time goes backwards or the fees overflow. */
  lemma StorageIff(cfg: Config, ex: Exec, msg: Currency, adjust: bool)
    ensures StoragePhase(cfg, ex, msg, adjust).Ok? <==>
            ex.lastPaid <= cfg.now && ex.totalFees + Min(ex.balance.tokens, Owed(cfg, ex)) <= MAX_TOKENS
  {
    FeeFits(cfg.storagePrices, ex.used, ex.lastPaid, cfg.now, ex.special, ex.masterchain);
  }

  // ----- The order of storage and credit -----

  /** A bounceable message does not pay for storage: the fee comes out of what the account
      had. Any other message is credited first, and what is left of it is at most what is
      left of the balance. */
  lemma OrderMatters(cfg: Config, ex: Exec, msg: Received)
    requires StorageAndCredit(cfg, ex, msg).Ok? && (msg.external ==> msg.balance == ZERO && !msg.bounceEnabled)
    ensures var c := StorageAndCredit(cfg, ex, msg).value;
            var owed := Owed(cfg, ex);
            var both := ex.balance.tokens + msg.balance.tokens;
            && c.exec.balance.tokens ==
                 (if msg.bounceEnabled then ex.balance.tokens - Min(ex.balance.tokens, owed) + msg.balance.tokens
                  else both - Min(both, owed))
            && c.msg == msg.(balance := msg.balance.(
                 tokens := if msg.bounceEnabled then msg.balance.tokens else Min(msg.balance.tokens, c.exec.balance.tokens)))
            && c.exec.totalFees == ex.totalFees + Min(if msg.bounceEnabled then ex.balance.tokens else both, owed)
  {
    if msg.bounceEnabled {
      StorageExactly(cfg, ex, msg.balance, false);
    } else {
      var credited := if msg.external then ex else CreditPhase(ex, msg.balance).value;
      StorageExactly(cfg, credited, msg.balance, true);
    }
  }

  // ----- Every second once -----

  function TableOf(p: Payment): seq<Priced> {
    Table(p.cfg.storagePrices, p.exec.used, p.exec.masterchain)
  }

  /** Phases of one account under fixed prices and usage, each starting from where the one
      before has paid. */
  ghost predicate Linked(ps: seq<Payment>) {
    && IsLedger(ps)
    && (forall i :: 0 <= i < |ps| ==> TableOf(ps[i]) == TableOf(ps[0]))
    && (forall i :: 0 <= i < |ps| - 1 ==> ps[i + 1].exec.lastPaid == Paid(ps[i]).value.exec.lastPaid)
    && (ps != [] ==> ps[0].exec.lastPaid > 0 && Sorted(TableOf(ps[0])))
  }

  lemma LinkedTimes(ps: seq<Payment>, i: nat)
    requires Linked(ps) && i < |ps|
    ensures 0 < ps[i].exec.lastPaid <= ps[i].cfg.now
    ensures i > 0 ==> ps[i].exec.lastPaid == ps[i - 1].cfg.now
    ensures ps[0].exec.lastPaid <= ps[i].exec.lastPaid
  {
    StorageIff(ps[i].cfg, ps[i].exec, ps[i].msg, ps[i].adjust);
    if i > 0 {
      LinkedTimes(ps, i - 1);
      assert ps[(i - 1) + 1].exec.lastPaid == Paid(ps[i - 1]).value.exec.lastPaid;
      StorageExactly(ps[i - 1].cfg, ps[i - 1].exec, ps[i - 1].msg, ps[i - 1].adjust);
    }
  }

  lemma OneFee(p: Payment)
    requires Sorted(TableOf(p)) && 0 < p.exec.lastPaid <= p.cfg.now && !p.exec.special
    ensures var sum := PerSecond(TableOf(p), p.exec.lastPaid, p.cfg.now);
            var fee := FeeOf(p.cfg, p.exec);
            fee * 65536 < sum + 65536 && (sum <= U128_MAX ==> sum <= fee * 65536)
  {
    StorageFeeIsPerSecond(p.cfg.storagePrices, p.exec.used, p.exec.lastPaid, p.cfg.now, p.exec.masterchain);
  }

  /** All fees of a linked series together are the price of every second from the first
      payment to the last, each second once, and less than one unit more per phase. */
  lemma {:induction false} EverySecondOnce(ps: seq<Payment>, n: nat)
    requires Linked(ps) && 0 < n <= |ps|
    ensures ps[0].exec.lastPaid <= ps[n - 1].cfg.now
    ensures var sum := PerSecond(TableOf(ps[0]), ps[0].exec.lastPaid, ps[n - 1].cfg.now);
            && Fees(ps, n) * 65536 < sum + n * 65536
            && (sum <= U128_MAX ==> sum <= Fees(ps, n) * 65536)
  {
    var t, p := TableOf(ps[0]), ps[n - 1];
    LinkedTimes(ps, n - 1);
    OneFee(p);
    if n > 1 {
      EverySecondOnce(ps, n - 1);
      PerSecondSplit(t, ps[0].exec.lastPaid, p.exec.lastPaid, p.cfg.now);
    } else {
      assert Fees(ps, 0) == 0;
    }
  }
}
