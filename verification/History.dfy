/** Runs of many transactions of one account: logical time, money and storage debt. */
module History {
  import opened Util
  import opened Money
  import opened GasPricing
  import opened StorageFees
  import opened Messages
  import opened ExecutorTypes
  import opened ActionSpec
  import opened PhaseSpec
  import opened TransactionProofs

  // ----- Between transactions -----

  datatype Account = Account(
    used: Usage, lastPaid: nat, due: Option<nat>, balance: Currency, state: AccountState, lastTransLt: nat)

  function StatusOf(s: AccountState): Status {
    match s
    case Uninit => StUninit
    case Frozen(_) => StFrozen
    case Active(_) => StActive
  }

  /** `Executor::begin` for an account that exists or does not. */
  function Begin(special: bool, masterchain: bool, address: nat, minLt: nat, acc: Option<Account>): (ex: Exec)
    ensures Started(ex) && minLt <= ex.startLt
    ensures acc.Some? ==> acc.value.lastTransLt <= ex.startLt && ex.balance == acc.value.balance
  {
    match acc
    case Some(a) =>
      var lt := Max(minLt, a.lastTransLt);
      Exec(special, masterchain, address, a.used, a.lastPaid, a.due, a.balance, a.state,
           StatusOf(a.state), StatusOf(a.state), lt, lt + 1, [], 0, 0)
    case None =>
      Exec(special, masterchain, address, Usage(0, 0), 0, None, ZERO, Uninit,
           StNotExists, StUninit, minLt, minLt + 1, [], 0, 0)
  }

  /** The account state to store; `None` when the account is gone. The hash of a
      state init comes from its serialisation. */
  function FinalState(ex: Exec, hash: StateInit -> nat): Option<AccountState> {
    match ex.endStatus
    case StNotExists => None
    case StUninit => if ex.balance.IsZero() then None else Some(Uninit)
    case StActive => Some(ex.state)
    case StFrozen =>
      var h := match ex.state
               case Uninit => ex.address
               case Frozen(h) => h
               case Active(init) => hash(init);
      Some(if h == ex.address then Uninit else Frozen(h))
  }

  /** What `commit` stores: the end of this transaction's logical time range is
      where the next one may start. */
  function Commit(ex: Exec, used: Usage, hash: StateInit -> nat): (acc: Option<Account>)
    ensures acc.Some? ==> acc.value.lastTransLt == ex.endLt && acc.value.balance == ex.balance && acc.value.due == ex.due
  {
    var st := FinalState(ex, hash);
    if st.None? then None
    else Some(Account(used, ex.lastPaid, ex.due, ex.balance, st.value, ex.endLt))
  }

  // ----- Histories -----

  datatype Tx = Tx(
    cfg: Config, special: bool, masterchain: bool, address: nat, minLt: nat,
    external: bool, msg: Inbound, vm: Vm, used: Usage, hash: StateInit -> nat)

  function Transact(acc: Account, tx: Tx): Result<TxOut> {
    RunOrdinary(tx.cfg, Begin(tx.special, tx.masterchain, tx.address, tx.minLt, Some(acc)), tx.external, tx.msg, tx.vm)
  }

  /** `outs[i]` is what transaction `txs[i]` makes of `accs[i]`, and the account
      survives it as `accs[i + 1]`. */
  ghost predicate IsHistory(accs: seq<Account>, txs: seq<Tx>, outs: seq<Exec>) {
    && |accs| == |txs| + 1 && |outs| == |txs|
    && (forall i :: 0 <= i < |txs| ==> GasContract(txs[i].vm))
    && (forall i :: 0 <= i < |txs| ==> Transact(accs[i], txs[i]).Ok? && Transact(accs[i], txs[i]).value.exec == outs[i])
    && (forall i :: 0 <= i < |txs| ==> Commit(outs[i], txs[i].used, txs[i].hash) == Some(accs[i + 1]))
  }

  ghost predicate TxKeeps(acc: Account, tx: Tx, o: Exec) {
    && acc.balance.tokens + InboundNative(tx.msg) == o.balance.tokens + o.totalFees + o.burned + NativeSum(o.outMsgs)
    && acc.lastTransLt <= o.startLt
    && Consecutive(o.outMsgs, o.startLt + 1)
    && o.endLt == o.startLt + 1 + |o.outMsgs|
  }

  lemma TxStep(acc: Account, tx: Tx, o: Exec, next: Account)
    requires GasContract(tx.vm) && Transact(acc, tx).Ok? && Transact(acc, tx).value.exec == o
    requires Commit(o, tx.used, tx.hash) == Some(next)
    ensures TxKeeps(acc, tx, o)
    ensures next.lastTransLt == o.endLt && next.balance == o.balance
  {
    var ex := Begin(tx.special, tx.masterchain, tx.address, tx.minLt, Some(acc));
    TransactionSound(tx.cfg, ex, tx.external, tx.msg, tx.vm);
  }

  /** What every step of a history keeps. */
  ghost predicate Kept(accs: seq<Account>, txs: seq<Tx>, outs: seq<Exec>) {
    && |accs| == |txs| + 1 && |outs| == |txs|
    && (forall i :: 0 <= i < |txs| ==> TxKeeps(accs[i], txs[i], outs[i]))
    && (forall i :: 0 <= i < |txs| ==> accs[i + 1].lastTransLt == outs[i].endLt)
    && (forall i :: 0 <= i < |txs| ==> accs[i + 1].balance == outs[i].balance)
  }

  lemma HistoryKept(accs: seq<Account>, txs: seq<Tx>, outs: seq<Exec>)
    requires IsHistory(accs, txs, outs)
    ensures Kept(accs, txs, outs)
  {
    forall i | 0 <= i < |txs|
      ensures TxKeeps(accs[i], txs[i], outs[i]) && accs[i + 1].lastTransLt == outs[i].endLt && accs[i + 1].balance == outs[i].balance
    {
      TxStep(accs[i], txs[i], outs[i], accs[i + 1]);
    }
  }

  lemma {:induction false} KeptIncreases(accs: seq<Account>, txs: seq<Tx>, outs: seq<Exec>, i: nat, j: nat)
    requires Kept(accs, txs, outs) && i < j < |txs|
    ensures outs[i].startLt < outs[i].endLt <= outs[j].startLt
    decreases j - i
  {
    assert TxKeeps(accs[i], txs[i], outs[i]) && TxKeeps(accs[j], txs[j], outs[j]);
    assert accs[(j - 1) + 1].lastTransLt == outs[j - 1].endLt;
    if i + 1 < j {
      KeptIncreases(accs, txs, outs, i, j - 1);
      assert TxKeeps(accs[j - 1], txs[j - 1], outs[j - 1]);
    }
  }

  /** Later transactions live entirely after earlier ones: the logical time ranges
      [startLt, endLt) of a surviving account are disjoint and increasing. */
  lemma RangesIncrease(accs: seq<Account>, txs: seq<Tx>, outs: seq<Exec>, i: nat, j: nat)
    requires IsHistory(accs, txs, outs) && i < j < |txs|
    ensures outs[i].startLt < outs[i].endLt <= outs[j].startLt
  {
    HistoryKept(accs, txs, outs);
    KeptIncreases(accs, txs, outs, i, j);
  }

  /** Every message of an earlier transaction is older than every message of a later one. */
  lemma MessagesAreOrdered(accs: seq<Account>, txs: seq<Tx>, outs: seq<Exec>, i: nat, j: nat, a: nat, b: nat)
    requires IsHistory(accs, txs, outs) && i < j < |txs|
    requires a < |outs[i].outMsgs| && b < |outs[j].outMsgs|
    ensures outs[i].outMsgs[a].createdLt < outs[j].startLt < outs[j].outMsgs[b].createdLt
  {
    HistoryKept(accs, txs, outs);
    KeptIncreases(accs, txs, outs, i, j);
    assert TxKeeps(accs[i], txs[i], outs[i]) && TxKeeps(accs[j], txs[j], outs[j]);
  }

  ghost function Inflow(txs: seq<Tx>, n: nat): nat
    requires n <= |txs|
  {
    if n == 0 then 0 else Inflow(txs, n - 1) + InboundNative(txs[n - 1].msg)
  }

  ghost function Outflow(outs: seq<Exec>, n: nat): nat
    requires n <= |outs|
  {
    if n == 0 then 0
    else Outflow(outs, n - 1) + outs[n - 1].totalFees + outs[n - 1].burned + NativeSum(outs[n - 1].outMsgs)
  }

  lemma {:induction false} KeptConserves(accs: seq<Account>, txs: seq<Tx>, outs: seq<Exec>, n: nat)
    requires Kept(accs, txs, outs) && n <= |txs|
    ensures accs[0].balance.tokens + Inflow(txs, n) == accs[n].balance.tokens + Outflow(outs, n)
  {
    if n > 0 {
      KeptConserves(accs, txs, outs, n - 1);
      assert TxKeeps(accs[n - 1], txs[n - 1], outs[n - 1]);
      assert accs[(n - 1) + 1].balance == outs[n - 1].balance;
    }
  }

  /** Over any number of transactions a surviving account neither gains nor loses a
      token that did not come in or go out. */
  lemma HistoryConserves(accs: seq<Account>, txs: seq<Tx>, outs: seq<Exec>, n: nat)
    requires IsHistory(accs, txs, outs) && n <= |txs|
    ensures accs[0].balance.tokens + Inflow(txs, n) == accs[n].balance.tokens + Outflow(outs, n)
  {
    HistoryKept(accs, txs, outs);
    KeptConserves(accs, txs, outs, n);
  }

  // ----- The storage debt ledger -----

  function FeeOf(cfg: Config, ex: Exec): nat {
    StorageFee(cfg.storagePrices, ex.used, ex.lastPaid, cfg.now, ex.special, ex.masterchain)
  }

  /** Exactly when a storage phase keeps its books: what it collects and still is
      owed equals the new fee and the old debt. A special account with a debt it can
      pay only in part is charged without its debt going down. */
  lemma LedgerIff(cfg: Config, ex: Exec, msg: Currency, adjust: bool)
    requires StoragePhase(cfg, ex, msg, adjust).Ok?
    requires FeeOf(cfg, ex) + OrZero(ex.due) <= MAX_TOKENS
    ensures var o := StoragePhase(cfg, ex, msg, adjust).value;
            o.collected + OrZero(o.exec.due) == FeeOf(cfg, ex) + OrZero(ex.due) <==>
            !ex.special || OrZero(ex.due) <= ex.balance.tokens || ex.balance.tokens == 0
  {
  }

  /** Where it fails: a special account that owes 10 and has 4 loses the 4 and still
      owes 10. */
  lemma SpecialAccountPaysInVain(cfg: Config, any: Exec)
    ensures var ex := any.(special := true, due := Some(10), balance := Currency(4, map[]), lastPaid := cfg.now, totalFees := 0);
            && StoragePhase(cfg, ex, ZERO, false).Ok?
            && var o := StoragePhase(cfg, ex, ZERO, false).value;
               FeeOf(cfg, ex) == 0 && o.collected == 4 && o.exec.balance.tokens == 0 && o.exec.due == Some(10)
  {
  }

  // ----- Accounts that storage debt freezes or deletes -----

  /** The debt a storage phase would leave: fee and old debt, as far as an amount can
      hold them, less what the balance pays. */
  function DebtAfter(cfg: Config, ex: Exec): int {
    Min(FeeOf(cfg, ex) + OrZero(ex.due), MAX_TOKENS) - ex.balance.tokens
  }

  /** Debt beyond the limit deletes an account without code, unless it is special, or
      frozen while deletion of frozen accounts is disabled, or holds no extra currency. */
  predicate DeletedForDebt(cfg: Config, ex: Exec) {
    && !ex.special && !ex.state.Active? && (ex.state.Frozen? ==> !cfg.disableDeleteFrozen)
    && DebtAfter(cfg, ex) > cfg.Gas(ex.masterchain).deleteDueLimit
    && ex.balance.other != map[]
  }

  predicate FrozenForDebt(cfg: Config, ex: Exec) {
    !ex.special && ex.state.Active? && DebtAfter(cfg, ex) > cfg.Gas(ex.masterchain).freezeDueLimit
  }

  /** What a whole storage phase does to the status, exactly. */
  lemma DebtDecidesStatus(cfg: Config, ex: Exec, msg: Currency, adjust: bool)
    requires StoragePhase(cfg, ex, msg, adjust).Ok?
    ensures var o := StoragePhase(cfg, ex, msg, adjust).value;
            && (o.change.ToDeleted? <==> DeletedForDebt(cfg, ex))
            && (o.change.ToFrozen? <==> FrozenForDebt(cfg, ex))
            && (ex.endStatus != StNotExists ==> (o.exec.endStatus == StNotExists <==> DeletedForDebt(cfg, ex)))
            && (ex.endStatus != StFrozen ==> (o.exec.endStatus == StFrozen <==> FrozenForDebt(cfg, ex)))
            && o.exec.balance.other == ex.balance.other
  {
    FeeFits(cfg.storagePrices, ex.used, ex.lastPaid, cfg.now, ex.special, ex.masterchain);
  }

  /** An account of any kind that ends deleted is dropped with all it still has; this
      loses money exactly when its balance is not empty. */
  lemma CommitDropsIff(ex: Exec, used: Usage, hash: StateInit -> nat)
    ensures (Commit(ex, used, hash).None? && !ex.balance.IsZero()) <==>
            (ex.endStatus == StNotExists && !ex.balance.IsZero())
  {
  }

  /** An account without code that owes more than the limit and has nothing at all. */
  function Debtor(any: Exec, cfg: Config, other: Extra): Exec {
    any.(special := false, state := Uninit, endStatus := StUninit, balance := Currency(0, other), totalFees := 0,
         lastPaid := cfg.now, due := Some(cfg.Gas(any.masterchain).deleteDueLimit + 1))
  }

  /** Where one would expect a deletion: with no extra currency the account stays. */
  lemma PennilessDebtorStays(cfg: Config, any: Exec)
    ensures var ex := Debtor(any, cfg, map[]);
            && StoragePhase(cfg, ex, ZERO, false).Ok?
            && var o := StoragePhase(cfg, ex, ZERO, false).value;
               o.exec.endStatus == StUninit && o.exec.due == ex.due
  {
  }

  /** Where money is lost: with one extra currency it is deleted, currency and all. */
  lemma DeletionDropsExtra(cfg: Config, any: Exec, used: Usage, hash: StateInit -> nat)
    ensures var ex := Debtor(any, cfg, map[7 := 100]);
            && StoragePhase(cfg, ex, ZERO, false).Ok?
            && var o := StoragePhase(cfg, ex, ZERO, false).value.exec;
               && o.endStatus == StNotExists
               && Commit(o, used, hash) == None && Amount(o.balance.other, 7) == 100
  {
    assert 7 in map[7 := 100];
  }

  // ----- The ledger of a history -----

  /** One storage phase in a history: its configuration and the state it met. */
  datatype Payment = Payment(cfg: Config, exec: Exec, msg: Currency, adjust: bool)

  function Paid(p: Payment): Result<StorageOut> {
    StoragePhase(p.cfg, p.exec, p.msg, p.adjust)
  }

  /** Each phase meets the debt the previous one left; balances, usage and prices may
      change freely in between. */
  ghost predicate IsLedger(ps: seq<Payment>) {
    && (forall i :: 0 <= i < |ps| ==> Paid(ps[i]).Ok? && !ps[i].exec.special)
    && (forall i :: 0 <= i < |ps| ==> FeeOf(ps[i].cfg, ps[i].exec) + OrZero(ps[i].exec.due) <= MAX_TOKENS)
    && (forall i :: 0 <= i < |ps| - 1 ==> Paid(ps[i]).Ok? && ps[i + 1].exec.due == Paid(ps[i]).value.exec.due)
  }

  ghost function Fees(ps: seq<Payment>, n: nat): nat
    requires n <= |ps|
  {
    if n == 0 then 0 else Fees(ps, n - 1) + FeeOf(ps[n - 1].cfg, ps[n - 1].exec)
  }

  ghost function Collected(ps: seq<Payment>, n: nat): nat
    requires n <= |ps| && forall i :: 0 <= i < |ps| ==> Paid(ps[i]).Ok?
  {
    if n == 0 then 0 else Collected(ps, n - 1) + Paid(ps[n - 1]).value.collected
  }

  /** Over any sequence of storage phases of an ordinary account: everything
      collected plus the final debt is everything charged plus the initial debt. */
  lemma {:induction false} LedgerBalances(ps: seq<Payment>, n: nat)
    requires IsLedger(ps) && 0 < n <= |ps|
    ensures Collected(ps, n) + OrZero(Paid(ps[n - 1]).value.exec.due) == Fees(ps, n) + OrZero(ps[0].exec.due)
  {
    var p := ps[n - 1];
    LedgerIff(p.cfg, p.exec, p.msg, p.adjust);
    if n > 1 {
      LedgerBalances(ps, n - 1);
      assert ps[n - 2 + 1].exec.due == Paid(ps[n - 2]).value.exec.due;
    } else {
      assert Fees(ps, 0) == 0 && Collected(ps, 0) == 0;
    }
  }
}
