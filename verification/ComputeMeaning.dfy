/** What the compute phase runs, what it costs, and what it leaves behind. */
module ComputeMeaning {
  import opened Util
  import opened Money
  import opened Cells
  import opened CellStat
  import opened GasPricing
  import opened Messages
  import opened ExecutorTypes
  import opened ActionSpec
  import opened PhaseSpec

  // ----- Gas -----

  function PricesOf(cfg: Config, ex: Exec): GasPrices {
    if ex.masterchain then cfg.mcGasPrices else cfg.gasPrices
  }

  /** The gas an ordinary account is granted: the most its balance pays for, of which the
      message may use the most its own value pays for. */
  ghost predicate GrantedFor(p: GasPrices, balance: nat, value: nat, g: GasParams) {
    && GreatestAffordable(p, balance, g.max)
    && (value != 0 && p.flatGasPrice <= value <= balance ==> GreatestAffordable(p, value, g.limit))
    && (value < p.flatGasPrice || value == 0 ==> g.limit == 0)
    && (value >= balance ==> g.limit == g.max)
  }

  /** An account that can pay for gas at all is granted what it can pay for; a special
      account its own limit, whatever its balance. Only external messages get credit. */
  lemma GasMeaning(cfg: Config, ex: Exec, msg: Received)
    ensures var p, g := PricesOf(cfg, ex), GasFor(cfg, ex, msg);
            && (if ex.special then g.max == g.limit == p.specialGasLimit
                else ex.balance.tokens != 0 && p.flatGasPrice <= ex.balance.tokens ==>
                       GrantedFor(p, ex.balance.tokens, msg.balance.tokens, g))
            && g.credit == (if msg.external then Min(p.gasCredit, g.max) else 0)
  {
    var p, balance, value := PricesOf(cfg, ex), ex.balance.tokens, msg.balance.tokens;
    if !ex.special && balance != 0 && p.flatGasPrice <= balance {
      BoughtGasIsGreatest(p, balance);
      if value != 0 && p.flatGasPrice <= value <= balance {
        BoughtGasIsGreatest(p, value);
        BoughtGasMonotone(p, value, balance);
      }
      if value >= balance {
        BoughtGasMonotone(p, balance, value);
      }
    }
  }

  // ----- Which state runs -----

  predicate HasGas(cfg: Config, ex: Exec, msg: Received) {
    var gas := GasFor(cfg, ex, msg);
    ex.balance.tokens != 0 && (gas.limit != 0 || gas.credit != 0)
  }

  /** An account with code runs it, unless an external message comes with the state of
      another account. */
  predicate RunsOwn(ex: Exec, msg: Received) {
    ex.state.Active? && !(msg.external && msg.init.Some? && msg.init.value.rootHash != ex.address)
  }

  /** The state an account without code can be given: for a frozen one the state it was
      frozen with, for a new one the state its address is made of. */
  function WantedHash(ex: Exec): nat {
    if ex.state.Frozen? then ex.state.hash else ex.address
  }

  /** The state fits the limits; a new masterchain account may not bring public libraries. */
  ghost predicate Deployable(cfg: Config, ex: Exec, st: StateInit) {
    var roots := StateRoots(cfg, st);
    var same := st.code.None? && st.data.None? && st.libs == map[];
    var public := if ex.state.Uninit? && ex.masterchain then 0 else cfg.maxPublicLibraries;
    && !st.splitDepth
    && (same || (&& Fits(ReachAll(roots), StateLimits(cfg)) && Shallow(ReachAll(roots))
                 && (ex.masterchain && st.libs != map[] ==> |PublicLibs(st.libs)| <= public)))
  }

  ghost predicate Deploys(cfg: Config, ex: Exec, msg: Received) {
    && !ex.state.Active? && msg.init.Some?
    && msg.init.value.rootHash == WantedHash(ex) && Deployable(cfg, ex, msg.init.value.parsed)
  }

  lemma DeployIff(cfg: Config, ex: Exec, msg: Received)
    ensures DeployDecision(cfg, ex, msg).UseMsgState? <==> Deploys(cfg, ex, msg)
    ensures DeployDecision(cfg, ex, msg).NoDeploy? <==> RunsOwn(ex, msg)
  {
    if !ex.state.Active? && msg.init.Some? {
      var public := if ex.state.Uninit? && ex.masterchain then 0 else cfg.maxPublicLibraries;
      AcceptIff(cfg, ex, msg.init.value.parsed, public);
    }
  }

  lemma AcceptIff(cfg: Config, ex: Exec, st: StateInit, public: nat)
    requires public == if ex.state.Uninit? && ex.masterchain then 0 else cfg.maxPublicLibraries
    ensures AcceptDeploy(cfg, ex, st, public).UseMsgState? <==> Deployable(cfg, ex, st)
  {
    StateExceedsIff(cfg, st, public, ex.masterchain && EMPTY_STATE.libs != st.libs);
  }

  // ----- What a run leaves -----

  function StateThatRuns(ex: Exec, msg: Received): StateInit {
    if ex.state.Active? then ex.state.init
    else if msg.init.Some? then msg.init.value.parsed
    else EMPTY_STATE
  }

  /** The effects of a run on the account: it pays for the smaller of gas used and limit
      if it was accepted, that is, used no credit; a special account never pays. What it
      committed counts only then. */
  ghost predicate RanAs(cfg: Config, ex: Exec, msg: Received, run: VmOutcome, deployed: bool, c: ComputeOut) {
    var st := StateThatRuns(ex, msg);
    && c.executed
    && (c.accepted <==> run.credit == 0)
    && (c.success <==> run.credit == 0 && run.committed.Some?)
    && c.gasFees == (if run.credit == 0 && !ex.special then GasFee(PricesOf(cfg, ex), Min(run.consumed, run.limit)) else 0)
    && c.newState == (if c.success then st.(data := Some(run.committed.value.0)) else st)
    && c.actions == (if c.success then run.committed.value.1 else EndOfList)
    && c.exec == ex.(
         balance := ex.balance.(tokens := c.exec.balance.tokens), totalFees := ex.totalFees + c.gasFees,
         state := if deployed then Active(st) else ex.state,
         endStatus := if deployed && run.credit == 0 then StActive else ex.endStatus)
    && c.exec.balance.tokens + c.gasFees == ex.balance.tokens
  }

  ghost predicate SkippedAs(ex: Exec, c: ComputeOut) {
    !c.executed && !c.accepted && !c.success && c.gasFees == 0 && c.exec == ex && c.actions == EndOfList
  }

  lemma ChargeMeaning(cfg: Config, ex: Exec, msg: Received, original: Currency, run: VmOutcome, deployed: bool)
    requires deployed ==> !ex.state.Active? && msg.init.Some?
    requires !deployed ==> ex.state.Active?
    ensures var st := StateThatRuns(ex, msg);
            var r := Charge(cfg, if deployed then ex.(state := Active(st)) else ex, original, st, deployed, run);
            r.Ok? ==> RanAs(cfg, ex, msg, run, deployed, r.value) && r.value.original == original
  {
  }

  /** Code runs if and only if there is gas and a state to run it in; the run then has
      exactly these effects, and otherwise the account is as it was. What the account had
      before the message is the original balance. */
  lemma ComputeMeaning(cfg: Config, ex: Exec, msg: Received, vm: Vm)
    requires ComputePhase(cfg, ex, msg, vm).Ok?
    ensures var c := ComputePhase(cfg, ex, msg, vm).value;
            && c.original.tokens + msg.balance.tokens == ex.balance.tokens
            && (forall k :: Amount(c.original.other, k) + Amount(msg.balance.other, k) == Amount(ex.balance.other, k))
            && (if HasGas(cfg, ex, msg) && (RunsOwn(ex, msg) || Deploys(cfg, ex, msg))
                then RanAs(cfg, ex, msg, vm(GasFor(cfg, ex, msg)), Deploys(cfg, ex, msg), c)
                else SkippedAs(ex, c))
  {
    var original := SubCurrency(ex.balance, msg.balance).value;
    DeployIff(cfg, ex, msg);
    if HasGas(cfg, ex, msg) && (RunsOwn(ex, msg) || Deploys(cfg, ex, msg)) {
      ChargeMeaning(cfg, ex, msg, original, vm(GasFor(cfg, ex, msg)), Deploys(cfg, ex, msg));
    }
  }
}
