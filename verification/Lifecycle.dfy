/** From one transaction to the next: which state is stored, and how an account that was
    frozen comes back. */
module Lifecycle {
  import opened Util
  import opened Money
  import opened StorageFees
  import opened Messages
  import opened ExecutorTypes
  import opened PhaseSpec
  import opened TransactionProofs
  import opened ComputeMeaning
  import opened History

  /** An account is gone if it was deleted, or has neither state nor money. */
  predicate Gone(ex: Exec) {
    ex.endStatus == StNotExists || (ex.endStatus == StUninit && ex.balance == ZERO)
  }

  /** The state a frozen account keeps only as a hash. */
  function FrozenHash(ex: Exec, hash: StateInit -> nat): nat {
    match ex.state
    case Uninit => ex.address
    case Frozen(h) => h
    case Active(init) => hash(init)
  }

  /** What is stored: the state if active, its hash if frozen, unless the hash is the
      address, which an account without state stands for already. */
  ghost predicate StoredState(ex: Exec, hash: StateInit -> nat, acc: Account) {
    match acc.state
    case Active(init) => ex.endStatus == StActive && ex.state == Active(init)
    case Frozen(h) =>
      || (ex.endStatus == StFrozen && h == FrozenHash(ex, hash) != ex.address)
      || (ex.endStatus == StActive && ex.state == Frozen(h))
    case Uninit =>
      || ex.endStatus == StUninit
      || (ex.endStatus == StFrozen && FrozenHash(ex, hash) == ex.address)
      || (ex.endStatus == StActive && ex.state == Uninit)
  }

  lemma CommitMeaning(ex: Exec, used: Usage, hash: StateInit -> nat)
    ensures var acc := Commit(ex, used, hash);
            && (acc.None? <==> Gone(ex))
            && (acc.Some? ==> StoredState(ex, hash, acc.value) && acc.value.used == used && acc.value.lastPaid == ex.lastPaid)
  {
  }

  /** An account frozen with some state is given that state again by a message that
      brings it, and no other: whoever freezes it, and wherever its hash is kept. */
  lemma ThawIff(ex: Exec, used: Usage, hash: StateInit -> nat, later: Exec, cfg: Config, msg: Received)
    requires ex.endStatus == StFrozen && Commit(ex, used, hash).Some?
    requires later.state == Commit(ex, used, hash).value.state && later.address == ex.address
    ensures DeployDecision(cfg, later, msg).UseMsgState? <==>
            && msg.init.Some? && msg.init.value.rootHash == FrozenHash(ex, hash)
            && Deployable(cfg, later, msg.init.value.parsed)
    ensures !DeployDecision(cfg, later, msg).NoDeploy?
  {
    DeployIff(cfg, later, msg);
  }

  /** A frozen account that such a message finds, and whose run is accepted, is stored
      again with the state it had, as the run left its data. */
  lemma FreezeAndThaw(ex: Exec, used: Usage, hash: StateInit -> nat, later: Exec, cfg: Config, msg: Received, vm: Vm)
    requires ex.endStatus == StFrozen && ex.state.Active? && Commit(ex, used, hash).Some?
    requires later.state == Commit(ex, used, hash).value.state && later.address == ex.address
    requires msg.init == Some(MsgInit(hash(ex.state.init), ex.state.init))
    requires Deployable(cfg, later, ex.state.init) && HasGas(cfg, later, msg)
    requires ComputePhase(cfg, later, msg, vm).Ok? && vm(GasFor(cfg, later, msg)).credit == 0
    ensures var c := ComputePhase(cfg, later, msg, vm).value;
            && c.accepted && c.exec.state == ex.state && c.exec.endStatus == StActive
            && c.newState == ex.state.init.(data := c.newState.data)
            && (vm(GasFor(cfg, later, msg)).committed.None? ==> Commit(c.exec, used, hash).Some? && Commit(c.exec, used, hash).value.state == ex.state)
  {
    ThawIff(ex, used, hash, later, cfg, msg);
    DeployIff(cfg, later, msg);
    ComputeMeaning.ComputeMeaning(cfg, later, msg, vm);
  }

  /** A message that brings anything else does not run at all, and changes nothing. */
  lemma StaysFrozen(ex: Exec, used: Usage, hash: StateInit -> nat, later: Exec, cfg: Config, msg: Received, vm: Vm)
    requires ex.endStatus == StFrozen && Commit(ex, used, hash).Some?
    requires later.state == Commit(ex, used, hash).value.state && later.address == ex.address
    requires msg.init.None? || msg.init.value.rootHash != FrozenHash(ex, hash)
    requires ComputePhase(cfg, later, msg, vm).Ok?
    ensures var c := ComputePhase(cfg, later, msg, vm).value;
            !c.executed && c.exec == later
  {
    ThawIff(ex, used, hash, later, cfg, msg);
    DeployIff(cfg, later, msg);
    ComputeMeaning.ComputeMeaning(cfg, later, msg, vm);
  }
}
