/** The executor's configuration and the state its phases share. */
module ExecutorTypes {
  import opened Util
  import opened Money
  import opened Cells
  import opened CellStat
  import opened GasPricing
  import opened StorageFees
  import opened Messages

  datatype StateInit = StateInit(code: Option<Cell>, data: Option<Cell>, libs: map<Cell, bool>, splitDepth: bool)

  const EMPTY_STATE := StateInit(None, None, map[], false)

  datatype AccountState = Uninit | Frozen(hash: nat) | Active(init: StateInit)

  datatype Status = StNotExists | StUninit | StFrozen | StActive

  /** Why a phase gives up; none of these leaves a transaction behind. */
  datatype Failure = Underflow | Overflow | TimeWentBack | BadMessage | BadBounceAddress | NotAccepted

  datatype Result<+T> = Ok(value: T) | Err(error: Failure)

  /** Network configuration and executor parameters. The serialisation of
      dictionaries and the question whether a message fits into one cell belong to
      another library and are parameters. */
  datatype Config = Config(
    gasPrices: GasPrices, mcGasPrices: GasPrices,
    fwdPrices: FwdPrices, mcFwdPrices: FwdPrices,
    storagePrices: seq<Segment>,
    maxMsgBits: U32, maxMsgCells: U32, maxLibraryCells: U32,
    maxStateBits: U32, maxStateCells: U32, maxPublicLibraries: U32,
    blackhole: Option<nat>,
    now: nat,
    disableDeleteFrozen: bool, chargeFeesOnFail: bool, fullBodyInBounced: bool, strictExtra: bool,
    dictRoot: Extra -> Option<Cell>,
    libsRoot: map<Cell, bool> -> Option<Cell>,
    fits: OutMsg -> bool)
  {
    function Gas(mc: bool): GasPrices {
      if mc then mcGasPrices else gasPrices
    }

    function Fwd(mc: bool): FwdPrices {
      if mc then mcFwdPrices else fwdPrices
    }
  }

  datatype Exec = Exec(
    special: bool, masterchain: bool, address: nat,
    used: Usage, lastPaid: nat, due: Option<nat>,
    balance: Currency, state: AccountState,
    origStatus: Status, endStatus: Status,
    startLt: nat, endLt: nat,
    outMsgs: seq<OutMsg>, totalFees: nat, burned: nat)

  function RootOf(o: Option<Cell>): seq<Cell> {
    if o.Some? then [o.value] else []
  }

  function StateRoots(cfg: Config, st: StateInit): seq<Cell> {
    RootOf(st.code) + RootOf(st.data) + RootOf(cfg.libsRoot(st.libs))
  }

  /** The cells of a state are those of its code, its data and its libraries. */
  lemma StateCells(cfg: Config, st: StateInit, x: Cell)
    ensures x in ReachAll(StateRoots(cfg, st)) <==>
            || (st.code.Some? && x in Reach(st.code.value))
            || (st.data.Some? && x in Reach(st.data.value))
            || (cfg.libsRoot(st.libs).Some? && x in Reach(cfg.libsRoot(st.libs).value))
  {
    ReachAllMember(StateRoots(cfg, st), x);
    assert forall c :: c in StateRoots(cfg, st) <==> Some(c) in {st.code, st.data, cfg.libsRoot(st.libs)};
  }

  function PublicLibs(libs: map<Cell, bool>): set<Cell> {
    set c | c in libs && libs[c]
  }

  function StateLimits(cfg: Config): Limits {
    Limits(cfg.maxStateBits, cfg.maxStateCells)
  }

  /** `check_state_limits` answers `Exceeds`. */
  predicate StateExceeds(cfg: Config, st: StateInit, maxPublic: nat, checkPublic: bool) {
    || VisitAll(FRESH, StateLimits(cfg), StateRoots(cfg, st), 0).1.None?
    || (checkPublic && |PublicLibs(st.libs)| > maxPublic)
  }

  /** `check_state_limits_diff` answers `Exceeds`: an unchanged state never does. */
  predicate StateDiffExceeds(cfg: Config, before: StateInit, after: StateInit, maxPublic: nat, mc: bool) {
    && (before.code, before.data, before.libs) != (after.code, after.data, after.libs)
    && StateExceeds(cfg, after, maxPublic, mc && before.libs != after.libs)
  }

  /** The limits check accepts exactly the states whose distinct cells and bits fit
      and whose public libraries are few enough. */
  lemma StateExceedsIff(cfg: Config, st: StateInit, maxPublic: nat, checkPublic: bool)
    ensures StateExceeds(cfg, st, maxPublic, checkPublic) <==>
            !(&& Fits(ReachAll(StateRoots(cfg, st)), StateLimits(cfg))
              && Shallow(ReachAll(StateRoots(cfg, st)))
              && (checkPublic ==> |PublicLibs(st.libs)| <= maxPublic))
  {
    FreshCounterIsExact(StateLimits(cfg), StateRoots(cfg, st));
  }
}
