/** What receiving a message takes, brings and sets. */
module ReceiveMeaning {
  import opened Util
  import opened Money
  import opened Cells
  import opened CellStat
  import opened Messages
  import opened ExecutorTypes
  import opened PhaseSpec

  // ----- The import fee -----

  /** A root cell with so many bits, which no cell below it can be. */
  function RootCell(h: Header): Cell
    requires h.InExt?
  {
    Cell(Ordinary, seq(h.rootBits, i => false), h.refs)
  }

  lemma RootAbove(h: Header)
    requires h.InExt?
    ensures RootCell(h) !in ReachAll(h.refs) && Size(RootCell(h)) > SizeAll(h.refs)
  {
    if RootCell(h) in ReachAll(h.refs) {
      ReachAllSize(h.refs, RootCell(h));
      assert false;
    }
  }

  lemma RootAlone(h: Header)
    requires h.InExt?
    ensures BitSum({RootCell(h)}) == h.rootBits && |{RootCell(h)}| == 1
  {
    var root := RootCell(h);
    BitSumRemove({root}, root);
    assert {root} - {root} == {};
  }

  /** The message with its root fits the limits. Without references nothing is counted. */
  ghost predicate Importable(cfg: Config, h: Header)
    requires h.InExt?
  {
    h.refs == [] || (Fits({RootCell(h)} + ReachAll(h.refs), Limits(cfg.maxMsgBits, cfg.maxMsgCells)) && Shallow(ReachAll(h.refs)))
  }

  /** The fee for the distinct cells below the root; the root is free. */
  ghost function CountedImportFee(cfg: Config, ex: Exec, h: Header): nat
    requires h.InExt?
  {
    if ex.special then 0
    else FwdFee(if ex.masterchain then cfg.mcFwdPrices else cfg.fwdPrices, BitSum(ReachAll(h.refs)), |ReachAll(h.refs)|)
  }

  lemma ImportFeeMeaning(cfg: Config, ex: Exec, h: Header)
    requires h.InExt?
    ensures var fee := ImportFee(cfg, ex, h);
            && (fee.Some? <==> Importable(cfg, h))
            && (fee.Some? ==> fee.value == CountedImportFee(cfg, ex, h))
  {
    ImportCount(Limits(cfg.maxMsgBits, cfg.maxMsgCells), h);
  }

  /** The counter that starts with the root already counted. */
  lemma ImportCount(lim: Limits, h: Header)
    requires h.InExt?
    ensures var (s, d) := VisitAll(Stat(map[], 1, h.rootBits), lim, h.refs, 0);
            && (d.Some? <==> h.refs == [] || (Fits({RootCell(h)} + ReachAll(h.refs), lim) && Shallow(ReachAll(h.refs))))
            && (d.Some? ==> s.cells == 1 + |ReachAll(h.refs)| && s.bits == h.rootBits + BitSum(ReachAll(h.refs)))
  {
    var st := Stat(map[], 1, h.rootBits);
    var root := RootCell(h);
    RootAbove(h);
    RootAlone(h);
    if h.refs == [] {
      assert ReachAll(h.refs) == {};
    } else if Fits({root}, lim) {
      VisitAllCounts(st, lim, h.refs, 0, {root});
      SumWithRoot(root, ReachAll(h.refs));
    } else {
      TooLargeAlready(st, lim, h.refs);
      BitSumMonotone({root}, {root} + ReachAll(h.refs));
    }
  }

  lemma SumWithRoot(root: Cell, below: set<Cell>)
    requires root !in below
    ensures |{root} + below| == 1 + |below| && BitSum({root} + below) == |root.data| + BitSum(below)
  {
    BitSumRemove({root} + below, root);
    assert {root} + below - {root} == below;
  }

  lemma TooLargeAlready(st: Stat, lim: Limits, cs: seq<Cell>)
    requires cs != [] && st.visited == map[] && (st.cells > lim.cells || st.bits > lim.bits)
    ensures VisitAll(st, lim, cs, 0).1.None?
  {
    assert Visit(st, lim, cs[0]).1.None?;
  }

  // ----- The message -----

  /** The one masterchain account whose income is burned. */
  predicate Burns(cfg: Config, ex: Exec) {
    ex.masterchain && cfg.blackhole == Some(ex.address)
  }

  /** What has been received, exactly. */
  ghost predicate ReceivedExactly(cfg: Config, ex: Exec, m: Inbound, w: WithMsg) {
    && w.msg.init == m.init
    && match m.header
       case NotInbound => false
       case InInt(_, bounce, value, ihrFee, createdLt, _, _) =>
         && !w.msg.external && w.msg.bounceEnabled == bounce
         && w.exec.startLt == Max(ex.startLt, createdLt + 1)
         && w.msg.balance == Currency(if Burns(cfg, ex) then 0 else value.tokens + ihrFee, value.other)
         && w.exec == ex.(startLt := w.exec.startLt, endLt := w.exec.endLt,
                          burned := if Burns(cfg, ex) then value.tokens + ihrFee else ex.burned)
       case InExt(_, _, _) =>
         var fee := CountedImportFee(cfg, ex, m.header);
         && w.msg.external && !w.msg.bounceEnabled && w.msg.balance == ZERO
         && fee <= ex.balance.tokens
         && w.exec == ex.(balance := ex.balance.(tokens := ex.balance.tokens - fee), totalFees := ex.totalFees + fee,
                          burned := if Burns(cfg, ex) then 0 else ex.burned)
  }

  /** A message is received if and only if it is an inbound one for this account that can
      be read and, if external, fits the limits and is paid for, no amount overflowing. */
  ghost predicate Receivable(cfg: Config, ex: Exec, m: Inbound) {
    && m.tailOk
    && match m.header
       case NotInbound => false
       case InInt(dstOk, _, value, ihrFee, _, _, _) => dstOk && value.tokens + ihrFee <= MAX_TOKENS
       case InExt(dstOk, _, _) =>
         && dstOk && Importable(cfg, m.header)
         && CountedImportFee(cfg, ex, m.header) <= ex.balance.tokens
         && ex.totalFees + CountedImportFee(cfg, ex, m.header) <= MAX_TOKENS
  }

  lemma ReceiveIff(cfg: Config, ex: Exec, m: Inbound)
    ensures var r := Receive(cfg, ex, m);
            && (r.Ok? <==> Receivable(cfg, ex, m))
            && (r.Ok? ==> ReceivedExactly(cfg, ex, m, r.value))
  {
    if m.header.InExt? {
      ImportFeeMeaning(cfg, ex, m.header);
    }
  }
}
