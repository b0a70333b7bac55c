/** Outbound messages, their forwarding price and the two rewrites that make a
    message fit into a cell. */
module Messages {
  import opened Util
  import opened Money
  import opened Cells
  import opened GasPricing

  datatype FwdPrices = FwdPrices(lumpPrice: U64, bitPrice: U64, cellPrice: U64, firstFrac: U16)

  function FwdFee(p: FwdPrices, bits: nat, cells: nat): nat {
    p.lumpPrice + ShiftCeil(p.cellPrice * cells + p.bitPrice * bits)
  }

  /** The part of a forwarding fee that the sending shard keeps. */
  function FirstPart(p: FwdPrices, fee: nat): (part: nat)
    ensures part <= fee
  {
    FirstPartBound(fee, p.firstFrac);
    fee * p.firstFrac / 65536
  }

  lemma FirstPartBound(fee: nat, frac: U16)
    ensures fee * frac / 65536 <= fee
  {
    MulMonotone(fee, frac, 65536);
  }

  // ----- Inbound form: a message as an action names it -----

  datatype RelaxedInfo =
    | RelaxedInt(srcOk: bool, dstOk: bool, dstMasterchain: bool, value: Currency)
    | RelaxedExtOut(srcOk: bool)

  datatype ParsedRaw = ParsedRaw(info: RelaxedInfo, init: Slice, body: Slice)

  /** `nothing`, an inline state init after the bits 10, or a reference after 11. */
  predicate WfInit(s: Slice) {
    || (s.bits == [false] && s.refs == [])
    || (s.bits == [true, true] && |s.refs| == 1)
    || (|s.bits| >= 2 && s.bits[0] && !s.bits[1])
  }

  /** An inline body after the bit 0 or a reference after the bit 1. */
  predicate WfBody(s: Slice) {
    || (s.bits == [true] && |s.refs| == 1)
    || (|s.bits| >= 1 && !s.bits[0])
  }

  type Parsed = p: ParsedRaw | WfInit(p.init) && WfBody(p.body)
    witness ParsedRaw(RelaxedExtOut(true), Slice([false], []), Slice([false], []))

  datatype RelaxedMsg = Exotic | Malformed | WellFormed(parsed: Parsed)

  function InitContent(s: Slice): Option<Slice>
    requires WfInit(s)
  {
    if !s.bits[0] then None
    else if s.bits[1] then Some(Slice(s.refs[0].data, s.refs[0].refs))
    else Some(Slice(s.bits[2..], s.refs))
  }

  function BodyContent(s: Slice): Slice
    requires WfBody(s)
  {
    if s.bits[0] then Slice(s.refs[0].data, s.refs[0].refs) else Slice(s.bits[1..], s.refs)
  }

  // ----- Rewrites -----

  datatype Rewrite = StateInitToCell | BodyToCell

  /** `MessageRewrite::next`. */
  function NextRewrite(r: Option<Rewrite>): Option<Rewrite> {
    match r
    case None => Some(StateInitToCell)
    case Some(StateInitToCell) => Some(BodyToCell)
    case Some(BodyToCell) => None
  }

  /** How many more attempts may follow an attempt made with `r`. */
  function AttemptsLeft(r: Option<Rewrite>): nat {
    match r
    case None => 2
    case Some(StateInitToCell) => 1
    case Some(BodyToCell) => 0
  }

  datatype Layout = Layout(init: Slice, body: Slice, rewrite: Option<Rewrite>)

  /** The slices an attempt works with and the rewrite it ends up having used:
      a state init with fewer than two references is left alone and the body is
      moved instead. */
  function ApplyRewrite(p: Parsed, r: Option<Rewrite>): (l: Layout)
    ensures AttemptsLeft(l.rewrite) <= AttemptsLeft(r)
    ensures r.None? ==> l == Layout(p.init, p.body, None)
  {
    var moveInit := r == Some(StateInitToCell) && |p.init.refs| >= 2;
    var init :=
      if moveInit then Slice([true, true], [Cell(Ordinary, p.init.bits[2..], p.init.refs)]) else p.init;
    var used := if r == Some(StateInitToCell) && !moveInit then Some(BodyToCell) else r;
    var body :=
      if used == Some(BodyToCell) && |p.body.bits| > 1 && !p.body.bits[0] then
        Slice([true], [Cell(Ordinary, p.body.bits[1..], p.body.refs)])
      else p.body;
    Layout(init, body, used)
  }

  /** Whatever is rewritten, the receiver reads the same state init and body. */
  lemma RewritePreservesContent(p: Parsed, r: Option<Rewrite>)
    ensures var l := ApplyRewrite(p, r);
            && WfInit(l.init) && WfBody(l.body)
            && InitContent(l.init) == InitContent(p.init)
            && BodyContent(l.body) == BodyContent(p.body)
  {
  }

  // ----- Outbound form -----

  datatype OutMsg =
    | IntMsg(value: Currency, fwdFee: nat, createdLt: nat, init: Slice, body: Slice)
    | ExtMsg(createdLt: nat, init: Slice, body: Slice)
    | BouncedMsg(value: Currency, fwdFee: nat, createdLt: nat)

  /** Native tokens a message carries away from the account: its value and the
      forwarding fee still to be paid on the way. */
  function NativeOf(m: OutMsg): nat {
    if m.ExtMsg? then 0 else m.value.tokens + m.fwdFee
  }

  function ExtraOf(m: OutMsg, k: nat): nat {
    if m.ExtMsg? then 0 else Amount(m.value.other, k)
  }

  function NativeSum(ms: seq<OutMsg>): nat {
    if ms == [] then 0 else NativeSum(ms[..|ms| - 1]) + NativeOf(ms[|ms| - 1])
  }

  function ExtraSum(ms: seq<OutMsg>, k: nat): nat {
    if ms == [] then 0 else ExtraSum(ms[..|ms| - 1], k) + ExtraOf(ms[|ms| - 1], k)
  }

  /** Created at consecutive logical times starting from `lt`. */
  predicate Consecutive(ms: seq<OutMsg>, lt: nat) {
    forall i :: 0 <= i < |ms| ==> ms[i].createdLt == lt + i
  }

  lemma AppendSums(ms: seq<OutMsg>, m: OutMsg)
    ensures NativeSum(ms + [m]) == NativeSum(ms) + NativeOf(m)
    ensures forall k :: ExtraSum(ms + [m], k) == ExtraSum(ms, k) + ExtraOf(m, k)
  {
    assert (ms + [m])[..|ms + [m]| - 1] == ms;
  }

  // ----- Flags -----

  datatype SendMode = SendMode(
    paySeparately: bool, ignoreError: bool, bounceOnError: bool, deleteIfEmpty: bool,
    withRemaining: bool, allBalance: bool, unknown: bool)

  datatype ReserveMode = ReserveMode(
    allBut: bool, ignoreError: bool, withOriginal: bool, reverse: bool, bounceOnError: bool, unknown: bool)

  datatype LibMode = LibMode(addPrivate: bool, addPublic: bool, bounceOnError: bool)
}
