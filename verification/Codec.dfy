/** Stack values as cells, and back. */
module StackCodec {
  import opened Util
  import opened Bits
  import opened Cells
  import opened Values

  datatype CodecError =
    CellOverflow | CellUnderflow | IntOverflow | InvalidTag | InvalidData | UnexpectedExotic | NotModelled

  datatype Result<+T> = Ok(value: T) | Err(error: CodecError)

  const MAX_BITS: nat := 1023
  const MAX_REFS: nat := 4
  const MAX_TUPLE: nat := 0xffff

  function Build(b: Slice): Cell {
    Cell(Ordinary, b.bits, b.refs)
  }

  /** Adds a piece to a builder that has room for it. */
  function Append(b: Slice, piece: Slice): Result<Slice> {
    if |b.bits| + |piece.bits| <= MAX_BITS && |b.refs| + |piece.refs| <= MAX_REFS then
      Ok(Join(b, piece))
    else Err(CellOverflow)
  }

  function Join(a: Slice, b: Slice): Slice {
    Slice(a.bits + b.bits, a.refs + b.refs)
  }

  // ----- Storing -----

  /** The window of a slice as one 26-bit number. */
  function Pack(s: CellSlice): nat {
    s.bits0 * 0x1_0000 + s.bits1 * 0x40 + s.refs0 * 8 + s.refs1
  }

  /** A value's tag byte and what follows it. */
  function Piece(tag: nat, bits: seq<bool>, refs: seq<Cell>): Slice {
    Slice(FromNat(tag, 8) + bits, refs)
  }

  /** What `store_as_stack_value` appends to a builder. */
  function Encode(v: Value): (r: Result<Slice>)
    ensures r.Ok? ==> |r.value.bits| <= 272 && |r.value.refs| <= 2
    decreases v, 1
  {
    match v
    case Null => Ok(Piece(0, [], []))
    case NaN => Ok(Slice(FromNat(0x02ff, 16), []))
    case Int(n) =>
      if FitsInt(n, 64) then Ok(Piece(1, FromInt(n, 64), []))
      else if FitsInt(n, 257) then Ok(Slice(FromNat(0x0100, 15) + FromInt(n, 257), []))
      else Err(IntOverflow)
    case CellValue(c) => Ok(Piece(3, [], [c]))
    case SliceValue(s) => Ok(Piece(4, FromNat(Pack(s), 26), [s.cell]))
    case Builder(_, data, refs) => Ok(Piece(5, [], [Cell(Ordinary, data, refs)]))
    case Tuple(items) =>
      if |items| > MAX_TUPLE then Err(IntOverflow)
      else
        var cells := EncodeAll(items);
        if cells.Err? then Err(cells.error)
        else Ok(Piece(7, FromNat(|items|, 16), TupleRefs(cells.value)))
    case ContValue(_) => Err(NotModelled)
  }

  /** Every item in a cell of its own. */
  function EncodeAll(items: seq<Value>): (r: Result<seq<Cell>>)
    ensures r.Ok? ==> |r.value| == |items|
    decreases items, 0
  {
    if items == [] then Ok([])
    else
      var init := EncodeAll(items[..|items| - 1]);
      if init.Err? then init
      else
        var last := Encode(items[|items| - 1]);
        if last.Err? then Err(last.error) else Ok(init.value + [Build(last.value)])
  }

  /** Items nested to the left: each cell holds all before it and the next one. */
  function Spine(cells: seq<Cell>): Cell
    requires cells != []
  {
    var n := |cells|;
    if n == 1 then cells[0] else Cell(Ordinary, [], [Spine(cells[..n - 1]), cells[n - 1]])
  }

  function TupleRefs(cells: seq<Cell>): (r: seq<Cell>)
    ensures |r| <= 2
  {
    var n := |cells|;
    if n <= 1 then cells else [Spine(cells[..n - 1]), cells[n - 1]]
  }

  function Store(b: Slice, v: Value): Result<Slice> {
    var piece := Encode(v);
    if piece.Err? then piece else Append(b, piece.value)
  }

  /** The items below the top of a stack, each in a cell that refers to the ones below. */
  function RestCell(items: seq<Value>): Result<Cell> {
    if items == [] then Ok(EMPTY_CELL)
    else
      var below := RestCell(items[..|items| - 1]);
      if below.Err? then below
      else
        var b := Store(Slice([], [below.value]), items[|items| - 1]);
        if b.Err? then Err(b.error) else Ok(Build(b.value))
  }

  function StoreStack(b: Slice, items: seq<Value>): Result<Slice> {
    if |items| > MAX_DEPTH then Err(IntOverflow)
    else
      var counted := Append(b, Slice(FromNat(|items|, 24), []));
      if counted.Err? || items == [] then counted
      else
        var below := RestCell(items[..|items| - 1]);
        if below.Err? then Err(below.error)
        else
          var linked := Append(counted.value, Slice([], [below.value]));
          if linked.Err? then linked else Store(linked.value, items[|items| - 1])
  }

  // ----- Loading -----

  datatype Loaded<+T> = Loaded(item: T, rest: Slice)

  function SkipBits(s: Slice, w: nat): Slice
    requires w <= |s.bits|
  {
    s.(bits := s.bits[w..])
  }

  function LoadUint(s: Slice, w: nat): Result<Loaded<nat>> {
    if |s.bits| < w then Err(CellUnderflow) else Ok(Loaded(ToNat(s.bits[..w]), SkipBits(s, w)))
  }

  function LoadInt(s: Slice, w: nat): Result<Loaded<Value>> {
    if |s.bits| < w then Err(CellUnderflow) else Ok(Loaded(Int(ToInt(s.bits[..w])), SkipBits(s, w)))
  }

  function LoadRef(s: Slice): (r: Result<Loaded<Cell>>)
    ensures r.Ok? ==> Size(r.value.item) + SizeAll(r.value.rest.refs) == SizeAll(s.refs)
  {
    if s.refs == [] then Err(CellUnderflow) else Ok(Loaded(s.refs[0], s.(refs := s.refs[1..])))
  }

  /** NaN and large integers share a tag; the next eight bits tell them apart. */
  function LoadBig(s: Slice): Result<Loaded<Value>> {
    if |s.bits| < 8 then Err(CellUnderflow)
    else
      var t := ToNat(s.bits[..8]);
      if t == 0xff then Ok(Loaded(NaN, SkipBits(s, 8)))
      else if t / 2 == 0 then LoadInt(SkipBits(s, 7), 257)
      else Err(InvalidData)
  }

  function LoadSlice(s: Slice): Result<Loaded<Value>> {
    var cell := LoadRef(s);
    if cell.Err? then Err(cell.error)
    else
      var range := LoadUint(cell.value.rest, 26);
      if range.Err? then Err(range.error)
      else
        var w := Unpack(cell.value.item, range.value.item);
        if ValidWindow(w) then Ok(Loaded(SliceValue(w), range.value.rest)) else Err(InvalidData)
  }

  function Unpack(c: Cell, v: nat): CellSlice {
    CellSlice(c, v / 0x1_0000 % 0x400, v / 0x40 % 0x400, v / 8 % 8, v % 8)
  }

  predicate ValidWindow(w: CellSlice) {
    && w.bits0 <= w.bits1 <= |w.cell.data|
    && w.refs0 <= w.refs1 <= MAX_REFS && w.refs1 <= |w.cell.refs|
  }

  predicate IsEmpty(s: Slice) {
    s.bits == [] && s.refs == []
  }

  /** `load_stack_value`. */
  function Load(s: Slice): (r: Result<Loaded<Value>>)
    decreases SizeAll(s.refs), 3
  {
    var tag := LoadUint(s, 8);
    if tag.Err? then Err(tag.error)
    else
      var t := tag.value.rest;
      match tag.value.item
      case 0 => Ok(Loaded(Null, t))
      case 1 => LoadInt(t, 64)
      case 2 => LoadBig(t)
      case 3 =>
        (var c := LoadRef(t);
         if c.Err? then Err(c.error) else Ok(Loaded(CellValue(c.value.item), c.value.rest)))
      case 4 => LoadSlice(t)
      case 5 =>
        (var c := LoadRef(t);
         if c.Err? then Err(c.error)
         else Ok(Loaded(Builder(false, c.value.item.data, c.value.item.refs), c.value.rest)))
      case 6 => Err(NotModelled)
      case 7 => LoadTuple(t)
      case _ => Err(InvalidTag)
  }

  function LoadTuple(s: Slice): Result<Loaded<Value>>
    decreases SizeAll(s.refs), 2
  {
    var len := LoadUint(s, 16);
    if len.Err? then Err(len.error)
    else
      var n, t := len.value.item, len.value.rest;
      if n == 0 then Ok(Loaded(Tuple([]), t))
      else
        var head := LoadRef(t);
        if head.Err? then Err(head.error)
        else if n == 1 then
          var v := LoadFromCell(head.value.item);
          if v.Err? then Err(v.error) else Ok(Loaded(Tuple([v.value]), head.value.rest))
        else
          var tail := LoadRef(head.value.rest);
          if tail.Err? then Err(tail.error)
          else
            var last := LoadFromCell(tail.value.item);
            if last.Err? then Err(last.error)
            else
              var init := LoadSpine(head.value.item, n - 1);
              if init.Err? then Err(init.error)
              else Ok(Loaded(Tuple(init.value + [last.value]), tail.value.rest))
  }

  /** The `k` items nested in a cell. */
  function LoadSpine(head: Cell, k: nat): Result<seq<Value>>
    requires k > 0
    decreases Size(head), 1
  {
    if k == 1 then
      var v := LoadFromCell(head);
      if v.Err? then Err(v.error) else Ok([v.value])
    else
      var pair := OpenPair(head);
      if pair.Err? then Err(pair.error)
      else
        var last := LoadFromCell(pair.value.1);
        if last.Err? then Err(last.error)
        else
          var init := LoadSpine(pair.value.0, k - 1);
          if init.Err? then init else Ok(init.value + [last.value])
  }

  /** An ordinary cell with no data and exactly two references. */
  function OpenPair(c: Cell): (r: Result<(Cell, Cell)>)
    ensures r.Ok? ==> Size(r.value.0) < Size(c) && Size(r.value.1) < Size(c)
  {
    if !c.kind.Ordinary? then Err(UnexpectedExotic)
    else
      var first := LoadRef(Slice(c.data, c.refs));
      if first.Err? then Err(first.error)
      else
        var second := LoadRef(first.value.rest);
        if second.Err? then Err(second.error)
        else if !IsEmpty(second.value.rest) then Err(InvalidData)
        else Ok((first.value.item, second.value.item))
  }

  /** `load_stack_value_from_cell`: nothing may be left over. */
  function LoadFromCell(c: Cell): Result<Value>
    decreases Size(c), 0
  {
    if !c.kind.Ordinary? then Err(UnexpectedExotic)
    else
      var v := Load(Slice(c.data, c.refs));
      if v.Err? then Err(v.error)
      else if !IsEmpty(v.value.rest) then Err(InvalidData)
      else Ok(v.value.item)
  }

  /** An ordinary cell with a reference to the cell below and one value. */
  function OpenLink(c: Cell): Result<(Cell, Value)> {
    if !c.kind.Ordinary? then Err(UnexpectedExotic)
    else
      var below := LoadRef(Slice(c.data, c.refs));
      if below.Err? then Err(below.error)
      else
        var v := Load(below.value.rest);
        if v.Err? then Err(v.error)
        else if !IsEmpty(v.value.rest) then Err(InvalidData)
        else Ok((below.value.item, v.value.item))
  }

  /** The `k` items below the top of a stack. */
  function LoadRest(c: Cell, k: nat): Result<seq<Value>>
    decreases k
  {
    if k == 0 then
      if !c.kind.Ordinary? then Err(UnexpectedExotic)
      else if IsEmpty(Slice(c.data, c.refs)) then Ok([])
      else Err(InvalidData)
    else
      var link := OpenLink(c);
      if link.Err? then Err(link.error)
      else
        var others := LoadRest(link.value.0, k - 1);
        if others.Err? then others else Ok(others.value + [link.value.1])
  }

  /** `Stack::load_from`. The cell below a single item is not looked at. */
  function LoadStack(s: Slice): Result<Loaded<seq<Value>>> {
    var depth := LoadUint(s, 24);
    if depth.Err? then Err(depth.error)
    else
      var n, t := depth.value.item, depth.value.rest;
      if n == 0 then Ok(Loaded([], t))
      else
        var below := LoadRef(t);
        if below.Err? then Err(below.error)
        else
          var top := Load(below.value.rest);
          if top.Err? then Err(top.error)
          else if n == 1 then Ok(Loaded([top.value.item], top.value.rest))
          else
            var others := LoadRest(below.value.item, n - 1);
            if others.Err? then Err(others.error)
            else Ok(Loaded(others.value + [top.value.item], top.value.rest))
  }
}
