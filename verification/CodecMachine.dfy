/** The loops that store and load tuples and stacks, each equal to its specification. */
module StackCodecMachine {
  import opened Util
  import opened Bits
  import opened Cells
  import opened Values
  import opened StackCodec

  const NOTHING: Slice := Slice([], [])

  // ----- Storing -----

  /** What the two cells of the tuple loop hold after some items. */
  function HeadTail(cells: seq<Cell>): (Option<Cell>, Option<Cell>) {
    var n := |cells|;
    if n == 0 then (None, None)
    else if n == 1 then (None, Some(cells[0]))
    else (Some(Spine(cells[..n - 1])), Some(cells[n - 1]))
  }

  lemma StoreAlone(v: Value)
    ensures Store(NOTHING, v) == Encode(v)
  {
    if Encode(v).Ok? {
      assert Join(NOTHING, Encode(v).value) == Encode(v).value;
    }
  }

  lemma EncodeNext(items: seq<Value>, i: nat)
    requires i < |items| && EncodeAll(items[..i]).Ok?
    ensures EncodeAll(items[..i + 1]) ==
            if Encode(items[i]).Ok? then Ok(EncodeAll(items[..i]).value + [Build(Encode(items[i]).value)])
            else Err(Encode(items[i]).error)
  {
    assert items[..i + 1][..i] == items[..i];
  }

  lemma {:induction false} EncodeFails(items: seq<Value>, i: nat)
    requires i <= |items| && EncodeAll(items[..i]).Err?
    ensures EncodeAll(items) == EncodeAll(items[..i])
    decreases |items| - i
  {
    if i == |items| {
      assert items[..i] == items;
    } else {
      assert items[..i + 1][..i] == items[..i];
      assert EncodeAll(items[..i + 1]) == EncodeAll(items[..i]);
      EncodeFails(items, i + 1);
    }
  }

  /** One round of the tuple loop, apart from the new item. */
  lemma SwapAndPair(cells: seq<Cell>, c: Cell)
    ensures var (head, tail) := HeadTail(cells);
            HeadTail(cells + [c]) ==
            (if head.Some? && tail.Some? then Some(Cell(Ordinary, [], [head.value, tail.value])) else tail, Some(c))
  {
    var n := |cells|;
    assert (cells + [c])[..n] == cells;
    if n == 1 {
      assert cells == [cells[0]];
    }
  }

  method StoreValue(b: Slice, v: Value) returns (r: Result<Slice>)
    ensures r == Store(b, v)
    decreases v, 2
  {
    if v.Tuple? {
      r := StoreTuple(b, v.items);
    } else {
      var piece := Encode(v);
      r := if piece.Err? then piece else Append(b, piece.value);
    }
  }

  /** Pairs up the cells of the items as they come. */
  method TupleCells(items: seq<Value>) returns (r: Result<(Option<Cell>, Option<Cell>)>)
    ensures var cells := EncodeAll(items);
            r == if cells.Ok? then Ok(HeadTail(cells.value)) else Err(cells.error)
    decreases items, 0
  {
    var head: Option<Cell>, tail: Option<Cell> := None, None;
    var i := 0;
    while i < |items|
      invariant i <= |items|
      invariant EncodeAll(items[..i]).Ok? && (head, tail) == HeadTail(EncodeAll(items[..i]).value)
    {
      head, tail := tail, head;
      if tail.Some? && head.Some? {
        head, tail := Some(Cell(Ordinary, [], [tail.value, head.value])), None;
      }
      var cell := StoreValue(NOTHING, items[i]);
      StoreAlone(items[i]);
      EncodeNext(items, i);
      if cell.Err? {
        EncodeFails(items, i + 1);
        return Err(cell.error);
      }
      SwapAndPair(EncodeAll(items[..i]).value, Build(cell.value));
      tail := Some(Build(cell.value));
      i := i + 1;
    }
    assert items[..i] == items;
    r := Ok((head, tail));
  }

  lemma PairIsRefs(cells: seq<Cell>)
    ensures var (head, tail) := HeadTail(cells);
            TupleRefs(cells) == (if head.Some? then [head.value] else []) + (if tail.Some? then [tail.value] else [])
  {
    if |cells| == 1 {
      assert cells == [cells[0]];
    }
  }

  method StoreTuple(b: Slice, items: seq<Value>) returns (r: Result<Slice>)
    ensures r == Store(b, Tuple(items))
    decreases items, 1
  {
    if |items| > MAX_TUPLE {
      return Err(IntOverflow);
    }
    var cells := TupleCells(items);
    if cells.Err? {
      return Err(cells.error);
    }
    PairIsRefs(EncodeAll(items).value);
    var (head, tail) := cells.value;
    var refs := (if head.Some? then [head.value] else []) + (if tail.Some? then [tail.value] else []);
    r := Append(b, Piece(7, FromNat(|items|, 16), refs));
  }

  lemma RestNext(items: seq<Value>, i: nat)
    requires i < |items| && RestCell(items[..i]).Ok?
    ensures var b := Store(Slice([], [RestCell(items[..i]).value]), items[i]);
            RestCell(items[..i + 1]) == if b.Ok? then Ok(Build(b.value)) else Err(b.error)
  {
    assert items[..i + 1][..i] == items[..i];
  }

  lemma {:induction false} RestFails(items: seq<Value>, i: nat)
    requires i <= |items| && RestCell(items[..i]).Err?
    ensures RestCell(items) == RestCell(items[..i])
    decreases |items| - i
  {
    if i == |items| {
      assert items[..i] == items;
    } else {
      assert items[..i + 1][..i] == items[..i];
      assert RestCell(items[..i + 1]) == RestCell(items[..i]);
      RestFails(items, i + 1);
    }
  }

  /** The chain of cells below the top. */
  method StoreRest(items: seq<Value>) returns (r: Result<Cell>)
    ensures r == RestCell(items)
  {
    var rest := EMPTY_CELL;
    var i := 0;
    while i < |items|
      invariant i <= |items|
      invariant RestCell(items[..i]) == Ok(rest)
    {
      var b := StoreValue(Slice([], [rest]), items[i]);
      RestNext(items, i);
      if b.Err? {
        RestFails(items, i + 1);
        return Err(b.error);
      }
      rest := Build(b.value);
      i := i + 1;
    }
    assert items[..i] == items;
    r := Ok(rest);
  }

  method StoreWholeStack(b: Slice, items: seq<Value>) returns (r: Result<Slice>)
    ensures r == StoreStack(b, items)
  {
    if |items| > MAX_DEPTH {
      return Err(IntOverflow);
    }
    r := Append(b, Slice(FromNat(|items|, 24), []));
    if r.Err? || items == [] {
      return;
    }
    var rest := StoreRest(items[..|items| - 1]);
    if rest.Err? {
      return Err(rest.error);
    }
    r := Append(r.value, Slice([], [rest.value]));
    if r.Ok? {
      r := StoreValue(r.value, items[|items| - 1]);
    }
  }

  // ----- Loading -----

  function Reversed(s: seq<Value>): (r: seq<Value>)
    ensures |r| == |s|
  {
    if s == [] then [] else [s[|s| - 1]] + Reversed(s[..|s| - 1])
  }

  /** Items found further down go in front of those already read. */
  function Before(r: Result<seq<Value>>, read: seq<Value>): Result<seq<Value>> {
    if r.Err? then r else Ok(r.value + Reversed(read))
  }

  lemma BeforePushed(r: Result<seq<Value>>, read: seq<Value>, v: Value)
    ensures Before(r, read + [v]) == Before(if r.Err? then r else Ok(r.value + [v]), read)
  {
    assert (read + [v])[..|read|] == read;
    if r.Ok? {
      assert r.value + ([v] + Reversed(read)) == (r.value + [v]) + Reversed(read);
    }
  }

  method LoadValue(s: Slice) returns (r: Result<Loaded<Value>>)
    ensures r == Load(s)
    decreases SizeAll(s.refs), 3
  {
    var tag := LoadUint(s, 8);
    if tag.Ok? && tag.value.item == 7 {
      r := LoadTupleValue(tag.value.rest);
    } else {
      r := Load(s);
    }
  }

  method LoadCellValue(c: Cell) returns (r: Result<Value>)
    ensures r == LoadFromCell(c)
    decreases Size(c), 0
  {
    if !c.kind.Ordinary? {
      return Err(UnexpectedExotic);
    }
    var v := LoadValue(Slice(c.data, c.refs));
    if v.Err? {
      return Err(v.error);
    }
    r := if IsEmpty(v.value.rest) then Ok(v.value.item) else Err(InvalidData);
  }

  /** Walks down the nested cells, reading items from the last to the first. */
  method LoadSpineItems(root: Cell, n: nat, read: seq<Value>) returns (r: Result<seq<Value>>)
    requires n > 0
    ensures r == Before(LoadSpine(root, n), read)
    decreases Size(root), 1
  {
    var head, k, tuple := root, n, read;
    while k > 1
      invariant 1 <= k && Size(head) <= Size(root)
      invariant Before(LoadSpine(root, n), read) == Before(LoadSpine(head, k), tuple)
    {
      var pair := OpenPair(head);
      if pair.Err? {
        return Err(pair.error);
      }
      var v := LoadCellValue(pair.value.1);
      if v.Err? {
        return Err(v.error);
      }
      BeforePushed(LoadSpine(pair.value.0, k - 1), tuple, v.value);
      head, k, tuple := pair.value.0, k - 1, tuple + [v.value];
    }
    var v := LoadCellValue(head);
    if v.Err? {
      return Err(v.error);
    }
    BeforePushed(Ok([]), tuple, v.value);
    r := Ok(Reversed(tuple + [v.value]));
  }

  method LoadTupleValue(s: Slice) returns (r: Result<Loaded<Value>>)
    ensures r == LoadTuple(s)
    decreases SizeAll(s.refs), 2
  {
    var len := LoadUint(s, 16);
    if len.Err? {
      return Err(len.error);
    }
    var n, t := len.value.item, len.value.rest;
    if n == 0 {
      return Ok(Loaded(Tuple([]), t));
    }
    var head := LoadRef(t);
    if head.Err? {
      return Err(head.error);
    }
    if n == 1 {
      var v := LoadCellValue(head.value.item);
      return if v.Err? then Err(v.error) else Ok(Loaded(Tuple([v.value]), head.value.rest));
    }
    var tail := LoadRef(head.value.rest);
    if tail.Err? {
      return Err(tail.error);
    }
    var last := LoadCellValue(tail.value.item);
    if last.Err? {
      return Err(last.error);
    }
    var items := LoadSpineItems(head.value.item, n - 1, [last.value]);
    assert Reversed([last.value]) == [last.value];
    r := if items.Err? then Err(items.error) else Ok(Loaded(Tuple(items.value), tail.value.rest));
  }

  /** Reading one link leaves the result of the whole chain as it was. */
  lemma BeforeLink(rest: Cell, k: nat, items: seq<Value>, below: Cell, v: Value)
    requires k > 0 && OpenLink(rest) == Ok((below, v))
    ensures Before(LoadRest(rest, k), items) == Before(LoadRest(below, k - 1), items + [v])
  {
    BeforePushed(LoadRest(below, k - 1), items, v);
  }

  method LoadLink(c: Cell) returns (r: Result<(Cell, Value)>)
    ensures r == OpenLink(c)
  {
    if !c.kind.Ordinary? {
      return Err(UnexpectedExotic);
    }
    var below := LoadRef(Slice(c.data, c.refs));
    if below.Err? {
      return Err(below.error);
    }
    var v := LoadValue(below.value.rest);
    if v.Err? {
      return Err(v.error);
    }
    r := if IsEmpty(v.value.rest) then Ok((below.value.item, v.value.item)) else Err(InvalidData);
  }

  /** Walks down the chain of cells below the top of a stack. */
  method LoadRestItems(root: Cell, n: nat, read: seq<Value>) returns (r: Result<seq<Value>>)
    ensures r == Before(LoadRest(root, n), read)
  {
    var rest, k, items := root, n, read;
    while k > 0
      invariant Before(LoadRest(root, n), read) == Before(LoadRest(rest, k), items)
    {
      var link := LoadLink(rest);
      if link.Err? {
        return Err(link.error);
      }
      BeforeLink(rest, k, items, link.value.0, link.value.1);
      rest, k, items := link.value.0, k - 1, items + [link.value.1];
    }
    r := EndOfChain(rest);
    if r.Ok? {
      assert [] + Reversed(items) == Reversed(items);
      r := Ok(Reversed(items));
    }
  }

  /** The chain must end in an ordinary cell with nothing in it. */
  method EndOfChain(c: Cell) returns (r: Result<seq<Value>>)
    ensures r == LoadRest(c, 0)
  {
    if !c.kind.Ordinary? {
      return Err(UnexpectedExotic);
    }
    r := if IsEmpty(Slice(c.data, c.refs)) then Ok([]) else Err(InvalidData);
  }

  method LoadWholeStack(s: Slice) returns (r: Result<Loaded<seq<Value>>>)
    ensures r == LoadStack(s)
  {
    var depth := LoadUint(s, 24);
    if depth.Err? {
      return Err(depth.error);
    }
    if depth.value.item == 0 {
      return Ok(Loaded([], depth.value.rest));
    }
    var below := LoadRef(depth.value.rest);
    if below.Err? {
      return Err(below.error);
    }
    var top := LoadValue(below.value.rest);
    if top.Err? {
      return Err(top.error);
    }
    if depth.value.item == 1 {
      return Ok(Loaded([top.value.item], top.value.rest));
    }
    var items := LoadRestItems(below.value.item, depth.value.item - 1, [top.value.item]);
    assert Reversed([top.value.item]) == [top.value.item];
    r := if items.Err? then Err(items.error) else Ok(Loaded(items.value, top.value.rest));
  }
}
