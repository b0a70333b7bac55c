/** What lies below the lowest item of a stored stack, and when loading looks at it. */
module StackBottom {
  import opened Util
  import opened Bits
  import opened Cells
  import opened Values
  import opened StackCodec
  import opened StackCodecProofs

  /** The chain of `k` items below the top, with another cell at its end. */
  function Rebase(c: Cell, k: nat, bottom: Cell): Cell {
    if k == 0 then bottom
    else if c.refs == [] then c
    else c.(refs := [Rebase(c.refs[0], k - 1, bottom)] + c.refs[1..])
  }

  /** The same stack with another cell below its lowest item. */
  function WithBottom(s: Slice, n: nat, bottom: Cell): Slice {
    if n == 0 || s.refs == [] then s
    else s.(refs := [Rebase(s.refs[0], n - 1, bottom)] + s.refs[1..])
  }

  predicate EmptyOrdinary(c: Cell) {
    c.kind.Ordinary? && c.data == [] && c.refs == []
  }

  /** A link reads the same whatever it is linked to. */
  lemma LinkIgnoresBelow(c: Cell, below: Cell)
    requires OpenLink(c).Ok?
    ensures c.refs != []
    ensures OpenLink(c.(refs := [below] + c.refs[1..])) == Ok((below, OpenLink(c).value.1))
    ensures OpenLink(c).value.0 == c.refs[0]
  {
    var d := c.(refs := [below] + c.refs[1..]);
    assert d.refs[1..] == c.refs[1..];
    assert LoadRef(Slice(d.data, d.refs)) == Ok(Loaded(below, Slice(c.data, c.refs[1..])));
  }

  lemma {:induction false} RebaseStep(c: Cell, below: Cell, v: Value, k: nat, bottom: Cell)
    requires k > 0 && OpenLink(c) == Ok((below, v))
    ensures OpenLink(Rebase(c, k, bottom)) == Ok((Rebase(below, k - 1, bottom), v))
  {
    LinkIgnoresBelow(c, Rebase(below, k - 1, bottom));
  }

  lemma {:induction false} RestStep(c: Cell, below: Cell, v: Value, k: nat)
    requires k > 0 && OpenLink(c) == Ok((below, v))
    ensures var others := LoadRest(below, k - 1);
            LoadRest(c, k) == if others.Err? then others else Ok(others.value + [v])
  {
  }

  lemma {:induction false} RestNeedsEmptyBottom(c: Cell, k: nat, bottom: Cell)
    requires LoadRest(c, k).Ok?
    ensures LoadRest(Rebase(c, k, bottom), k) ==
            if EmptyOrdinary(bottom) then LoadRest(c, k)
            else if bottom.kind.Ordinary? then Err(InvalidData) else Err(UnexpectedExotic)
  {
    if k > 0 {
      var (below, v) := OpenLink(c).value;
      RestStep(c, below, v, k);
      RestNeedsEmptyBottom(below, k - 1, bottom);
      RebaseStep(c, below, v, k, bottom);
      RestStep(Rebase(c, k, bottom), Rebase(below, k - 1, bottom), v, k);
    }
  }

  /** The rest of loading a stack, once its top has been read. */
  function Finish(n: nat, first: Cell, top: Result<Loaded<Value>>): Result<Loaded<seq<Value>>>
    requires n > 0
  {
    if top.Err? then Err(top.error)
    else if n == 1 then Ok(Loaded([top.value.item], top.value.rest))
    else
      var others := LoadRest(first, n - 1);
      if others.Err? then Err(others.error)
      else Ok(Loaded(others.value + [top.value.item], top.value.rest))
  }

  lemma LoadsInParts(s: Slice)
    requires LoadUint(s, 24).Ok? && LoadUint(s, 24).value.item > 0
    ensures s.refs == [] ==> LoadStack(s) == Err(CellUnderflow)
    ensures s.refs != [] ==>
      LoadStack(s) == Finish(LoadUint(s, 24).value.item, s.refs[0], Load(Slice(s.bits[24..], s.refs[1..])))
  {
    if s.refs != [] {
      assert LoadRef(LoadUint(s, 24).value.rest) == Ok(Loaded(s.refs[0], Slice(s.bits[24..], s.refs[1..])));
    }
  }

  lemma FinishIff(n: nat, first: Cell, top: Result<Loaded<Value>>, bottom: Cell)
    requires n > 0 && Finish(n, first, top).Ok?
    ensures var other := Finish(n, Rebase(first, n - 1, bottom), top);
            && (other.Ok? <==> n == 1 || EmptyOrdinary(bottom))
            && (other.Ok? ==> other == Finish(n, first, top))
  {
    if n > 1 {
      RestNeedsEmptyBottom(first, n - 1, bottom);
    }
  }

  /** A stack that loads still loads with any other cell at its bottom if and only if
      that cell is ordinary and empty, or the stack has a single item and the cell is
      not looked at. */
  lemma BottomIff(s: Slice, bottom: Cell)
    requires LoadStack(s).Ok? && LoadUint(s, 24).value.item > 0
    ensures var n := LoadUint(s, 24).value.item;
            && (LoadStack(WithBottom(s, n, bottom)).Ok? <==> n == 1 || EmptyOrdinary(bottom))
            && (n == 1 || EmptyOrdinary(bottom) ==> LoadStack(WithBottom(s, n, bottom)) == LoadStack(s))
  {
    var n := LoadUint(s, 24).value.item;
    LoadsInParts(s);
    var w := WithBottom(s, n, bottom);
    assert w.refs[1..] == s.refs[1..];
    LoadsInParts(w);
    FinishIff(n, s.refs[0], Load(Slice(s.bits[24..], s.refs[1..])), bottom);
  }

  /** A stored stack ends in an ordinary empty cell unless it has a single item: of all
      cells at the bottom of two or more items, only that one loads. */
  lemma LoadedBottom(s: Slice)
    requires LoadStack(s).Ok?
    ensures var n := LoadUint(s, 24).value.item;
            n > 1 ==> s.refs != [] && EmptyOrdinary(Bottom(s.refs[0], n - 1))
  {
    var n := LoadUint(s, 24).value.item;
    if n > 1 {
      LoadsInParts(s);
      FinishEnds(n, s.refs[0], Load(Slice(s.bits[24..], s.refs[1..])));
    }
  }

  lemma FinishEnds(n: nat, first: Cell, top: Result<Loaded<Value>>)
    requires n > 1 && Finish(n, first, top).Ok?
    ensures EmptyOrdinary(Bottom(first, n - 1))
  {
    RestEndsEmpty(first, n - 1);
  }

  /** The cell `k` links down. */
  function Bottom(c: Cell, k: nat): Cell {
    if k == 0 || c.refs == [] then c else Bottom(c.refs[0], k - 1)
  }

  lemma {:induction false} RestEndsEmpty(c: Cell, k: nat)
    requires LoadRest(c, k).Ok?
    ensures EmptyOrdinary(Bottom(c, k))
  {
    if k > 0 {
      LinkIgnoresBelow(c, c);
      RestEndsEmpty(c.refs[0], k - 1);
    }
  }

  /** Where the check is missing: one null on top of any cell whatever. */
  lemma SingleItemOnAnything(below: Cell)
    ensures LoadStack(Slice(FromNat(1, 24) + FromNat(0, 8), [below])) == Ok(Loaded([Null], Slice([], [])))
  {
    var top := Piece(0, [], []);
    var none := Slice([], []);
    NullRoundTrip(none);
    JoinNothing(top);
    var s := Slice(FromNat(1, 24) + top.bits, [below]);
    assert top.bits == FromNat(0, 8);
    DepthRoundTrip(1, s, none);
    JoinNothing(s);
    assert s.bits[24..] == top.bits;
    JoinNothing(Slice(top.bits, [below]));
    assert LoadRef(Slice(top.bits, [below])) == Ok(Loaded(below, top));
  }
}
