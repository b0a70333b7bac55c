/** Loading what was stored gives the same values and uses up exactly what was stored. */
module StackCodecProofs {
  import opened Util
  import opened Bits
  import opened Cells
  import opened Values
  import opened StackCodec

  // ----- What can be stored -----

  /** The windows and builders that exist: inside a cell, within a cell's size. */
  predicate WellFormed(v: Value) {
    match v
    case SliceValue(s) => ValidWindow(s) && |s.cell.data| <= MAX_BITS
    case Builder(_, data, refs) => |data| <= MAX_BITS && |refs| <= MAX_REFS
    case Tuple(items) => forall i :: 0 <= i < |items| ==> WellFormed(items[i])
    case _ => true
  }

  /** 257-bit integers, tuples of at most 65535 items, no continuations. */
  predicate Storable(v: Value) {
    match v
    case Int(n) => FitsInt(n, 257)
    case Tuple(items) => |items| <= MAX_TUPLE && forall i :: 0 <= i < |items| ==> Storable(items[i])
    case ContValue(_) => false
    case _ => true
  }

  /** Storing forgets that a builder was meant for an exotic cell, and nothing else. */
  function Canonical(v: Value): Value
    decreases v, 1
  {
    match v
    case Builder(_, data, refs) => Builder(false, data, refs)
    case Tuple(items) => Tuple(CanonicalAll(items))
    case _ => v
  }

  function CanonicalAll(items: seq<Value>): (r: seq<Value>)
    ensures |r| == |items|
    decreases items, 0
  {
    seq(|items|, i requires 0 <= i < |items| => Canonical(items[i]))
  }

  predicate NoExoticBuilder(v: Value) {
    match v
    case Builder(exotic, _, _) => !exotic
    case Tuple(items) => forall i :: 0 <= i < |items| ==> NoExoticBuilder(items[i])
    case _ => true
  }

  lemma {:induction false} CanonicalIff(v: Value)
    ensures Canonical(v) == v <==> NoExoticBuilder(v)
  {
    if v.Tuple? {
      var items := v.items;
      forall i | 0 <= i < |items| ensures Canonical(items[i]) == items[i] <==> NoExoticBuilder(items[i]) {
        CanonicalIff(items[i]);
      }
      var c := CanonicalAll(items);
      assert forall i :: 0 <= i < |items| ==> c[i] == Canonical(items[i]);
      if NoExoticBuilder(v) {
        assert c == items;
      }
    }
  }

  lemma {:induction false} EncodesIff(v: Value)
    ensures Encode(v).Ok? <==> Storable(v)
    decreases v, 1
  {
    match v
    case Int(n) =>
      if FitsInt(n, 64) {
        Widen(n, 64, 257);
      }
    case Tuple(items) => EncodesAllIff(items);
    case _ =>
  }

  lemma {:induction false} Widen(v: int, w: nat, wide: nat)
    requires 0 < w <= wide && FitsInt(v, w)
    ensures FitsInt(v, wide)
  {
    if w < wide {
      Widen(v, w, wide - 1);
      assert Pow2(wide) == 2 * Pow2(wide - 1) && Pow2(wide - 1) == 2 * Pow2(wide - 2);
    }
  }

  lemma {:induction false} EncodesAllIff(items: seq<Value>)
    ensures EncodeAll(items).Ok? <==> AllStorable(items)
    decreases items, 0
  {
    if items != [] {
      var n := |items|;
      EncodeAllOk(items);
      EncodesAllIff(items[..n - 1]);
      EncodesIff(items[n - 1]);
      AllStorableLast(items);
    }
  }

  lemma {:induction false} EncodeAllOk(items: seq<Value>)
    requires items != []
    ensures EncodeAll(items).Ok? <==> EncodeAll(items[..|items| - 1]).Ok? && Encode(items[|items| - 1]).Ok?
  {
  }

  // ----- Numbers -----

  lemma UintRoundTrip(v: nat, w: nat, rest: Slice)
    requires v < Pow2(w)
    ensures LoadUint(Join(Slice(FromNat(v, w), []), rest), w) == Ok(Loaded(v, rest))
  {
    var s := Join(Slice(FromNat(v, w), []), rest);
    assert s.bits[..w] == FromNat(v, w) && s.bits[w..] == rest.bits && s.refs == rest.refs;
    ToFrom(v, w);
  }

  lemma IntRoundTrip(v: int, w: nat, rest: Slice)
    requires w > 0 && FitsInt(v, w)
    ensures LoadInt(Join(Slice(FromInt(v, w), []), rest), w) == Ok(Loaded(Int(v), rest))
  {
    var s := Join(Slice(FromInt(v, w), []), rest);
    assert s.bits[..w] == FromInt(v, w) && s.bits[w..] == rest.bits && s.refs == rest.refs;
    SignedRoundTrip(v, w);
  }

  function Halved(v: nat, n: nat): nat {
    if n == 0 then v else Halved(v / 2, n - 1)
  }

  /** The number in the lowest `w` bits. */
  function LowBits(v: nat, w: nat): nat {
    if w == 0 then 0 else 2 * LowBits(v / 2, w - 1) + v % 2
  }

  /** A wide number is its high bits followed by its low bits. */
  lemma {:induction false} SplitBits(v: nat, wh: nat, wl: nat)
    ensures FromNat(v, wh + wl) == FromNat(Halved(v, wl), wh) + FromNat(v, wl)
    decreases wl
  {
    if wl > 0 {
      SplitBits(v / 2, wh, wl - 1);
      Reassociate(FromNat(v / 2, wh + (wl - 1)), FromNat(Halved(v, wl), wh), FromNat(v / 2, wl - 1), [v % 2 == 1]);
    }
  }

  lemma {:induction false} ToNatLow(v: nat, w: nat)
    ensures ToNat(FromNat(v, w)) == LowBits(v, w)
    decreases w
  {
    if w > 0 {
      ToNatLow(v / 2, w - 1);
      var b := FromNat(v, w);
      assert b[..w - 1] == FromNat(v / 2, w - 1);
    }
  }

  lemma JoinAssociates(a: Slice, b: Slice, c: Slice)
    ensures Join(Join(a, b), c) == Join(a, Join(b, c))
  {
    assert (a.bits + b.bits) + c.bits == a.bits + (b.bits + c.bits);
    assert (a.refs + b.refs) + c.refs == a.refs + (b.refs + c.refs);
  }

  /** A tag followed by a body is loaded by the tag's own rule. */
  lemma Tagged(tag: nat, body: Slice, rest: Slice)
    requires tag < 256
    ensures LoadUint(Join(Piece(tag, body.bits, body.refs), rest), 8) == Ok(Loaded(tag, Join(body, rest)))
  {
    var head := Slice(FromNat(tag, 8), []);
    JoinAssociates(head, body, rest);
    assert Join(head, body) == Piece(tag, body.bits, body.refs);
    assert Pow2(8) == 256;
    UintRoundTrip(tag, 8, Join(body, rest));
  }

  lemma LoadByTag(s: Slice, tag: nat, t: Slice)
    requires LoadUint(s, 8) == Ok(Loaded(tag, t))
    ensures tag == 1 ==> Load(s) == LoadInt(t, 64)
    ensures tag == 2 ==> Load(s) == LoadBig(t)
    ensures tag == 4 ==> Load(s) == LoadSlice(t)
    ensures tag == 7 ==> Load(s) == LoadTuple(t)
  {
  }

  lemma NullRoundTrip(rest: Slice)
    ensures Load(Join(Piece(0, [], []), rest)) == Ok(Loaded(Null, rest))
  {
    Tagged(0, Slice([], []), rest);
    assert Join(Slice([], []), rest) == rest;
  }

  lemma NaNRoundTrip(rest: Slice)
    ensures Load(Join(Slice(FromNat(0x02ff, 16), []), rest)) == Ok(Loaded(NaN, rest))
  {
    var low := FromNat(0x02ff, 8);
    SplitBits(0x02ff, 8, 8);
    assert Halved(0x02ff, 8) == 2;
    TaggedLoad(2, Slice(low, []), rest);
    ToNatLow(0x02ff, 8);
    assert LowBits(0x02ff, 8) == 0xff;
    var s := Join(Slice(low, []), rest);
    assert s.bits[..8] == low && s.bits[8..] == rest.bits && s.refs == rest.refs;
  }

  lemma TaggedLoad(tag: nat, body: Slice, rest: Slice)
    requires tag < 256
    ensures var s, t := Join(Piece(tag, body.bits, body.refs), rest), Join(body, rest);
            && (tag == 1 ==> Load(s) == LoadInt(t, 64))
            && (tag == 2 ==> Load(s) == LoadBig(t))
            && (tag == 4 ==> Load(s) == LoadSlice(t))
            && (tag == 7 ==> Load(s) == LoadTuple(t))
  {
    Tagged(tag, body, rest);
    LoadByTag(Join(Piece(tag, body.bits, body.refs), rest), tag, Join(body, rest));
  }

  lemma TinyRoundTrip(n: int, rest: Slice)
    requires FitsInt(n, 64)
    ensures Load(Join(Piece(1, FromInt(n, 64), []), rest)) == Ok(Loaded(Int(n), rest))
  {
    TaggedLoad(1, Slice(FromInt(n, 64), []), rest);
    IntRoundTrip(n, 64, rest);
  }

  lemma BigRoundTrip(n: int, rest: Slice)
    requires FitsInt(n, 257)
    ensures Load(Join(Slice(FromNat(0x0100, 15) + FromInt(n, 257), []), rest)) == Ok(Loaded(Int(n), rest))
  {
    var zeros, value := FromNat(0x0100, 7), FromInt(n, 257);
    BigPrefix(zeros, value);
    TaggedLoad(2, Slice(zeros + value, []), rest);
    ToNatLow(0x0100, 7);
    assert LowBits(0x0100, 7) == 0;
    BigBody(n, zeros, rest);
  }

  lemma BigPrefix(zeros: seq<bool>, value: seq<bool>)
    requires zeros == FromNat(0x0100, 7)
    ensures Slice(FromNat(0x0100, 15) + value, []) == Piece(2, zeros + value, [])
  {
    SplitBits(0x0100, 8, 7);
    assert Halved(0x0100, 7) == 2;
    Reassociate(FromNat(0x0100, 15), FromNat(2, 8), zeros, value);
  }

  lemma Reassociate(p: seq<bool>, a: seq<bool>, b: seq<bool>, c: seq<bool>)
    requires p == a + b
    ensures p + c == a + (b + c)
  {
  }

  /** Seven zero bits and the sign bit stay below two. */
  lemma BigBody(n: int, zeros: seq<bool>, rest: Slice)
    requires FitsInt(n, 257) && |zeros| == 7 && ToNat(zeros) == 0
    ensures LoadBig(Join(Slice(zeros + FromInt(n, 257), []), rest)) == Ok(Loaded(Int(n), rest))
  {
    var value := FromInt(n, 257);
    var s := Join(Slice(zeros + value, []), rest);
    var first := s.bits[..8];
    assert first[..7] == zeros && |first| == 8;
    LastBit(zeros, first[7]);
    assert first == zeros + [first[7]];
    IntRoundTrip(n, 257, rest);
    assert SkipBits(s, 7) == Join(Slice(value, []), rest);
  }

  lemma LastBit(b: seq<bool>, last: bool)
    ensures ToNat(b + [last]) == 2 * ToNat(b) + Bit(last)
  {
    assert (b + [last])[..|b|] == b;
  }

  // ----- The layout of each kind -----

  /** The first byte of a stored value. */
  function TagOf(v: Value): nat {
    match v
    case Null => 0
    case Int(n) => if FitsInt(n, 64) then 1 else 2
    case NaN => 2
    case CellValue(_) => 3
    case SliceValue(_) => 4
    case Builder(_, _, _) => 5
    case ContValue(_) => 6
    case Tuple(_) => 7
  }

  function SizeOf(v: Value): nat {
    match v
    case Int(n) => if FitsInt(n, 64) then 72 else 272
    case NaN => 16
    case SliceValue(_) => 34
    case Tuple(_) => 24
    case _ => 8
  }

  ghost predicate LaidOut(v: Value, b: seq<bool>) {
    |b| == SizeOf(v) && ToNat(b[..8]) == TagOf(v)
  }

  lemma NaNTag()
    ensures LaidOut(NaN, FromNat(0x02ff, 16))
  {
    SplitBits(0x02ff, 8, 8);
    assert Halved(0x02ff, 8) == 2;
    FirstByte(2, FromNat(0x02ff, 8));
  }

  lemma BigTag(n: int)
    requires FitsInt(n, 257) && !FitsInt(n, 64)
    ensures LaidOut(Int(n), FromNat(0x0100, 15) + FromInt(n, 257))
  {
    BigPrefix(FromNat(0x0100, 7), FromInt(n, 257));
    FirstByte(2, FromNat(0x0100, 7) + FromInt(n, 257));
  }

  lemma PieceTag(v: Value, bits: seq<bool>)
    requires TagOf(v) < 8 && SizeOf(v) == 8 + |bits|
    ensures LaidOut(v, FromNat(TagOf(v), 8) + bits)
  {
    FirstByte(TagOf(v), bits);
  }

  /** Every stored value starts with the byte of its kind and has the size of its kind. */
  lemma TagMeaning(v: Value)
    requires Encode(v).Ok?
    ensures LaidOut(v, Encode(v).value.bits)
  {
    match v
    case NaN => NaNTag();
    case Int(n) =>
      if FitsInt(n, 64) { PieceTag(v, FromInt(n, 64)); } else { BigTag(n); }
    case SliceValue(s) => PieceTag(v, FromNat(Pack(s), 26));
    case Tuple(items) => PieceTag(v, FromNat(|items|, 16));
    case _ => PieceTag(v, []);
  }

  lemma FirstByte(tag: nat, rest: seq<bool>)
    requires tag < 8
    ensures ToNat((FromNat(tag, 8) + rest)[..8]) == tag
  {
    assert (FromNat(tag, 8) + rest)[..8] == FromNat(tag, 8);
    assert Pow2(8) == 256;
    ToFrom(tag, 8);
  }

  // ----- Slices -----

  lemma UnpackPack(c: CellSlice)
    requires WellFormed(SliceValue(c))
    ensures Unpack(c.cell, Pack(c)) == c && Pack(c) < 0x400_0000
  {
    var v := Pack(c);
    var u := c.bits0 * 0x2000 + c.bits1 * 8 + c.refs0;
    assert v == u * 8 + c.refs1;
    assert v / 8 == u && v % 8 == c.refs1;
    var t := c.bits0 * 0x400 + c.bits1;
    assert u == t * 8 + c.refs0;
    assert u / 8 == t && u % 8 == c.refs0;
    assert v / 0x40 == t;
    assert t / 0x400 == c.bits0 && t % 0x400 == c.bits1;
    assert v / 0x1_0000 == c.bits0;
  }

  lemma SliceBody(c: CellSlice, rest: Slice)
    requires WellFormed(SliceValue(c))
    ensures LoadSlice(Join(Slice(FromNat(Pack(c), 26), [c.cell]), rest)) == Ok(Loaded(SliceValue(c), rest))
  {
    UnpackPack(c);
    assert Pow2(13) == 0x2000;
    PowSum(13, 13);
    UintRoundTrip(Pack(c), 26, rest);
    var s := Join(Slice(FromNat(Pack(c), 26), [c.cell]), rest);
    assert s.refs[1..] == rest.refs;
    assert LoadRef(s).value == Loaded(c.cell, Join(Slice(FromNat(Pack(c), 26), []), rest));
  }

  lemma SliceRoundTrip(c: CellSlice, rest: Slice)
    requires WellFormed(SliceValue(c))
    ensures Load(Join(Piece(4, FromNat(Pack(c), 26), [c.cell]), rest)) == Ok(Loaded(SliceValue(c), rest))
  {
    TaggedLoad(4, Slice(FromNat(Pack(c), 26), [c.cell]), rest);
    SliceBody(c, rest);
  }

  lemma RefRoundTrip(tag: nat, c: Cell, rest: Slice)
    requires tag < 256
    ensures var s := Join(Piece(tag, [], [c]), rest);
            && LoadUint(s, 8).Ok? && LoadUint(s, 8).value.item == tag
            && LoadRef(LoadUint(s, 8).value.rest) == Ok(Loaded(c, rest))
  {
    Tagged(tag, Slice([], [c]), rest);
    var t := Join(Slice([], [c]), rest);
    assert t.refs[1..] == rest.refs && t.bits == rest.bits;
  }

  // ----- Values -----

  /** Every storable value comes back, and what follows it is left untouched. */
  lemma {:induction false} ValueRoundTrip(v: Value, rest: Slice)
    requires WellFormed(v) && Encode(v).Ok?
    ensures Load(Join(Encode(v).value, rest)) == Ok(Loaded(Canonical(v), rest))
    decreases v, 1
  {
    match v
    case Null => NullRoundTrip(rest);
    case NaN => NaNRoundTrip(rest);
    case Int(n) =>
      if FitsInt(n, 64) {
        TinyRoundTrip(n, rest);
      } else {
        BigRoundTrip(n, rest);
      }
    case CellValue(c) => RefRoundTrip(3, c, rest);
    case SliceValue(c) => SliceRoundTrip(c, rest);
    case Builder(_, data, refs) => RefRoundTrip(5, Cell(Ordinary, data, refs), rest);
    case Tuple(items) =>
      AllRoundTrip(items);
      TupleRoundTrip(items, EncodeAll(items).value, rest);
  }

  ghost predicate AllLoad(cells: seq<Cell>, items: seq<Value>) {
    |cells| == |items| && forall i :: 0 <= i < |items| ==> LoadFromCell(cells[i]) == Ok(items[i])
  }

  lemma {:induction false} EncodeLast(items: seq<Value>)
    requires items != [] && EncodeAll(items).Ok?
    ensures EncodeAll(items[..|items| - 1]).Ok? && Encode(items[|items| - 1]).Ok?
    ensures EncodeAll(items).value
         == EncodeAll(items[..|items| - 1]).value + [Build(Encode(items[|items| - 1]).value)]
  {
  }

  lemma {:induction false} AllLoadAppend(cells: seq<Cell>, items: seq<Value>, c: Cell, v: Value)
    requires AllLoad(cells, items) && LoadFromCell(c) == Ok(v)
    ensures AllLoad(cells + [c], items + [v])
  {
  }

  lemma {:induction false} AllRoundTrip(items: seq<Value>)
    requires EncodeAll(items).Ok? && AllWellFormed(items)
    ensures AllLoad(EncodeAll(items).value, CanonicalAll(items))
    decreases items, 0
  {
    if items != [] {
      var n := |items|;
      var init, v := items[..n - 1], items[n - 1];
      EncodeLast(items);
      AllRoundTrip(init);
      CellRoundTrip(v);
      CanonicalLast(items);
      AllLoadAppend(EncodeAll(init).value, CanonicalAll(init), Build(Encode(v).value), Canonical(v));
    }
  }

  lemma {:induction false} CellRoundTrip(v: Value)
    requires WellFormed(v) && Encode(v).Ok?
    ensures LoadFromCell(Build(Encode(v).value)) == Ok(Canonical(v))
    decreases v, 2
  {
    var piece := Encode(v).value;
    ValueRoundTrip(v, Slice([], []));
    assert Join(piece, Slice([], [])) == piece;
  }

  lemma {:induction false} SpineRoundTrip(cells: seq<Cell>, items: seq<Value>)
    requires cells != [] && AllLoad(cells, items)
    ensures LoadSpine(Spine(cells), |cells|) == Ok(items)
  {
    var n := |cells|;
    if n == 1 {
      assert items == [items[0]];
    } else {
      SpineRoundTrip(cells[..n - 1], items[..n - 1]);
      assert OpenPair(Spine(cells)) == Ok((Spine(cells[..n - 1]), cells[n - 1]));
      assert items == items[..n - 1] + [items[n - 1]];
    }
  }

  lemma {:induction false} TupleRoundTrip(items: seq<Value>, cells: seq<Cell>, rest: Slice)
    requires |items| <= MAX_TUPLE && AllLoad(cells, CanonicalAll(items))
    ensures Load(Join(Piece(7, FromNat(|items|, 16), TupleRefs(cells)), rest))
         == Ok(Loaded(Tuple(CanonicalAll(items)), rest))
  {
    var body := Slice(FromNat(|items|, 16), TupleRefs(cells));
    TaggedLoad(7, body, rest);
    LengthRoundTrip(|items|, TupleRefs(cells), rest);
    TupleBody(cells, CanonicalAll(items), rest, Join(body, rest));
  }

  lemma LengthRoundTrip(n: nat, refs: seq<Cell>, rest: Slice)
    requires n <= MAX_TUPLE
    ensures LoadUint(Join(Slice(FromNat(n, 16), refs), rest), 16) == Ok(Loaded(n, Join(Slice([], refs), rest)))
  {
    assert Pow2(8) == 0x100;
    PowSum(8, 8);
    var len, tail := Slice(FromNat(n, 16), []), Slice([], refs);
    JoinAssociates(len, tail, rest);
    assert Slice(FromNat(n, 16), refs) == Join(len, tail);
    UintRoundTrip(n, 16, Join(tail, rest));
  }

  lemma {:induction false} TupleBody(cells: seq<Cell>, items: seq<Value>, rest: Slice, s: Slice)
    requires AllLoad(cells, items)
    requires LoadUint(s, 16) == Ok(Loaded(|items|, Join(Slice([], TupleRefs(cells)), rest)))
    ensures LoadTuple(s) == Ok(Loaded(Tuple(items), rest))
  {
    var n := |cells|;
    var t := Join(Slice([], TupleRefs(cells)), rest);
    assert t.bits == rest.bits;
    if n == 0 {
      assert t == rest;
      assert items == [];
    } else if n == 1 {
      assert LoadRef(t) == Ok(Loaded(cells[0], rest)) by { assert t.refs[1..] == rest.refs; }
      assert items == [items[0]];
    } else {
      LongTuple(cells, items, rest, s);
    }
  }

  lemma {:induction false} LongTuple(cells: seq<Cell>, items: seq<Value>, rest: Slice, s: Slice)
    requires |cells| >= 2 && AllLoad(cells, items)
    requires LoadUint(s, 16) == Ok(Loaded(|items|, Join(Slice([], TupleRefs(cells)), rest)))
    ensures LoadTuple(s) == Ok(Loaded(Tuple(items), rest))
  {
    var n := |cells|;
    var t := Join(Slice([], TupleRefs(cells)), rest);
    var head, tail := Spine(cells[..n - 1]), cells[n - 1];
    var init, last := items[..n - 1], items[n - 1];
    assert items == init + [last];
    TwoRefs(t, head, tail, rest);
    SpineRoundTrip(cells[..n - 1], init);
    ReadTuple(s, n, t, head, Slice(rest.bits, [tail] + rest.refs), tail, rest, init, last);
  }

  lemma TwoRefs(t: Slice, head: Cell, tail: Cell, rest: Slice)
    requires t == Join(Slice([], [head, tail]), rest)
    ensures var after := Slice(rest.bits, [tail] + rest.refs);
            LoadRef(t) == Ok(Loaded(head, after)) && LoadRef(after) == Ok(Loaded(tail, rest))
  {
    var after := Slice(rest.bits, [tail] + rest.refs);
    assert t.bits == rest.bits && t.refs[1..] == after.refs && after.refs[1..] == rest.refs;
  }

  /** The steps of loading a tuple, put together. */
  lemma ReadTuple(
      s: Slice, n: nat, t: Slice, head: Cell, after: Slice, tail: Cell, rest: Slice, init: seq<Value>, last: Value)
    requires n >= 2 && LoadUint(s, 16) == Ok(Loaded(n, t))
    requires LoadRef(t) == Ok(Loaded(head, after)) && LoadRef(after) == Ok(Loaded(tail, rest))
    requires LoadFromCell(tail) == Ok(last) && LoadSpine(head, n - 1) == Ok(init)
    ensures LoadTuple(s) == Ok(Loaded(Tuple(init + [last]), rest))
  {
  }

  // ----- Stacks -----

  predicate AllStorable(items: seq<Value>) {
    forall i :: 0 <= i < |items| ==> Storable(items[i])
  }

  predicate AllWellFormed(items: seq<Value>) {
    forall i :: 0 <= i < |items| ==> WellFormed(items[i])
  }

  lemma {:induction false} StoreOnLink(below: Cell, v: Value)
    ensures Store(Slice([], [below]), v).Ok? <==> Storable(v)
    ensures Storable(v) ==>
      && Encode(v).Ok?
      && Store(Slice([], [below]), v).value == Slice(Encode(v).value.bits, [below] + Encode(v).value.refs)
  {
    EncodesIff(v);
    if Encode(v).Ok? {
      assert [] + Encode(v).value.bits == Encode(v).value.bits;
    }
  }

  lemma AllStorableLast(items: seq<Value>)
    requires items != []
    ensures AllStorable(items) <==> AllStorable(items[..|items| - 1]) && Storable(items[|items| - 1])
  {
    var init := items[..|items| - 1];
    assert forall i :: 0 <= i < |init| ==> init[i] == items[i];
  }

  lemma {:induction false} RestStoresIff(items: seq<Value>)
    ensures RestCell(items).Ok? <==> AllStorable(items)
  {
    if items != [] {
      var n := |items|;
      var init := items[..n - 1];
      RestStoresIff(init);
      AllStorableLast(items);
      if RestCell(init).Ok? {
        StoreOnLink(RestCell(init).value, items[n - 1]);
      }
    }
  }

  /** The items below the top come back from their chain of cells. */
  lemma {:induction false} RestRoundTrip(items: seq<Value>)
    requires AllStorable(items) && AllWellFormed(items)
    ensures RestCell(items).Ok?
    ensures LoadRest(RestCell(items).value, |items|) == Ok(CanonicalAll(items))
  {
    RestStoresIff(items);
    if items != [] {
      var n := |items|;
      var init, v := items[..n - 1], items[n - 1];
      AllStorableLast(items);
      RestRoundTrip(init);
      LinkRoundTrip(items, RestCell(init).value, v);
      CanonicalLast(items);
    }
  }

  lemma {:induction false} CanonicalLast(items: seq<Value>)
    requires items != []
    ensures CanonicalAll(items) == CanonicalAll(items[..|items| - 1]) + [Canonical(items[|items| - 1])]
  {
    var n := |items|;
    var all, init := CanonicalAll(items), CanonicalAll(items[..n - 1]);
    assert forall i :: 0 <= i < n - 1 ==> all[i] == init[i];
    assert all == all[..n - 1] + [all[n - 1]];
    assert all[..n - 1] == init;
  }

  lemma {:induction false} LinkRoundTrip(items: seq<Value>, below: Cell, v: Value)
    requires items != [] && v == items[|items| - 1] && Storable(v) && WellFormed(v)
    requires RestCell(items[..|items| - 1]) == Ok(below)
    requires LoadRest(below, |items| - 1).Ok?
    ensures RestCell(items).Ok?
    ensures LoadRest(RestCell(items).value, |items|) == Ok(LoadRest(below, |items| - 1).value + [Canonical(v)])
  {
    StoreOnLink(below, v);
    var top := Encode(v).value;
    assert RestCell(items) == Ok(Build(Slice(top.bits, [below] + top.refs)));
    LoadsAlone(v);
    LinkReads(below, top, Canonical(v), LoadRest(below, |items| - 1).value, |items| - 1);
  }

  lemma {:induction false} LoadsAlone(v: Value)
    requires WellFormed(v) && Encode(v).Ok?
    ensures Load(Encode(v).value) == Ok(Loaded(Canonical(v), Slice([], [])))
  {
    var piece := Encode(v).value;
    ValueRoundTrip(v, Slice([], []));
    assert Join(piece, Slice([], [])) == piece;
  }

  lemma {:induction false} LinkReads(below: Cell, top: Slice, v: Value, others: seq<Value>, k: nat)
    requires LoadRest(below, k) == Ok(others) && Load(top) == Ok(Loaded(v, Slice([], [])))
    ensures LoadRest(Build(Slice(top.bits, [below] + top.refs)), k + 1) == Ok(others + [v])
  {
    var b := Slice(top.bits, [below] + top.refs);
    assert LoadRef(b) == Ok(Loaded(below, top)) by { assert b.refs[1..] == top.refs; }
  }

  /** What storing a stack adds to a builder. */
  function StackPiece(items: seq<Value>): Slice
    requires items != [] ==> RestCell(items[..|items| - 1]).Ok? && Encode(items[|items| - 1]).Ok?
  {
    var count := FromNat(|items|, 24);
    if items == [] then Slice(count, [])
    else
      var top := Encode(items[|items| - 1]).value;
      Slice(count + top.bits, [RestCell(items[..|items| - 1]).value] + top.refs)
  }

  lemma {:induction false} Parts(items: seq<Value>)
    ensures items != [] ==>
      (AllStorable(items) <==> RestCell(items[..|items| - 1]).Ok? && Encode(items[|items| - 1]).Ok?)
  {
    if items != [] {
      var n := |items|;
      AllStorableLast(items);
      RestStoresIff(items[..n - 1]);
      EncodesIff(items[n - 1]);
    }
  }

  /** Storing succeeds exactly for stacks that are not too deep, hold storable values,
      and fit behind what the builder already has. */
  lemma {:induction false} StackStoresIff(b: Slice, items: seq<Value>)
    ensures StoreStack(b, items).Ok? ==> AllStorable(items)
    ensures AllStorable(items) ==>
      (items != [] ==> RestCell(items[..|items| - 1]).Ok? && Encode(items[|items| - 1]).Ok?)
      && (StoreStack(b, items).Ok? <==> |items| <= MAX_DEPTH && Append(b, StackPiece(items)).Ok?)
      && (StoreStack(b, items).Ok? ==> StoreStack(b, items) == Append(b, StackPiece(items)))
  {
    Parts(items);
    if items != [] && AllStorable(items) && |items| <= MAX_DEPTH {
      var count, below, top :=
        Slice(FromNat(|items|, 24), []), RestCell(items[..|items| - 1]).value, Encode(items[|items| - 1]).value;
      Appends(b, count, below, top);
      assert StackPiece(items) == Join(count, Slice(top.bits, [below] + top.refs));
    }
  }

  lemma Appends(b: Slice, count: Slice, below: Cell, top: Slice)
    requires count.refs == []
    ensures var link := Slice([], [below]);
            Join(Join(Join(b, count), link), top) == Join(b, Join(count, Slice(top.bits, [below] + top.refs)))
  {
    var link := Slice([], [below]);
    assert Join(link, top) == Slice(top.bits, [below] + top.refs) by { assert [] + top.bits == top.bits; }
    JoinAssociates(Join(b, count), link, top);
    JoinAssociates(b, count, Join(link, top));
  }

  /** A stack behind anything comes back whole, and what follows it is left untouched. */
  lemma {:induction false} StackRoundTrip(b: Slice, items: seq<Value>, rest: Slice)
    requires AllWellFormed(items) && StoreStack(b, items).Ok?
    ensures items != [] ==> RestCell(items[..|items| - 1]).Ok? && Encode(items[|items| - 1]).Ok?
    ensures StoreStack(b, items).value == Join(b, StackPiece(items))
    ensures LoadStack(Join(StackPiece(items), rest)) == Ok(Loaded(CanonicalAll(items), rest))
  {
    StackStoresIff(b, items);
    if items == [] {
      DepthRoundTrip(0, StackPiece(items), rest);
      assert Join(Slice([], []), rest) == rest;
    } else {
      PieceRoundTrip(items, rest);
    }
  }

  lemma {:induction false} PieceRoundTrip(items: seq<Value>, rest: Slice)
    requires items != [] && |items| <= MAX_DEPTH && AllWellFormed(items) && AllStorable(items)
    requires RestCell(items[..|items| - 1]).Ok? && Encode(items[|items| - 1]).Ok?
    ensures LoadStack(Join(StackPiece(items), rest)) == Ok(Loaded(CanonicalAll(items), rest))
  {
    var n := |items|;
    var init, v := items[..n - 1], items[n - 1];
    var below, top := RestCell(init).value, Encode(v).value;
    AllStorableLast(items);
    RestRoundTrip(init);
    ValueRoundTrip(v, rest);
    CanonicalLast(items);
    PieceReads(n, below, top, Canonical(v), rest, CanonicalAll(init));
  }

  lemma {:induction false} PieceReads(n: nat, below: Cell, top: Slice, v: Value, rest: Slice, others: seq<Value>)
    requires 0 < n <= MAX_DEPTH && |others| == n - 1
    requires Load(Join(top, rest)) == Ok(Loaded(v, rest)) && LoadRest(below, n - 1) == Ok(others)
    ensures LoadStack(Join(Slice(FromNat(n, 24) + top.bits, [below] + top.refs), rest))
         == Ok(Loaded(others + [v], rest))
  {
    var piece, link := Slice(FromNat(n, 24) + top.bits, [below] + top.refs), Slice(top.bits, [below] + top.refs);
    DepthRoundTrip(n, piece, rest);
    assert piece.bits[24..] == top.bits;
    LinkFirst(below, top, rest);
    ReadStack(Join(piece, rest), n, Join(link, rest), below, Join(top, rest), v, rest, others);
  }

  /** The steps of loading a stack, put together. */
  lemma ReadStack(s: Slice, n: nat, t: Slice, below: Cell, u: Slice, v: Value, rest: Slice, others: seq<Value>)
    requires n > 0 && LoadUint(s, 24) == Ok(Loaded(n, t)) && LoadRef(t) == Ok(Loaded(below, u))
    requires Load(u) == Ok(Loaded(v, rest)) && LoadRest(below, n - 1) == Ok(others) && |others| == n - 1
    ensures LoadStack(s) == Ok(Loaded(others + [v], rest))
  {
    if n == 1 {
      assert others + [v] == [v];
    }
  }

  lemma DepthRoundTrip(n: nat, piece: Slice, rest: Slice)
    requires n <= MAX_DEPTH && |piece.bits| >= 24 && piece.bits[..24] == FromNat(n, 24)
    ensures LoadUint(Join(piece, rest), 24) == Ok(Loaded(n, Join(Slice(piece.bits[24..], piece.refs), rest)))
  {
    assert Pow2(12) == 0x1000;
    PowSum(12, 12);
    var count, tail := Slice(FromNat(n, 24), []), Slice(piece.bits[24..], piece.refs);
    JoinAssociates(count, tail, rest);
    assert piece == Join(count, tail);
    UintRoundTrip(n, 24, Join(tail, rest));
  }

  lemma LinkFirst(below: Cell, top: Slice, rest: Slice)
    ensures LoadRef(Join(Slice(top.bits, [below] + top.refs), rest)) == Ok(Loaded(below, Join(top, rest)))
  {
    var s := Join(Slice(top.bits, [below] + top.refs), rest);
    assert s.refs[1..] == top.refs + rest.refs;
  }

  /** Every stack of storable values without exotic builders, stored into an empty
      builder and loaded again. */
  lemma {:induction false} StackCodecIsFaithful(items: seq<Value>)
    requires |items| <= MAX_DEPTH && AllWellFormed(items) && AllStorable(items)
    requires forall i :: 0 <= i < |items| ==> NoExoticBuilder(items[i])
    ensures StoreStack(Slice([], []), items).Ok?
    ensures LoadStack(StoreStack(Slice([], []), items).value) == Ok(Loaded(items, Slice([], [])))
  {
    var none := Slice([], []);
    FitsAlone(items);
    StackRoundTrip(none, items, none);
    JoinNothing(StackPiece(items));
    CanonicalAlready(items);
  }

  lemma {:induction false} FitsAlone(items: seq<Value>)
    requires |items| <= MAX_DEPTH && AllStorable(items)
    ensures StoreStack(Slice([], []), items).Ok?
  {
    StackStoresIff(Slice([], []), items);
  }

  lemma JoinNothing(p: Slice)
    ensures Join(p, Slice([], [])) == p == Join(Slice([], []), p)
  {
    assert [] + p.bits == p.bits && [] + p.refs == p.refs;
  }

  lemma CanonicalAlready(items: seq<Value>)
    requires forall i :: 0 <= i < |items| ==> NoExoticBuilder(items[i])
    ensures CanonicalAll(items) == items
  {
    forall i | 0 <= i < |items| ensures Canonical(items[i]) == items[i] {
      CanonicalIff(items[i]);
    }
  }
}
