/** The opcode dispatch table: registration, gap filling, binary search. */
module Dispatch {
  import opened Util
  import opened Bits
  import GasMachine

  const MAX_OPCODE_BITS: nat := 24
  const MAX_OPCODE: nat := 0x100_0000

  datatype Kind = SimpleKind | FixedKind | ExtKind

  /** An opcode owns the 24-bit words from `min` up to `max`. */
  datatype Op =
    | Dummy(min: nat, max: nat)
    | Registered(min: nat, max: nat, totalBits: nat, kind: Kind, id: nat)

  predicate Owns(op: Op, word: nat) {
    op.min <= word < op.max
  }

  predicate Disjoint(a: Op, b: Op) {
    a.max <= b.min || b.max <= a.min
  }

  predicate IsTimes(x: nat, unit: nat, times: nat) {
    x == times * unit
  }

  ghost predicate Multiple(x: nat, unit: nat) {
    exists times: nat :: IsTimes(x, unit, times)
  }

  /** A range of whole `totalBits`-bit prefixes. */
  ghost predicate Aligned(op: Op) {
    op.Registered? ==>
      && op.totalBits <= MAX_OPCODE_BITS
      && Multiple(op.min, Pow2(MAX_OPCODE_BITS - op.totalBits))
      && Multiple(op.max, Pow2(MAX_OPCODE_BITS - op.totalBits))
  }

  predicate ProperOp(op: Op) {
    op.min < op.max <= MAX_OPCODE
  }

  ghost predicate AllAligned(ops: seq<Op>) {
    forall i :: 0 <= i < |ops| ==> Aligned(ops[i])
  }

  /** The ordered map of registered opcodes: increasing, without overlaps. */
  ghost predicate ValidOps(ops: seq<Op>) {
    && (forall i :: 0 <= i < |ops| ==> ops[i].Registered? && ProperOp(ops[i]))
    && (forall i, j :: 0 <= i < j < |ops| ==> ops[i].max <= ops[j].min)
  }

  /** Entries that cover all 24-bit words, each word exactly once. */
  ghost predicate IsTable(t: seq<Op>) {
    && |t| > 0 && t[0].min == 0 && t[|t| - 1].max == MAX_OPCODE
    && (forall i :: 0 <= i < |t| ==> ProperOp(t[i]))
    && (forall i {:trigger t[i].max} :: 0 <= i < |t| - 1 ==> t[i].max == t[i + 1].min)
  }

  // ----- Registration -----

  class Opcodes {
    /** Kept in the order of `min`, as the source's ordered map is. */
    var ops: seq<Op>

    constructor ()
      ensures ops == []
    {
      ops := [];
    }

    /** Accepted exactly when no registered opcode shares a word with the new one. */
    method AddOpcode(op: Op) returns (ok: bool)
      requires ValidOps(ops) && op.Registered? && ProperOp(op)
      modifies this
      ensures ValidOps(ops)
      ensures old(AllAligned(ops)) && Aligned(op) ==> AllAligned(ops)
      ensures ok <==> forall o :: o in old(ops) ==> Disjoint(o, op)
      ensures !ok ==> ops == old(ops)
      ensures ok ==> forall o :: o in ops <==> o == op || o in old(ops)
    {
      var k := 0;
      while k < |ops| && ops[k].min < op.min
        invariant k <= |ops|
        invariant forall i :: 0 <= i < k ==> ops[i].min < op.min
      {
        k := k + 1;
      }
      if k < |ops| && op.max > ops[k].min {
        assert !Disjoint(ops[k], op);
        return false;
      }
      if k > 0 && ops[k - 1].max > op.min {
        assert !Disjoint(ops[k - 1], op);
        return false;
      }
      AllDisjoint(ops, op, k);
      ghost var before := ops;
      ops := ops[..k] + [op] + ops[k..];
      InsertKeepsValid(before, op, k);
      return true;
    }

    method AddSimple(opcode: nat, bits: nat, id: nat) returns (ok: bool)
      requires ValidOps(ops) && bits <= MAX_OPCODE_BITS && opcode < Pow2(bits)
      modifies this
      ensures ValidOps(ops) && (old(AllAligned(ops)) ==> AllAligned(ops))
      ensures var op := PrefixOp(opcode, opcode + 1, bits, bits, SimpleKind, id);
              && (ok <==> forall o :: o in old(ops) ==> Disjoint(o, op))
              && (!ok ==> ops == old(ops))
              && (ok ==> forall o :: o in ops <==> o == op || o in old(ops))
    {
      PrefixOpProper(opcode, opcode + 1, bits, bits, SimpleKind, id);
      ok := AddOpcode(PrefixOp(opcode, opcode + 1, bits, bits, SimpleKind, id));
    }

    method AddFixed(opcode: nat, opcodeBits: nat, argBits: nat, kind: Kind, id: nat) returns (ok: bool)
      requires ValidOps(ops) && opcodeBits + argBits <= MAX_OPCODE_BITS && opcode < Pow2(opcodeBits)
      modifies this
      ensures ValidOps(ops) && (old(AllAligned(ops)) ==> AllAligned(ops))
      ensures var op := PrefixOp(opcode, opcode + 1, opcodeBits, opcodeBits + argBits, kind, id);
              && (ok <==> forall o :: o in old(ops) ==> Disjoint(o, op))
              && (!ok ==> ops == old(ops))
              && (ok ==> forall o :: o in ops <==> o == op || o in old(ops))
    {
      PrefixOpProper(opcode, opcode + 1, opcodeBits, opcodeBits + argBits, kind, id);
      ok := AddOpcode(PrefixOp(opcode, opcode + 1, opcodeBits, opcodeBits + argBits, kind, id));
    }

    method AddFixedRange(from: nat, to: nat, totalBits: nat, kind: Kind, id: nat) returns (ok: bool)
      requires ValidOps(ops) && totalBits <= MAX_OPCODE_BITS && from < to <= Pow2(totalBits)
      modifies this
      ensures ValidOps(ops) && (old(AllAligned(ops)) ==> AllAligned(ops))
      ensures var op := PrefixOp(from, to, totalBits, totalBits, kind, id);
              && (ok <==> forall o :: o in old(ops) ==> Disjoint(o, op))
              && (!ok ==> ops == old(ops))
              && (ok ==> forall o :: o in ops <==> o == op || o in old(ops))
    {
      PrefixOpProper(from, to, totalBits, totalBits, kind, id);
      ok := AddOpcode(PrefixOp(from, to, totalBits, totalBits, kind, id));
    }

    /** Fills the gaps between registered opcodes with dummies. */
    method Build() returns (t: seq<Op>)
      requires ValidOps(ops)
      ensures IsTable(t)
      ensures Entries(t) == Entries(ops)
    {
      t := [];
      var upto: nat := 0;
      for i := 0 to |ops|
        invariant upto <= MAX_OPCODE && (i < |ops| ==> upto <= ops[i].min)
        invariant i > 0 ==> upto == ops[i - 1].max
        invariant Prefix(t, upto) && Entries(t) == Entries(ops[..i])
      {
        var op := ops[i];
        BuildStep(ops, i, t, upto);
        if op.min > upto {
          t := t + [Dummy(upto, op.min)];
        }
        t := t + [op];
        upto := op.max;
      }
      CloseTable(t, upto);
      if upto < MAX_OPCODE {
        t := t + [Dummy(upto, MAX_OPCODE)];
      }
      assert ops[..|ops|] == ops;
    }
  }

  /** The registered opcodes of a table. */
  ghost function Entries(t: seq<Op>): set<Op> {
    set o | o in t && o.Registered?
  }

  lemma EntriesAppend(t: seq<Op>, op: Op)
    ensures Entries(t + [op]) == if op.Registered? then Entries(t) + {op} else Entries(t)
  {
  }

  lemma PrefixAppend(t: seq<Op>, op: Op, upto: nat)
    requires Prefix(t, upto) && ProperOp(op) && op.min == upto
    ensures Prefix(t + [op], op.max)
  {
  }

  lemma ExtendTable(t: seq<Op>, upto: nat, op: Op)
    requires Prefix(t, upto) && ProperOp(op) && op.Registered? && upto <= op.min
    ensures var filled := if op.min > upto then t + [Dummy(upto, op.min)] else t;
            Prefix(filled + [op], op.max) && Entries(filled + [op]) == Entries(t) + {op}
  {
    var filled := if op.min > upto then t + [Dummy(upto, op.min)] else t;
    if op.min > upto {
      PrefixAppend(t, Dummy(upto, op.min), upto);
      EntriesAppend(t, Dummy(upto, op.min));
    }
    PrefixAppend(filled, op, op.min);
    EntriesAppend(filled, op);
  }

  /** One turn of the loop that fills the gaps. */
  lemma BuildStep(ops: seq<Op>, i: nat, t: seq<Op>, upto: nat)
    requires i < |ops| && ops[i].Registered? && ProperOp(ops[i]) && upto <= ops[i].min
    requires Prefix(t, upto) && Entries(t) == Entries(ops[..i])
    ensures var op := ops[i];
            var filled := if op.min > upto then t + [Dummy(upto, op.min)] else t;
            Prefix(filled + [op], op.max) && Entries(filled + [op]) == Entries(ops[..i + 1])
  {
    ExtendTable(t, upto, ops[i]);
    EntriesAppend(ops[..i], ops[i]);
    assert ops[..i + 1] == ops[..i] + [ops[i]];
  }

  lemma CloseTable(t: seq<Op>, upto: nat)
    requires Prefix(t, upto) && upto <= MAX_OPCODE
    ensures var closed := if upto < MAX_OPCODE then t + [Dummy(upto, MAX_OPCODE)] else t;
            IsTable(closed) && Entries(closed) == Entries(t)
  {
    if upto < MAX_OPCODE {
      PrefixAppend(t, Dummy(upto, MAX_OPCODE), upto);
      EntriesAppend(t, Dummy(upto, MAX_OPCODE));
    }
  }

  /** A table under construction that covers the words below `upto`. */
  ghost predicate Prefix(t: seq<Op>, upto: nat) {
    && (forall i :: 0 <= i < |t| ==> ProperOp(t[i]))
    && (forall i {:trigger t[i].max} :: 0 <= i < |t| - 1 ==> t[i].max == t[i + 1].min)
    && (if t == [] then upto == 0 else t[0].min == 0 && t[|t| - 1].max == upto)
  }

  lemma AllDisjoint(ops: seq<Op>, op: Op, k: nat)
    requires ValidOps(ops) && op.min < op.max && k <= |ops|
    requires forall i :: 0 <= i < k ==> ops[i].min < op.min
    requires k < |ops| ==> op.max <= ops[k].min
    requires k > 0 ==> ops[k - 1].max <= op.min
    ensures forall i :: 0 <= i < k ==> ops[i].max <= op.min
    ensures forall i :: k <= i < |ops| ==> op.max <= ops[i].min
  {
    forall i | 0 <= i < k ensures ops[i].max <= op.min {
      if i < k - 1 {
        assert ops[i].max <= ops[k - 1].min;
      }
    }
  }

  lemma InsertKeepsValid(ops: seq<Op>, op: Op, k: nat)
    requires ValidOps(ops) && op.Registered? && ProperOp(op) && k <= |ops|
    requires forall i :: 0 <= i < k ==> ops[i].max <= op.min
    requires forall i :: k <= i < |ops| ==> op.max <= ops[i].min
    ensures ValidOps(ops[..k] + [op] + ops[k..])
    ensures forall o :: o in ops[..k] + [op] + ops[k..] <==> o == op || o in ops
    ensures forall o :: o in ops ==> Disjoint(o, op)
  {
    var n := ops[..k] + [op] + ops[k..];
    forall i | 0 <= i < |n| ensures n[i] == Inserted(ops, op, k, i) {
    }
    forall i, j | 0 <= i < j < |n| ensures n[i].max <= n[j].min {
      assert n[i] == Inserted(ops, op, k, i) && n[j] == Inserted(ops, op, k, j);
    }
    InsertedMembers(ops, op, k);
  }

  function Inserted(ops: seq<Op>, op: Op, k: nat, i: nat): Op
    requires k <= |ops| && i <= |ops|
  {
    if i < k then ops[i] else if i == k then op else ops[i - 1]
  }

  lemma InsertedMembers(ops: seq<Op>, op: Op, k: nat)
    requires k <= |ops|
    ensures forall o :: o in ops[..k] + [op] + ops[k..] <==> o == op || o in ops
  {
    assert ops == ops[..k] + ops[k..];
  }

  /** The opcode whose words start with a `prefixBits`-bit prefix in [from, to). */
  function PrefixOp(from: nat, to: nat, prefixBits: nat, totalBits: nat, kind: Kind, id: nat): Op
    requires prefixBits <= MAX_OPCODE_BITS
  {
    var unit := Pow2(MAX_OPCODE_BITS - prefixBits);
    Registered(from * unit, to * unit, totalBits, kind, id)
  }

  lemma PrefixOpProper(from: nat, to: nat, prefixBits: nat, totalBits: nat, kind: Kind, id: nat)
    requires prefixBits <= totalBits <= MAX_OPCODE_BITS && from < to <= Pow2(prefixBits)
    ensures ProperOp(PrefixOp(from, to, prefixBits, totalBits, kind, id))
    ensures Aligned(PrefixOp(from, to, prefixBits, totalBits, kind, id))
  {
    var unit := Pow2(MAX_OPCODE_BITS - prefixBits);
    var small := Pow2(MAX_OPCODE_BITS - totalBits);
    var ratio := Pow2(totalBits - prefixBits);
    AllWords(prefixBits);
    Scale(from, to, Pow2(prefixBits), unit);
    PowSum(totalBits - prefixBits, MAX_OPCODE_BITS - totalBits);
    TimesUnit(from, unit, ratio, small);
    TimesUnit(to, unit, ratio, small);
  }

  lemma TimesUnit(a: nat, unit: nat, ratio: nat, small: nat)
    requires unit == ratio * small
    ensures Multiple(a * unit, small)
  {
    Regroup(a, ratio, small);
    assert IsTimes(a * unit, small, a * ratio);
  }

  lemma Pow24()
    ensures Pow2(24) == MAX_OPCODE
  {
    assert Pow2(8) == 256;
    PowSum(8, 8);
    PowSum(16, 8);
  }

  lemma AllWords(prefixBits: nat)
    requires prefixBits <= MAX_OPCODE_BITS
    ensures Pow2(prefixBits) * Pow2(MAX_OPCODE_BITS - prefixBits) == MAX_OPCODE
  {
    PowSum(prefixBits, MAX_OPCODE_BITS - prefixBits);
    Pow24();
  }

  lemma Scale(a: nat, b: nat, c: nat, unit: nat)
    requires a < b <= c && unit > 0
    ensures a * unit < b * unit <= c * unit
  {
    assert b * unit == a * unit + (b - a) * unit;
    assert c * unit == b * unit + (c - b) * unit;
    assert (b - a) * unit > 0 && (c - b) * unit >= 0;
  }

  lemma Regroup(a: nat, b: nat, c: nat)
    ensures a * (b * c) == (a * b) * c
  {
  }

  // ----- Lookup -----

  /** The binary search of `lookup_impl`. */
  method Lookup(t: seq<Op>, word: nat) returns (op: Op)
    requires IsTable(t) && word < MAX_OPCODE
    ensures op in t && Owns(op, word)
  {
    var i, j := 0, |t|;
    while j - i > 1
      invariant 0 <= i < j <= |t|
      invariant t[i].min <= word
      invariant j < |t| ==> word < t[j].min
    {
      var k := (j + i) / 2;
      if t[k].min <= word {
        i := k;
      } else {
        j := k;
      }
    }
    return t[i];
  }

  lemma {:induction false} TableOrdered(t: seq<Op>, i: nat, j: nat)
    requires IsTable(t) && i < j < |t|
    ensures t[i].max <= t[j].min
    decreases j - i
  {
    assert t[j - 1].max == t[j - 1 + 1].min;
    if i + 1 < j {
      TableOrdered(t, i, j - 1);
    }
  }

  /** No word belongs to two entries. */
  lemma OwnerIsUnique(t: seq<Op>, a: Op, b: Op, word: nat)
    requires IsTable(t) && a in t && b in t && Owns(a, word) && Owns(b, word)
    ensures a == b
  {
    var i :| 0 <= i < |t| && t[i] == a;
    var j :| 0 <= j < |t| && t[j] == b;
    if i < j {
      TableOrdered(t, i, j);
    } else if j < i {
      TableOrdered(t, j, i);
    }
  }

  /** Every way to look a word up finds the one registered opcode that owns it, or a
      dummy exactly when no registered opcode does. */
  lemma LookupMeaning(ops: seq<Op>, t: seq<Op>, word: nat, found: Op)
    requires ValidOps(ops) && IsTable(t) && Entries(t) == Entries(ops)
    requires found in t && Owns(found, word)
    ensures found.Dummy? <==> forall o :: o in ops ==> !Owns(o, word)
    ensures forall o :: o in ops && Owns(o, word) ==> found == o
  {
    forall o | o in ops && Owns(o, word) ensures found == o {
      assert o in Entries(t);
      OwnerIsUnique(t, found, o, word);
    }
    if found.Registered? {
      assert found in Entries(ops);
    }
  }

  // ----- Decoding code slices -----

  /** `get_opcode_from_slice`: the first 24 bits, padded with zeros. */
  function Word(code: seq<bool>): nat {
    var bits := Min(MAX_OPCODE_BITS, |code|);
    ToNat(code[..bits]) * Pow2(MAX_OPCODE_BITS - bits)
  }

  lemma WordBound(code: seq<bool>)
    ensures Word(code) < MAX_OPCODE
  {
    var bits := Min(MAX_OPCODE_BITS, |code|);
    ToNatBound(code[..bits]);
    AllWords(bits);
    Scale(ToNat(code[..bits]), Pow2(bits), Pow2(bits), Pow2(MAX_OPCODE_BITS - bits));
  }

  /** A word is its first `n` bits followed by less than one unit of them. */
  lemma WordPrefix(code: seq<bool>, n: nat) returns (rest: nat)
    requires n <= MAX_OPCODE_BITS && n <= |code|
    ensures Word(code) == ToNat(code[..n]) * Pow2(MAX_OPCODE_BITS - n) + rest
    ensures rest < Pow2(MAX_OPCODE_BITS - n)
  {
    var bits := Min(MAX_OPCODE_BITS, |code|);
    var tail := code[n..bits];
    assert code[..bits] == code[..n] + tail;
    ToNatConcat(code[..n], tail);
    ToNatBound(tail);
    PowSum(|tail|, MAX_OPCODE_BITS - bits);
    rest := Assemble(ToNat(code[..n]), Pow2(|tail|), ToNat(tail), Pow2(MAX_OPCODE_BITS - bits));
  }

  lemma Assemble(head: nat, span: nat, tail: nat, pad: nat) returns (rest: nat)
    requires tail < span && pad > 0
    ensures (head * span + tail) * pad == head * (span * pad) + rest
    ensures rest < span * pad
  {
    rest := tail * pad;
    Scale(tail, span, span, pad);
    assert (head * span + tail) * pad == (head * span) * pad + tail * pad;
    Regroup(head, span, pad);
  }

  /** Between multiples of a unit, only the number of whole units decides. */
  lemma UnitsDecide(min: nat, max: nat, unit: nat, whole: nat, r: nat, r': nat)
    requires unit > 0 && Multiple(min, unit) && Multiple(max, unit) && r < unit && r' < unit
    requires min <= whole * unit + r < max
    ensures min <= whole * unit + r' < max
  {
    var a: nat :| IsTimes(min, unit, a);
    var b: nat :| IsTimes(max, unit, b);
    WholeUnits(a, whole, unit, r);
    WholeUnits(b, whole, unit, r);
    WholeUnits(a, whole, unit, r');
    WholeUnits(b, whole, unit, r');
  }

  lemma WholeUnits(a: nat, whole: nat, unit: nat, r: nat)
    requires r < unit
    ensures a * unit <= whole * unit + r <==> a <= whole
  {
    var gap := a - whole;
    assert gap * unit == a * unit - whole * unit;
    if gap >= 1 {
      assert gap * unit >= unit;
    } else {
      assert gap * unit <= 0;
    }
  }

  /** Which opcode is chosen depends only on the bits that opcode consists of: two
      code slices that agree on them choose the same opcode, so neither the padding of
      short code nor what follows the opcode matters. */
  lemma DecodeUsesOwnBits(t: seq<Op>, code: seq<bool>, code': seq<bool>, op: Op, op': Op)
    requires IsTable(t) && op in t && op' in t && op.Registered? && Aligned(op)
    requires Owns(op, Word(code)) && Owns(op', Word(code'))
    requires op.totalBits <= |code| && op.totalBits <= |code'| && code[..op.totalBits] == code'[..op.totalBits]
    ensures op' == op
  {
    var r := WordPrefix(code, op.totalBits);
    var r' := WordPrefix(code', op.totalBits);
    UnitsDecide(op.min, op.max, Pow2(MAX_OPCODE_BITS - op.totalBits), ToNat(code[..op.totalBits]), r, r');
    OwnerIsUnique(t, op, op', Word(code'));
  }

  // ----- Fetching an instruction -----

  /** The number of registered bits is what the slice is long enough for. */
  predicate Executable(op: Op, code: seq<bool>) {
    op.Registered? && op.totalBits <= |code|
  }

  lemma ShiftedPrefix(head: nat, unit: nat, rest: nat)
    requires rest < unit
    ensures (head * unit + rest) / unit == head
  {
    var q := (head * unit + rest) / unit;
    assert q * unit <= head * unit + rest < (q + 1) * unit;
    WholeUnits(q, head, unit, rest);
    WholeUnits(q + 1, head, unit, rest);
  }

  /** `dispatch` up to the call of the instruction: the word, the search, and the check
      every kind of opcode makes. The slice runs the one registered opcode that owns its
      word with exactly that opcode's bits as argument, or is an invalid opcode if and
      only if there is none or the slice is too short for it. */
  method FetchOpcode(ghost ops: seq<Op>, t: seq<Op>, code: seq<bool>)
    returns (op: Op, fetch: GasMachine.Fetch, arg: Option<nat>)
    requires ValidOps(ops) && AllAligned(ops) && IsTable(t) && Entries(t) == Entries(ops)
    ensures op in t && Owns(op, Word(code))
    ensures arg.Some? <==> exists o :: o in ops && Owns(o, Word(code)) && Executable(o, code)
    ensures arg.Some? ==> op in ops && Executable(op, code) && arg.value == ToNat(code[..op.totalBits])
    ensures forall o :: o in ops && Owns(o, Word(code)) ==> op == o
    ensures fetch == if op.Registered? then GasMachine.Opcode(op.totalBits) else GasMachine.InvalidOpcode
  {
    var bits := Min(MAX_OPCODE_BITS, |code|);
    var word := ToNat(code[..bits]) * Pow2(MAX_OPCODE_BITS - bits);
    WordBound(code);
    op := Lookup(t, word);
    LookupMeaning(ops, t, word, op);
    if op.Dummy? {
      return op, GasMachine.InvalidOpcode, None;
    }
    fetch, arg := GasMachine.Opcode(op.totalBits), None;
    assert op in Entries(ops);
    assert Aligned(op);
    if bits >= op.totalBits {
      var unit := Pow2(MAX_OPCODE_BITS - op.totalBits);
      var rest := WordPrefix(code, op.totalBits);
      ShiftedPrefix(ToNat(code[..op.totalBits]), unit, rest);
      arg := Some(word / unit);
    }
  }
}
