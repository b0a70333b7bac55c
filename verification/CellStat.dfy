/** The storage statistics counter: counts the distinct cells below some roots
    while remembering what it has already visited. */
module CellStat {
  import opened Util
  import opened Cells

  const MAX_ALLOWED_MERKLE_DEPTH: nat := 2

  datatype Limits = Limits(bits: U32, cells: U32)

  const UNLIMITED := Limits(U32_MAX, U32_MAX)

  datatype Stat = Stat(visited: map<Cell, nat>, cells: nat, bits: nat)

  const FRESH := Stat(map[], 0, 0)

  /** Depth-first visit of one root; `None` as soon as a limit is hit. */
  function Visit(st: Stat, lim: Limits, c: Cell): (Stat, Option<nat>)
    decreases c, 1
  {
    if c in st.visited then (st, Some(st.visited[c]))
    else if st.cells + 1 > U32_MAX then (st, None)
    else
      var s1 := st.(cells := st.cells + 1);
      if s1.bits + |c.data| > U32_MAX then (s1, None)
      else
        var s2 := s1.(bits := s1.bits + |c.data|);
        if s2.cells > lim.cells || s2.bits > lim.bits then (s2, None)
        else
          Record(VisitAll(s2, lim, c.refs, 0), c)
  }

  /** Enters a cell into the memo table once everything below it is done. */
  function Record(r: (Stat, Option<nat>), c: Cell): (Stat, Option<nat>) {
    if r.1.None? then r
    else
      var depth := SatAdd(r.1.value, IsMerkle(c), U8_MAX);
      (r.0.(visited := r.0.visited[c := depth]),
       if depth <= MAX_ALLOWED_MERKLE_DEPTH then Some(depth) else None)
  }

  /** Visits roots one after the other and stops at the first failure. */
  function VisitAll(st: Stat, lim: Limits, cs: seq<Cell>, depth: nat): (Stat, Option<nat>)
    decreases cs, 0
  {
    if cs == [] then (st, Some(depth))
    else
      var (s1, d) := Visit(st, lim, cs[0]);
      if d.None? then (s1, None) else VisitAll(s1, lim, cs[1..], Max(d.value, depth))
  }

  // ----- What the counter promises -----

  ghost predicate Fits(s: set<Cell>, lim: Limits) {
    |s| <= lim.cells && BitSum(s) <= lim.bits
  }

  ghost predicate Shallow(s: set<Cell>) {
    forall x {:trigger MerkleDepth(x)} :: x in s ==> MerkleDepth(x) <= MAX_ALLOWED_MERKLE_DEPTH
  }

  /** `counted` is every cell the counter has charged so far: the finished ones,
      which are in `visited`, and those whose children are still being visited. */
  ghost predicate Charged(st: Stat, lim: Limits, counted: set<Cell>) {
    && st.visited.Keys <= counted
    && st.cells == |counted|
    && st.bits == BitSum(counted)
    && Fits(counted, lim)
  }

  /** The memo table is closed under references and records true depths. */
  ghost predicate Closed(visited: map<Cell, nat>) {
    && (forall v {:trigger Reach(v)} :: v in visited ==> Reach(v) <= visited.Keys)
    && (forall v {:trigger visited[v]} {:trigger MerkleDepth(v)} :: v in visited ==> visited[v] == MerkleDepth(v) <= MAX_ALLOWED_MERKLE_DEPTH)
  }

  /** Cells still in progress lie strictly above `size`. */
  ghost predicate Above(st: Stat, counted: set<Cell>, size: nat) {
    forall p {:trigger Size(p)} :: p in counted && p !in st.visited ==> Size(p) > size
  }

  lemma ChargeOne(st: Stat, lim: Limits, c: Cell, counted: set<Cell>)
    requires Charged(st, lim, counted) && Above(st, counted, Size(c)) && c !in st.visited
    ensures c !in counted
    ensures |counted + {c}| == st.cells + 1 && BitSum(counted + {c}) == st.bits + |c.data|
    ensures Fits(counted + Reach(c), lim) ==> Fits(counted + {c}, lim)
  {
    assert (counted + {c}) - {c} == counted;
    BitSumRemove(counted + {c}, c);
    BitSumMonotone(counted + {c}, counted + Reach(c));
  }

  lemma CloseOver(visited: map<Cell, nat>, c: Cell)
    requires Closed(visited) && ReachAll(c.refs) <= visited.Keys
    requires MerkleDepth(c) <= MAX_ALLOWED_MERKLE_DEPTH
    ensures Closed(visited[c := MerkleDepth(c)])
  {
    var v' := visited[c := MerkleDepth(c)];
    forall v | v in v' ensures Reach(v) <= v'.Keys {
      if v != c {
        assert Reach(v) <= visited.Keys;
      }
    }
  }

  /** A visited cell is shallow together with everything below it. */
  lemma ClosedShallow(visited: map<Cell, nat>, s: set<Cell>)
    requires Closed(visited) && s <= visited.Keys
    ensures Shallow(s)
  {
  }

  lemma AboveAfter(st: Stat, st': Stat, counted: set<Cell>, reach: set<Cell>, size: nat, size': nat)
    requires Above(st, counted, size) && size' <= size
    requires st'.visited.Keys == st.visited.Keys + reach
    ensures Above(st', counted + reach, size')
  {
    forall p | p in counted + reach && p !in st'.visited ensures Size(p) > size' {
      assert p !in st'.visited.Keys;
    }
  }

  lemma UnionAssociates<T>(a: set<T>, b: set<T>, c: set<T>)
    ensures (a + b) + c == a + (b + c)
  {
  }

  /** The contract of one visit: started from `st`, with outcome `r`, over the
      cells `reach` that together have Merkle depth `depth`. */
  ghost predicate Counts(st: Stat, lim: Limits, r: (Stat, Option<nat>), reach: set<Cell>, depth: nat, counted: set<Cell>) {
    && (r.1.Some? <==> Fits(counted + reach, lim) && Shallow(reach))
    && (r.1.Some? ==> && r.1.value == depth
                      && r.0.visited.Keys == st.visited.Keys + reach
                      && Charged(r.0, lim, counted + reach)
                      && Closed(r.0.visited))
  }

  lemma CountsThen(st: Stat, lim: Limits, r1: (Stat, Option<nat>), reach1: set<Cell>, d1: nat,
                   r2: (Stat, Option<nat>), reach2: set<Cell>, d2: nat, counted: set<Cell>)
    requires Counts(st, lim, r1, reach1, d1, counted) && r1.1.Some?
    requires Counts(r1.0, lim, r2, reach2, d2, counted + reach1)
    ensures Counts(st, lim, r2, reach1 + reach2, d2, counted)
  {
    UnionAssociates(counted, reach1, reach2);
    UnionAssociates(st.visited.Keys, reach1, reach2);
  }

  lemma CountsFail(st: Stat, lim: Limits, r1: (Stat, Option<nat>), reach1: set<Cell>, d1: nat,
                   reach2: set<Cell>, d2: nat, counted: set<Cell>)
    requires Counts(st, lim, r1, reach1, d1, counted) && r1.1.None?
    ensures Counts(st, lim, (r1.0, None), reach1 + reach2, d2, counted)
  {
    BitSumMonotone(counted + reach1, counted + (reach1 + reach2));
  }

  lemma {:induction false} VisitCounts(st: Stat, lim: Limits, c: Cell, counted: set<Cell>)
    requires Charged(st, lim, counted) && Closed(st.visited) && Above(st, counted, Size(c))
    ensures Counts(st, lim, Visit(st, lim, c), Reach(c), MerkleDepth(c), counted)
    decreases c, 1
  {
    if c in st.visited {
      assert counted + Reach(c) == counted;
      assert st.visited.Keys + Reach(c) == st.visited.Keys;
      ClosedShallow(st.visited, Reach(c));
    } else {
      ChargeOne(st, lim, c, counted);
      var s2 := st.(cells := st.cells + 1, bits := st.bits + |c.data|);
      if Fits(counted + {c}, lim) {
        var r := VisitAll(s2, lim, c.refs, 0);
        assert Visit(st, lim, c) == Record(r, c);
        VisitAllCounts(s2, lim, c.refs, 0, counted + {c});
        RecordCounts(st, s2, lim, c, counted, r);
      } else {
        assert Visit(st, lim, c).1 == None;
      }
    }
  }

  lemma RecordCounts(st: Stat, s2: Stat, lim: Limits, c: Cell, counted: set<Cell>, r: (Stat, Option<nat>))
    requires s2.visited == st.visited
    requires Counts(s2, lim, r, ReachAll(c.refs), MerkleDepthAll(c.refs), counted + {c})
    ensures Counts(st, lim, Record(r, c), Reach(c), MerkleDepth(c), counted)
  {
    UnionAssociates(counted, {c}, ReachAll(c.refs));
    assert Reach(c) == {c} + ReachAll(c.refs);
    ShallowCell(c);
    if r.1.Some? {
      assert Record(r, c).0 == r.0.(visited := r.0.visited[c := MerkleDepth(c)]);
      if MerkleDepth(c) <= MAX_ALLOWED_MERKLE_DEPTH {
        RecordKeys(r.0.visited, c, MerkleDepth(c), st.visited.Keys, ReachAll(c.refs));
        CloseOver(r.0.visited, c);
      }
    }
  }

  lemma RecordKeys(visited: map<Cell, nat>, c: Cell, depth: nat, before: set<Cell>, below: set<Cell>)
    requires visited.Keys == before + below
    ensures visited[c := depth].Keys == before + ({c} + below)
  {
  }

  lemma ShallowCell(c: Cell)
    ensures Shallow(Reach(c)) <==> Shallow(ReachAll(c.refs)) && MerkleDepth(c) <= MAX_ALLOWED_MERKLE_DEPTH
    ensures Shallow(ReachAll(c.refs)) ==> MerkleDepthAll(c.refs) <= MAX_ALLOWED_MERKLE_DEPTH
  {
    if Shallow(ReachAll(c.refs)) {
      ShallowDepth(c.refs);
    }
  }

  lemma {:induction false} ShallowDepth(cs: seq<Cell>)
    requires Shallow(ReachAll(cs))
    ensures MerkleDepthAll(cs) <= MAX_ALLOWED_MERKLE_DEPTH
  {
    if cs != [] {
      assert cs[0] in Reach(cs[0]);
      ShallowDepth(cs[1..]);
    }
  }

  lemma {:induction false} VisitAllCounts(st: Stat, lim: Limits, cs: seq<Cell>, depth: nat, counted: set<Cell>)
    requires Charged(st, lim, counted) && Closed(st.visited) && Above(st, counted, SizeAll(cs))
    ensures Counts(st, lim, VisitAll(st, lim, cs, depth), ReachAll(cs), Max(MerkleDepthAll(cs), depth), counted)
    decreases cs, 0
  {
    if cs == [] {
      assert counted + ReachAll(cs) == counted;
      assert st.visited.Keys + ReachAll(cs) == st.visited.Keys;
    } else {
      VisitCounts(st, lim, cs[0], counted);
      var r1 := Visit(st, lim, cs[0]);
      var d := Max(MerkleDepthAll(cs), depth);
      assert ReachAll(cs) == Reach(cs[0]) + ReachAll(cs[1..]);
      if r1.1.None? {
        assert VisitAll(st, lim, cs, depth) == (r1.0, None);
        CountsFail(st, lim, r1, Reach(cs[0]), MerkleDepth(cs[0]), ReachAll(cs[1..]), d, counted);
      } else {
        var depth1 := Max(r1.1.value, depth);
        assert VisitAll(st, lim, cs, depth) == VisitAll(r1.0, lim, cs[1..], depth1);
        var head, tail := Reach(cs[0]), ReachAll(cs[1..]);
        AboveAfter(st, r1.0, counted, head, SizeAll(cs), SizeAll(cs[1..]));
        VisitAllCounts(r1.0, lim, cs[1..], depth1, counted + head);
        assert d == Max(MerkleDepthAll(cs[1..]), depth1);
        CountsThen(st, lim, r1, head, MerkleDepth(cs[0]), VisitAll(r1.0, lim, cs[1..], depth1), tail, d, counted);
      }
    }
  }

  /** From a fresh counter: adding roots succeeds iff the distinct reachable cells
      and their bits fit and no reachable cell nests Merkle cells too deeply, and
      then the counters are exactly that cardinality and that bit sum. */
  lemma FreshCounterIsExact(lim: Limits, roots: seq<Cell>)
    ensures var (s, d) := VisitAll(FRESH, lim, roots, 0);
            && (d.Some? <==> Fits(ReachAll(roots), lim) && Shallow(ReachAll(roots)))
            && (d.Some? ==> s.cells == |ReachAll(roots)| && s.bits == BitSum(ReachAll(roots))
                            && s.visited.Keys == ReachAll(roots))
  {
    VisitAllCounts(FRESH, lim, roots, 0, {});
    assert {} + ReachAll(roots) == ReachAll(roots);
  }

  /** The verdict and the counters do not depend on the order or repetition of the roots. */
  lemma OrderIsIrrelevant(lim: Limits, a: seq<Cell>, b: seq<Cell>)
    requires forall c :: c in a <==> c in b
    ensures VisitAll(FRESH, lim, a, 0).1.Some? <==> VisitAll(FRESH, lim, b, 0).1.Some?
    ensures VisitAll(FRESH, lim, a, 0).1.Some? ==>
              && VisitAll(FRESH, lim, a, 0).0.cells == VisitAll(FRESH, lim, b, 0).0.cells
              && VisitAll(FRESH, lim, a, 0).0.bits == VisitAll(FRESH, lim, b, 0).0.bits
  {
    forall x ensures x in ReachAll(a) <==> x in ReachAll(b) {
      ReachAllMember(a, x);
      ReachAllMember(b, x);
    }
    assert ReachAll(a) == ReachAll(b);
    FreshCounterIsExact(lim, a);
    FreshCounterIsExact(lim, b);
  }

  /** Starting from a cache filled with cells the roots reach anyway, under
      limits no wider than the present ones, gives what a fresh counter gives. */
  lemma SeedingIsHarmless(lim: Limits, seedLim: Limits, seed: seq<Cell>, roots: seq<Cell>)
    requires seedLim.bits <= lim.bits && seedLim.cells <= lim.cells
    requires VisitAll(FRESH, seedLim, seed, 0).1.Some?
    requires forall c :: c in seed ==> c in ReachAll(roots)
    ensures var seeded := VisitAll(VisitAll(FRESH, seedLim, seed, 0).0, lim, roots, 0);
            var clean := VisitAll(FRESH, lim, roots, 0);
            && (seeded.1.Some? <==> clean.1.Some?)
            && (seeded.1.Some? ==> seeded.0.cells == clean.0.cells && seeded.0.bits == clean.0.bits)
  {
    var cache := VisitAll(FRESH, seedLim, seed, 0).0;
    VisitAllCounts(FRESH, seedLim, seed, 0, {});
    assert {} + ReachAll(seed) == ReachAll(seed);
    forall x | x in ReachAll(seed) ensures x in ReachAll(roots) {
      ReachAllMember(seed, x);
      var c :| c in seed && x in Reach(c);
      ReachAllTransitive(roots, c);
    }
    VisitAllCounts(cache, lim, roots, 0, ReachAll(seed));
    assert ReachAll(seed) + ReachAll(roots) == ReachAll(roots);
    FreshCounterIsExact(lim, roots);
  }

  /** `ExtStorageStat`: the counter as the executor drives it. */
  class ExtStorageStat {
    var visited: map<Cell, nat>
    var limits: Limits
    var cells: nat
    var bits: nat

    constructor WithLimits(limits: Limits)
      ensures Value() == FRESH && this.limits == limits
    {
      this.visited, this.limits, this.cells, this.bits := map[], limits, 0, 0;
    }

    ghost function Value(): Stat
      reads this
    {
      Stat(visited, cells, bits)
    }

    method AddCellImpl(cell: Cell) returns (depth: Option<nat>)
      modifies this
      ensures limits == old(limits)
      ensures (Value(), depth) == Visit(old(Value()), limits, cell)
      decreases cell
    {
      if cell in visited {
        return Some(visited[cell]);
      }
      if cells + 1 > U32_MAX {
        return None;
      }
      cells := cells + 1;
      if bits + |cell.data| > U32_MAX {
        return None;
      }
      bits := bits + |cell.data|;
      if cells > limits.cells || bits > limits.bits {
        return None;
      }
      ghost var start := Value();
      var below: nat := 0;
      for i := 0 to |cell.refs|
        invariant limits == old(limits)
        invariant VisitAll(Value(), limits, cell.refs[i..], below) == VisitAll(start, limits, cell.refs, 0)
      {
        assert cell.refs[i..][1..] == cell.refs[i + 1..];
        var d := AddCellImpl(cell.refs[i]);
        if d.None? {
          return None;
        }
        below := Max(d.value, below);
      }
      below := SatAdd(below, IsMerkle(cell), U8_MAX);
      visited := visited[cell := below];
      return if below <= MAX_ALLOWED_MERKLE_DEPTH then Some(below) else None;
    }

    method AddCell(cell: Cell) returns (ok: bool)
      modifies this
      ensures limits == old(limits)
      ensures (Value(), ok) == (Visit(old(Value()), limits, cell).0, Visit(old(Value()), limits, cell).1.Some?)
    {
      var d := AddCellImpl(cell);
      ok := d.Some?;
    }

    /** The loops over the references of a message or of a state. */
    method AddCells(roots: seq<Cell>) returns (ok: bool)
      modifies this
      ensures limits == old(limits)
      ensures Value() == VisitAll(old(Value()), limits, roots, 0).0
      ensures ok == VisitAll(old(Value()), limits, roots, 0).1.Some?
    {
      ghost var depth: nat := 0;
      for i := 0 to |roots|
        invariant limits == old(limits)
        invariant VisitAll(Value(), limits, roots[i..], depth) == VisitAll(old(Value()), limits, roots, 0)
      {
        assert roots[i..][1..] == roots[i + 1..];
        ghost var before := Value();
        ok := AddCell(roots[i]);
        if !ok {
          return;
        }
        depth := Max(Visit(before, limits, roots[i]).1.value, depth);
      }
      ok := true;
    }
  }

  // ----- Storage used by a committed account -----

  const VARUINT56_MAX: nat := 0xff_ffff_ffff_ffff

  datatype Used = Used(bits: nat, cells: nat)

  /** Adds every root and ignores failures. */
  function AddEach(st: Stat, lim: Limits, cs: seq<Cell>): Stat
    decreases cs
  {
    if cs == [] then st else AddEach(Visit(st, lim, cs[0]).0, lim, cs[1..])
  }

  /** `compute_storage_used` without its reuse branch. */
  function Recompute(next: Slice, cache: Stat): Used {
    var st := AddEach(cache, UNLIMITED, next.refs);
    Used(Min(st.bits + |next.bits|, VARUINT56_MAX), Min(st.cells + 1, VARUINT56_MAX))
  }

  predicate CanReuse(used: Used, prev: Slice, next: Slice) {
    used.cells != 0 && used.bits >= |prev.bits| && prev.refs == next.refs
  }

  function StorageUsed(prev: Option<(Used, Slice)>, next: Slice, cache: Stat): Used {
    if prev.Some? && CanReuse(prev.value.0, prev.value.1, next) then
      Used(Min(prev.value.0.bits - |prev.value.1.bits| + |next.bits|, VARUINT56_MAX), prev.value.0.cells)
    else
      Recompute(next, cache)
  }

  /** What the storage of an account really takes. */
  ghost predicate ExactlyUsed(used: Used, storage: Slice) {
    && used.cells == |ReachAll(storage.refs)| + 1
    && used.bits == BitSum(ReachAll(storage.refs)) + |storage.bits|
  }

  lemma {:induction false} AddEachIsVisitAll(st: Stat, lim: Limits, cs: seq<Cell>, depth: nat)
    requires VisitAll(st, lim, cs, depth).1.Some?
    ensures AddEach(st, lim, cs) == VisitAll(st, lim, cs, depth).0
    decreases cs
  {
    if cs != [] {
      var r := Visit(st, lim, cs[0]);
      AddEachIsVisitAll(r.0, lim, cs[1..], Max(r.1.value, depth));
    }
  }

  /** The recorded usage stays exact from one committed storage to the next. Adjusted
      from the previous record, it is exact if and only if it still fits into the record;
      counted again, with a cache left over from the state-limits check, it is exact
      whenever no root is refused. */
  lemma StorageUsedIsExact(prev: Option<(Used, Slice)>, next: Slice, seed: seq<Cell>, seedLim: Limits)
    requires |next.bits| <= 1023
    requires prev.Some? ==> ExactlyUsed(prev.value.0, prev.value.1)
    requires VisitAll(FRESH, seedLim, seed, 0).1.Some?
    requires forall c :: c in seed ==> c in ReachAll(next.refs)
    ensures var used := StorageUsed(prev, next, VisitAll(FRESH, seedLim, seed, 0).0);
            if prev.Some? && CanReuse(prev.value.0, prev.value.1, next) then
              ExactlyUsed(used, next) <==> BitSum(ReachAll(next.refs)) + |next.bits| <= VARUINT56_MAX
            else
              Fits(ReachAll(next.refs), UNLIMITED) && Shallow(ReachAll(next.refs)) ==> ExactlyUsed(used, next)
  {
    if !(prev.Some? && CanReuse(prev.value.0, prev.value.1, next)) &&
       Fits(ReachAll(next.refs), UNLIMITED) && Shallow(ReachAll(next.refs)) {
      var cache := VisitAll(FRESH, seedLim, seed, 0).0;
      FreshCounterIsExact(UNLIMITED, next.refs);
      SeedingIsHarmless(UNLIMITED, seedLim, seed, next.refs);
      AddEachIsVisitAll(cache, UNLIMITED, next.refs, 0);
    }
  }

  // ----- Where counting again goes wrong -----

  const LEAF: Cell := Cell(Ordinary, [], [])
  const PROOF1: Cell := Cell(MerkleProof, [], [LEAF])
  const PROOF2: Cell := Cell(MerkleProof, [], [PROOF1])
  const PROOF3: Cell := Cell(MerkleProof, [], [PROOF2])
  const HIDDEN: Cell := Cell(Ordinary, [true], [])
  const NESTED: Cell := Cell(Ordinary, [], [PROOF3, HIDDEN])

  /** Visiting a cell with a single reference that has not been seen. */
  lemma VisitSingle(st: Stat, c: Cell, child: Cell)
    requires c !in st.visited && c.refs == [child] && c.data == [] && st.cells < U32_MAX && st.bits <= U32_MAX
    ensures var (s, d) := Visit(st.(cells := st.cells + 1), UNLIMITED, child);
            Visit(st, UNLIMITED, c) == Record(if d.None? then (s, None) else (s, Some(Max(d.value, 0))), c)
  {
    var s1 := st.(cells := st.cells + 1);
    var r := Visit(s1, UNLIMITED, child);
    assert c.refs[1..] == [];
    assert VisitAll(s1, UNLIMITED, c.refs, 0) == if r.1.None? then (r.0, None) else (r.0, Some(Max(r.1.value, 0)));
  }

  /** Three nested proofs are refused after all four cells below have been counted. */
  lemma NestedProofsFail(n: nat)
    requires n < 100
    ensures var r := Visit(Stat(map[], n, 0), UNLIMITED, PROOF3);
            r.1.None? && r.0.cells == n + 4 && r.0.bits == 0
  {
    var s3 := Stat(map[], n + 3, 0);
    var leaf := Visit(s3, UNLIMITED, LEAF);
    assert leaf == (Stat(map[LEAF := 0], n + 4, 0), Some(0)) by {
      assert VisitAll(s3.(cells := n + 4), UNLIMITED, LEAF.refs, 0) == (s3.(cells := n + 4), Some(0));
    }
    VisitSingle(Stat(map[], n + 2, 0), PROOF1, LEAF);
    VisitSingle(Stat(map[], n + 1, 0), PROOF2, PROOF1);
    VisitSingle(Stat(map[], n, 0), PROOF3, PROOF2);
  }

  /** A special account skips the limits check. If its storage nests three proofs, the
      ignored refusal hides what comes after them: the bit of the last cell is missing. */
  lemma NestedProofsHideCells()
    ensures var used := StorageUsed(None, Slice([], [NESTED]), FRESH);
            used == Used(0, 6) && HIDDEN in ReachAll([NESTED]) && !ExactlyUsed(used, Slice([], [NESTED]))
  {
    var st := Stat(map[], 1, 0);
    NestedProofsFail(1);
    assert VisitAll(st, UNLIMITED, NESTED.refs, 0) == (Visit(st, UNLIMITED, PROOF3).0, None);
    assert Visit(FRESH, UNLIMITED, NESTED) == (Visit(st, UNLIMITED, PROOF3).0, None);
    assert [NESTED][1..] == [];
    assert AddEach(FRESH, UNLIMITED, [NESTED]) == Visit(FRESH, UNLIMITED, NESTED).0;
    HiddenIsReached();
  }

  lemma HiddenIsReached()
    ensures HIDDEN in ReachAll([NESTED]) && BitSum(ReachAll([NESTED])) >= 1
  {
    assert HIDDEN in Reach(HIDDEN);
    ReachAllMember(NESTED.refs, HIDDEN);
    assert NESTED.refs[1] == HIDDEN;
    assert HIDDEN in Reach(NESTED);
    ReachAllMember([NESTED], HIDDEN);
    assert [NESTED][0] == NESTED;
    BitSumRemove(ReachAll([NESTED]), HIDDEN);
  }

  /** A refusal need not do harm: the three proofs alone are refused as well, but only
      after everything has been counted. Whether a refused storage is recorded right
      depends on where in the order of its cells the nesting is met. */
  lemma RefusedYetExact()
    ensures var used := StorageUsed(None, Slice([], [PROOF3]), FRESH);
            !Shallow(ReachAll([PROOF3])) && ExactlyUsed(used, Slice([], [PROOF3]))
  {
    NestedProofsFail(0);
    assert [PROOF3][1..] == [];
    assert AddEach(FRESH, UNLIMITED, [PROOF3]) == Visit(FRESH, UNLIMITED, PROOF3).0;
    assert VisitAll(FRESH, UNLIMITED, [PROOF3], 0).1.None?;
    FourCells();
    FreshCounterIsExact(UNLIMITED, [PROOF3]);
  }

  /** A cell with one reference, in numbers. */
  lemma OneMore(c: Cell, child: Cell)
    requires c.refs == [child] && c.data == []
    ensures ReachAll([c]) == {c} + ReachAll([child]) && c !in ReachAll([child])
    ensures |ReachAll([c])| == 1 + |ReachAll([child])|
    ensures BitSum(ReachAll([c])) == BitSum(ReachAll([child]))
  {
    assert [c][1..] == [] && [child][1..] == [];
    assert ReachAll([c]) == {c} + ReachAll([child]);
    if c in ReachAll([child]) {
      ReachAllSize([child], c);
      assert false;
    }
    assert ReachAll([c]) - {c} == ReachAll([child]);
    BitSumRemove(ReachAll([c]), c);
  }

  lemma FourCells()
    ensures |ReachAll([PROOF3])| == 4 && BitSum(ReachAll([PROOF3])) == 0
  {
    OneMore(PROOF3, PROOF2);
    OneMore(PROOF2, PROOF1);
    OneMore(PROOF1, LEAF);
    assert [LEAF][1..] == [];
    assert ReachAll([LEAF]) == {LEAF};
    BitSumRemove({LEAF}, LEAF);
    assert {LEAF} - {LEAF} == {};
  }
}
