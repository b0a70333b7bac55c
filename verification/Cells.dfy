/** Cells as an inductive datatype: two cells are the same exactly when their
    representation hashes are. */
module Cells {
  import opened Util

  datatype CellKind = Ordinary | PrunedBranch | LibraryReference | MerkleProof | MerkleUpdate

  datatype Cell = Cell(kind: CellKind, data: seq<bool>, refs: seq<Cell>)

  /** A window of a cell that is being read or written. */
  datatype Slice = Slice(bits: seq<bool>, refs: seq<Cell>)

  function IsMerkle(c: Cell): nat {
    if c.kind.MerkleProof? || c.kind.MerkleUpdate? then 1 else 0
  }

  /** All cells reachable from `c`, itself included. */
  ghost function Reach(c: Cell): set<Cell>
    decreases c, 1
  {
    {c} + ReachAll(c.refs)
  }

  ghost function ReachAll(cs: seq<Cell>): set<Cell>
    decreases cs, 0
  {
    if cs == [] then {} else Reach(cs[0]) + ReachAll(cs[1..])
  }

  /** The largest number of Merkle cells on one path below and including `c`. */
  ghost function MerkleDepth(c: Cell): nat
    decreases c, 1
  {
    MerkleDepthAll(c.refs) + IsMerkle(c)
  }

  ghost function MerkleDepthAll(cs: seq<Cell>): nat
    decreases cs, 0
  {
    if cs == [] then 0 else Max(MerkleDepth(cs[0]), MerkleDepthAll(cs[1..]))
  }

  /** Number of nodes of the tree unfolding; orders a cell above everything it refers to. */
  ghost function Size(c: Cell): nat
    decreases c, 1
  {
    1 + SizeAll(c.refs)
  }

  ghost function SizeAll(cs: seq<Cell>): nat
    decreases cs, 0
  {
    if cs == [] then 0 else Size(cs[0]) + SizeAll(cs[1..])
  }

  lemma {:induction false} ReachSize(c: Cell, x: Cell)
    requires x in Reach(c)
    ensures Size(x) <= Size(c)
    decreases c, 1
  {
    if x != c {
      ReachAllSize(c.refs, x);
    }
  }

  lemma {:induction false} ReachAllSize(cs: seq<Cell>, x: Cell)
    requires x in ReachAll(cs)
    ensures Size(x) <= SizeAll(cs)
    decreases cs, 0
  {
    if x in Reach(cs[0]) {
      ReachSize(cs[0], x);
    } else {
      ReachAllSize(cs[1..], x);
    }
  }

  lemma {:induction false} ReachTransitive(c: Cell, x: Cell)
    requires x in Reach(c)
    ensures Reach(x) <= Reach(c)
    decreases c, 1
  {
    if x != c {
      ReachAllTransitive(c.refs, x);
    }
  }

  lemma {:induction false} ReachAllTransitive(cs: seq<Cell>, x: Cell)
    requires x in ReachAll(cs)
    ensures Reach(x) <= ReachAll(cs)
    decreases cs, 0
  {
    if x in Reach(cs[0]) {
      ReachTransitive(cs[0], x);
    } else {
      ReachAllTransitive(cs[1..], x);
    }
  }

  /** What several roots reach together does not depend on their order or repetition. */
  lemma {:induction false} ReachAllMember(cs: seq<Cell>, x: Cell)
    ensures x in ReachAll(cs) <==> exists c :: c in cs && x in Reach(c)
  {
    if cs != [] {
      ReachAllMember(cs[1..], x);
      assert forall c :: c in cs <==> c == cs[0] || c in cs[1..];
      assert cs[0] in cs;
    }
  }

  /** Total number of data bits of a set of distinct cells. */
  ghost function BitSum(s: set<Cell>): nat {
    if s == {} then 0 else var x :| x in s; |x.data| + BitSum(s - {x})
  }

  lemma {:induction false} BitSumRemove(s: set<Cell>, x: Cell)
    requires x in s
    ensures BitSum(s) == |x.data| + BitSum(s - {x})
    decreases |s|
  {
    var y :| y in s && BitSum(s) == |y.data| + BitSum(s - {y});
    if y != x {
      BitSumRemove(s - {y}, x);
      BitSumRemove(s - {x}, y);
      assert s - {y} - {x} == s - {x} - {y};
    }
  }

  lemma {:induction false} BitSumMonotone(a: set<Cell>, b: set<Cell>)
    requires a <= b
    ensures BitSum(a) <= BitSum(b) && |a| <= |b|
    decreases |b|
  {
    if a != b {
      assert exists x :: x in b && x !in a;
      var x :| x in b && x !in a;
      BitSumRemove(b, x);
      BitSumMonotone(a, b - {x});
    }
  }
}
