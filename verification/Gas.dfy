/** Gas accounting of the virtual machine, with child machines of any depth. */
module GasAccounting {
  import opened Util
  import opened Cells
  import opened GasPricing

  const NEW_CELL_GAS: nat := 100
  const OLD_CELL_GAS: nat := 25

  /** The counters of a `GasConsumer`. */
  datatype Gas = Gas(max: nat, limit: nat, credit: nat, base: nat, remaining: int, free: nat, loaded: set<Cell>)

  function Truncate(n: nat): nat {
    Min(n, I64_MAX)
  }

  function NewGas(p: GasParams): Gas {
    var remaining := Truncate(SatAdd(p.limit, p.credit, U64_MAX));
    Gas(Truncate(p.max), Truncate(p.limit), Truncate(p.credit), remaining, remaining, 0, {})
  }

  /** Gas used so far, before narrowing. */
  function Spent(g: Gas): int {
    g.base - g.remaining
  }

  function Consumed(g: Gas): nat
    requires g.remaining <= g.base
  {
    Min(Spent(g), I64_MAX)
  }

  function Use(g: Gas, amount: nat): Gas {
    g.(remaining := Max(g.remaining - Truncate(amount), I64_MIN))
  }

  function UseFree(g: Gas, amount: nat): Gas {
    g.(free := Truncate(SatAdd(g.free, amount, U64_MAX)))
  }

  function SetBase(g: Gas, base: nat): Gas {
    var b := Truncate(base);
    g.(remaining := g.remaining + (b - g.base), base := b)
  }

  function SetLimit(g: Gas, limit: nat): Gas {
    var l := Min(limit, g.max);
    SetBase(g.(credit := 0, limit := l), l)
  }

  /** Loading a cell costs more the first time. */
  function LoadCell(g: Gas, c: Cell): Gas {
    Use(g.(loaded := g.loaded + {c}), if c in g.loaded then OLD_CELL_GAS else NEW_CELL_GAS)
  }

  // ----- Child machines -----

  datatype DeriveParams = DeriveParams(gasMax: nat, gasLimit: nat, isolate: bool)

  /** The parent as it waits, and the consumer its child works with. */
  datatype Derived = Derived(parent: Gas, child: Gas) | CannotDerive(gas: Gas)

  function Derive(g: Gas, p: DeriveParams): Derived {
    if p.isolate then
      var paid := Use(g, g.free);
      if paid.remaining < 0 then CannotDerive(paid)
      else
        var params := GasParams(Min(p.gasMax, paid.remaining), Min(p.gasLimit, paid.remaining), 0, 0);
        Derived(paid.(free := 0), NewGas(params))
    else if g.remaining < 0 then CannotDerive(g)
    else
      var limit := Min(p.gasLimit, g.remaining);
      Derived(g.(loaded := {}), Gas(Min(p.gasMax, g.remaining), limit, 0, limit, limit, g.free, g.loaded))
  }

  /** What the parent is charged for a finished child. */
  function Charge(child: Gas): nat
    requires child.remaining <= child.base
  {
    Min(Consumed(child), SatAdd(child.limit, 1, U64_MAX))
  }

  /** `restore` followed by the charge in `restore_parent`. */
  function Restore(parent: Gas, child: Gas, isolate: bool): Gas
    requires child.remaining <= child.base
  {
    Use(parent.(free := child.free, loaded := if isolate then parent.loaded else child.loaded), Charge(child))
  }

  // ----- Everything a program can do to its gas -----

  datatype GasOp =
    | OpUse(amount: nat)
    | OpFree(amount: nat)
    | OpLoad(cell: Cell)
    | OpSetGas(limit: nat)
    | OpChild(params: DeriveParams, body: seq<GasOp>)

  datatype Ran = Ran(gas: Gas, ok: bool)

  function Checked(g: Gas): Ran {
    Ran(g, g.remaining >= 0)
  }

  /** Program behaviour: operations run in order until gas runs out. A child may end
      in any way; its parent is charged and goes on. */
  function Run(g: Gas, ops: seq<GasOp>): Ran
    decreases ops, 0
  {
    if ops == [] then Ran(g, true)
    else
      var r := RunOp(g, ops[0]);
      if r.ok then Run(r.gas, ops[1..]) else r
  }

  function RunOp(g: Gas, op: GasOp): Ran
    decreases op, 1
  {
    match op
    case OpUse(amount) => Checked(Use(g, amount))
    case OpFree(amount) => Ran(UseFree(g, amount), true)
    case OpLoad(cell) => Checked(LoadCell(g, cell))
    case OpSetGas(limit) =>
      if limit < Spent(g) then Ran(g, false) else Ran(SetLimit(g, limit), true)
    case OpChild(params, body) =>
      var d := Derive(g, params);
      if d.CannotDerive? then Ran(d.gas, false)
      else
        var child := Run(d.child, body).gas;
        if child.base < child.remaining then Ran(g, false)
        else Checked(Restore(d.parent, child, params.isolate))
  }

  // ----- Invariants -----

  /** `cap` bounds every limit the consumer can ever have. */
  ghost predicate GasInv(g: Gas, cap: nat) {
    && g.limit <= cap && g.max <= cap
    && g.max <= I64_MAX && g.limit <= I64_MAX && g.base <= I64_MAX
    && I64_MIN <= g.remaining <= g.base
  }

  /** A consumer that has not run out: its arithmetic stays within 64 bits. */
  ghost predicate GasOk(g: Gas, cap: nat) {
    GasInv(g, cap) && Spent(g) <= I64_MAX
  }

  /** What any program keeps. */
  ghost predicate Keeps(g: Gas, cap: nat, r: Ran) {
    && GasInv(r.gas, cap)
    && Spent(g) <= Spent(r.gas)
    && r.gas.max == g.max
    && (g.credit == 0 ==> r.gas.credit == 0)
    && (r.ok ==> GasOk(r.gas, cap))
  }

  lemma DeriveKeeps(g: Gas, p: DeriveParams, cap: nat)
    requires GasOk(g, cap)
    ensures var d := Derive(g, p);
            && (d.CannotDerive? ==> Keeps(g, cap, Ran(d.gas, false)))
            && (d.Derived? ==>
                  && Keeps(g, cap, Ran(d.parent, true)) && d.parent.remaining >= 0
                  && GasOk(d.child, d.parent.remaining) && Spent(d.child) == 0)
  {
  }

  /** The charge never takes the parent below -1. */
  lemma RestoreKeeps(parent: Gas, child: Gas, isolate: bool, cap: nat)
    requires GasOk(parent, cap) && parent.remaining >= 0 && GasInv(child, parent.remaining)
    ensures Keeps(parent, cap, Checked(Restore(parent, child, isolate)))
    ensures Restore(parent, child, isolate).remaining >= -1
  {
  }

  lemma {:induction false} RunKeeps(g: Gas, ops: seq<GasOp>, cap: nat)
    requires GasOk(g, cap)
    ensures Keeps(g, cap, Run(g, ops))
    decreases ops, 0
  {
    if ops != [] {
      RunOpKeeps(g, ops[0], cap);
      var r := RunOp(g, ops[0]);
      if r.ok {
        RunKeeps(r.gas, ops[1..], cap);
      }
    }
  }

  lemma {:induction false} RunOpKeeps(g: Gas, op: GasOp, cap: nat)
    requires GasOk(g, cap)
    ensures Keeps(g, cap, RunOp(g, op))
    decreases op, 1
  {
    if op.OpChild? {
      DeriveKeeps(g, op.params, cap);
      var d := Derive(g, op.params);
      if d.Derived? {
        RunKeeps(d.child, op.body, d.parent.remaining);
        RestoreKeeps(d.parent, Run(d.child, op.body).gas, op.params.isolate, cap);
      }
    }
  }

  // ----- Theorems -----

  /** Whatever a child does, limit changes and children of its own included: the
      parent pays min(consumed, limit + 1), keeps at least -1, and is exhausted by it
      only if the child had all of the parent's gas as its limit and overran it. */
  lemma ChildCharge(g: Gas, p: DeriveParams, body: seq<GasOp>, cap: nat)
    requires GasOk(g, cap) && Derive(g, p).Derived?
    ensures var parent := Derive(g, p).parent;
            var child := Run(Derive(g, p).child, body).gas;
            && child.remaining <= child.base
            && child.limit <= parent.remaining
            && var after := Restore(parent, child, p.isolate);
               && parent.remaining - after.remaining == Min(Consumed(child), child.limit + 1)
               && after.remaining >= -1
               && (after.remaining < 0 <==> child.limit == parent.remaining && Consumed(child) > child.limit)
  {
    DeriveKeeps(g, p, cap);
    RunKeeps(Derive(g, p).child, body, Derive(g, p).parent.remaining);
  }

  /** Gas is only ever spent: no program lowers what it has consumed, and a limit can
      neither exceed the maximum nor bring back credit. */
  lemma ProgramKeepsLimits(p: GasParams, ops: seq<GasOp>)
    requires p.limit <= p.max
    ensures var g := Run(NewGas(p), ops).gas;
            && g.limit <= p.max
            && 0 <= Spent(g)
            && (p.credit == 0 ==> g.credit == 0)
  {
    RunKeeps(NewGas(p), ops, p.max);
  }

  /** Loads cells one after the other while gas lasts. */
  function LoadAll(g: Gas, cells: seq<Cell>): Ran {
    if cells == [] then Ran(g, true)
    else
      var r := LoadAll(g, cells[..|cells| - 1]);
      if r.ok then Checked(LoadCell(r.gas, cells[|cells| - 1])) else r
  }

  lemma NewCell(before: set<Cell>, loaded: set<Cell>, c: Cell)
    requires before <= loaded
    ensures |(loaded + {c}) - before| == |loaded - before| + if c in loaded then 0 else 1
  {
    if c in loaded {
      assert loaded + {c} == loaded;
    } else {
      assert (loaded + {c}) - before == (loaded - before) + {c};
    }
  }

  /** Loading cells costs 100 for each distinct new cell and 25 for each repetition. */
  lemma {:induction false} LoadsCost(g: Gas, cells: seq<Cell>)
    requires LoadAll(g, cells).ok
    ensures var g' := LoadAll(g, cells).gas;
            && g.loaded <= g'.loaded
            && (forall c :: c in g'.loaded <==> c in g.loaded || c in cells)
            && Spent(g') - Spent(g) == OLD_CELL_GAS * |cells| + (NEW_CELL_GAS - OLD_CELL_GAS) * |g'.loaded - g.loaded|
    decreases |cells|
  {
    if cells == [] {
      assert g.loaded - g.loaded == {};
    } else {
      var n := |cells| - 1;
      LoadsCost(g, cells[..n]);
      var r := LoadAll(g, cells[..n]).gas;
      NewCell(g.loaded, r.loaded, cells[n]);
      assert forall c :: c in cells <==> c in cells[..n] || c == cells[n];
    }
  }
}
