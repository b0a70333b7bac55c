/** The gas consumer as the machine updates it, and the run loop that it bounds. */
module GasMachine {
  import opened Util
  import opened Cells
  import opened GasPricing
  import opened GasAccounting

  const GAS_PER_INSTRUCTION: nat := 10
  const GAS_PER_BIT: nat := 1
  const IMPLICIT_JMPREF_GAS_PRICE: nat := 10
  const IMPLICIT_RET_GAS_PRICE: nat := 5
  const EXCEPTION_GAS_PRICE: nat := 50
  const OUT_OF_GAS: int := 13

  /** A consumer set aside while its child runs. */
  datatype ParentGas = ParentGas(gas: Gas, isolate: bool)

  class GasConsumer {
    var gasMax: nat
    var gasLimit: nat
    var gasCredit: nat
    var gasBase: nat
    var gasRemaining: int
    var freeGasConsumed: nat
    var loadedCells: set<Cell>

    ghost function Value(): Gas
      reads this
    {
      Gas(gasMax, gasLimit, gasCredit, gasBase, gasRemaining, freeGasConsumed, loadedCells)
    }

    constructor (p: GasParams)
      ensures Value() == NewGas(p)
    {
      var remaining := Truncate(SatAdd(p.limit, p.credit, U64_MAX));
      gasMax, gasLimit, gasCredit := Truncate(p.max), Truncate(p.limit), Truncate(p.credit);
      gasBase, gasRemaining, freeGasConsumed, loadedCells := remaining, remaining, 0, {};
    }

    method Replace(g: Gas)
      modifies this
      ensures Value() == g
    {
      gasMax, gasLimit, gasCredit, gasBase := g.max, g.limit, g.credit, g.base;
      gasRemaining, freeGasConsumed, loadedCells := g.remaining, g.free, g.loaded;
    }

    method TryConsume(amount: nat) returns (ok: bool)
      modifies this`gasRemaining
      ensures Ran(Value(), ok) == Checked(Use(old(Value()), amount))
    {
      gasRemaining := Max(gasRemaining - Truncate(amount), I64_MIN);
      ok := gasRemaining >= 0;
    }

    method ConsumeFreeGas(amount: nat)
      modifies this`freeGasConsumed
      ensures Value() == UseFree(old(Value()), amount)
    {
      freeGasConsumed := Truncate(SatAdd(freeGasConsumed, amount, U64_MAX));
    }

    method SetGasBase(base: nat)
      modifies this`gasBase, this`gasRemaining
      ensures Value() == SetBase(old(Value()), base)
    {
      var b := Truncate(base);
      var diff := b - gasBase;
      gasRemaining := gasRemaining + diff;
      gasBase := b;
    }

    method SetGasLimit(limit: nat)
      modifies this
      ensures Value() == SetLimit(old(Value()), limit)
    {
      var l := Min(limit, gasMax);
      gasCredit := 0;
      gasLimit := l;
      SetGasBase(l);
    }

    method LoadOneCell(c: Cell) returns (ok: bool)
      modifies this
      ensures Ran(Value(), ok) == Checked(LoadCell(old(Value()), c))
    {
      var isNew := c !in loadedCells;
      loadedCells := loadedCells + {c};
      ok := TryConsume(if isNew then NEW_CELL_GAS else OLD_CELL_GAS);
    }

    /** `derive`: turns this consumer into a child and hands back the parent. */
    method DeriveChild(p: DeriveParams) returns (parent: Option<ParentGas>)
      modifies this
      ensures var d := Derive(old(Value()), p);
              if d.Derived? then parent == Some(ParentGas(d.parent, p.isolate)) && Value() == d.child
              else parent == None && Value() == d.gas
    {
      if p.isolate {
        var paid := TryConsume(freeGasConsumed);
        if !paid {
          return None;
        }
        var rem := gasRemaining;
        parent := Some(ParentGas(Gas(gasMax, gasLimit, gasCredit, gasBase, gasRemaining, 0, loadedCells), true));
        Replace(NewGas(GasParams(Min(p.gasMax, rem), Min(p.gasLimit, rem), 0, 0)));
      } else {
        if gasRemaining < 0 {
          return None;
        }
        var max, limit := Min(p.gasMax, gasRemaining), Min(p.gasLimit, gasRemaining);
        parent := Some(ParentGas(Gas(gasMax, gasLimit, gasCredit, gasBase, gasRemaining, freeGasConsumed, {}), false));
        gasMax, gasLimit, gasCredit, gasBase, gasRemaining := max, limit, 0, limit, limit;
      }
    }

    /** `restore` and the charge that `restore_parent` makes right after it. */
    method RestoreParent(parent: ParentGas) returns (ok: bool)
      requires gasRemaining <= gasBase
      modifies this
      ensures Ran(Value(), ok) == Checked(Restore(parent.gas, old(Value()), parent.isolate))
    {
      var consumed: nat, limit := Min(gasBase - gasRemaining, I64_MAX), gasLimit;
      var loaded := if parent.isolate then parent.gas.loaded else loadedCells;
      Replace(parent.gas.(free := freeGasConsumed, loaded := loaded));
      ok := TryConsume(Min(consumed, SatAdd(limit, 1, U64_MAX)));
    }

    /** Runs the gas effects of one instruction. */
    method Perform(ops: seq<GasOp>) returns (ok: bool)
      requires Childless(ops)
      modifies this
      ensures Ran(Value(), ok) == Run(old(Value()), ops)
    {
      ghost var start := Value();
      for i := 0 to |ops|
        invariant Run(start, ops) == Run(Value(), ops[i..])
      {
        assert ops[i..][1..] == ops[i + 1..];
        match ops[i] {
          case OpUse(amount) => ok := TryConsume(amount);
          case OpFree(amount) =>
            ConsumeFreeGas(amount);
            ok := true;
          case OpLoad(cell) => ok := LoadOneCell(cell);
          case OpSetGas(limit) =>
            ok := limit >= gasBase - gasRemaining;
            if ok {
              SetGasLimit(limit);
            }
        }
        if !ok {
          return;
        }
      }
      ok := true;
    }
  }

  ghost predicate Childless(ops: seq<GasOp>) {
    forall i :: 0 <= i < |ops| ==> !ops[i].OpChild?
  }

  // ----- The run loop -----

  datatype Fetch = Opcode(bits: nat) | InvalidOpcode | ImplicitJmpRef | ImplicitRet

  /** Ten units and one for each bit of the opcode; five for running off the end. */
  function FetchCost(f: Fetch): (cost: nat)
    ensures cost == if f.Opcode? then 10 + f.bits else if f.ImplicitRet? then 5 else 10
  {
    match f
    case Opcode(bits) => GAS_PER_INSTRUCTION + bits * GAS_PER_BIT
    case InvalidOpcode => GAS_PER_INSTRUCTION
    case ImplicitJmpRef => IMPLICIT_JMPREF_GAS_PRICE
    case ImplicitRet => IMPLICIT_RET_GAS_PRICE
  }

  /** How a step ends: with a code, with an exception whose handler ends with a code
      or faults again, or with a child machine taking over. */
  datatype Outcome = Ends(code: int) | Throws(handler: seq<GasOp>, handled: Option<int>) | Spawns(params: DeriveParams)

  /** One step: what it pays to be fetched, its gas effects, and how it ends. */
  datatype VmStep = VmStep(fetch: Fetch, ops: seq<GasOp>, outcome: Outcome)

  /** Children appear only by being spawned, and RUNVM never asks for a limit above
      the maximum it asks for. */
  ghost predicate ProperStep(s: VmStep) {
    && Childless(s.ops)
    && (s.outcome.Throws? ==> Childless(s.outcome.handler))
    && (s.outcome.Spawns? ==> s.outcome.params.gasLimit <= s.outcome.params.gasMax)
  }

  ghost predicate NeverSpawns(program: nat -> VmStep) {
    forall i :: !program(i).outcome.Spawns?
  }

  /** A consumer that can go on. Bases and everything spent stay within `cap`; a child
      has no credit, so its base is its limit. */
  ghost predicate Alive(g: Gas, cap: nat, child: bool) {
    && GasOk(g, I64_MAX) && g.base <= cap && g.max <= cap && Spent(g) <= cap
    && (child ==> g.credit == 0 && g.base == g.limit <= g.max && g.remaining >= 0)
  }

  lemma OpAlive(g: Gas, op: GasOp, cap: nat, child: bool)
    requires Alive(g, cap, child) && RunOp(g, op).ok && !op.OpChild?
    ensures Alive(RunOp(g, op).gas, cap, child) && Spent(g) <= Spent(RunOp(g, op).gas)
  {
    RunOpKeeps(g, op, I64_MAX);
  }

  lemma {:induction false} RunAlive(g: Gas, ops: seq<GasOp>, cap: nat, child: bool)
    requires Alive(g, cap, child) && Run(g, ops).ok && Childless(ops)
    ensures Alive(Run(g, ops).gas, cap, child) && Spent(g) <= Spent(Run(g, ops).gas)
    decreases |ops|
  {
    if ops != [] {
      OpAlive(g, ops[0], cap, child);
      RunAlive(RunOp(g, ops[0]).gas, ops[1..], cap, child);
    }
  }

  /** What even a program that ran out keeps of a child. */
  lemma {:induction false} RunDead(g: Gas, ops: seq<GasOp>, cap: nat)
    requires Alive(g, cap, true) && Childless(ops)
    ensures Dead(Run(g, ops).gas, cap, Spent(g))
    decreases |ops|
  {
    if ops != [] {
      var r := RunOp(g, ops[0]);
      if r.ok {
        OpAlive(g, ops[0], cap, true);
        RunDead(r.gas, ops[1..], cap);
      }
    }
  }

  /** A child that ended: it is charged for at least all it had spent while it could go on. */
  ghost predicate Dead(g: Gas, cap: nat, seen: nat) {
    GasInv(g, cap) && seen <= Spent(g) && seen <= g.limit
  }

  // ----- Machines waiting for their children -----

  ghost function Last(parents: seq<ParentGas>): Gas
    requires parents != []
  {
    parents[|parents| - 1].gas
  }

  /** What bounds the machine that runs now: its parent's remaining gas. */
  ghost function Cap(parents: seq<ParentGas>, bound: nat): int {
    if parents == [] then bound else Last(parents).remaining
  }

  /** Every waiting machine can go on and has gas left for its child. */
  ghost predicate Waiting(parents: seq<ParentGas>, bound: nat) {
    parents != [] ==>
      var init := parents[..|parents| - 1];
      && Waiting(init, bound) && 0 <= Cap(init, bound)
      && Last(parents).remaining >= 0 && Alive(Last(parents), Cap(init, bound), init != [])
  }

  ghost function SpentBelow(parents: seq<ParentGas>): int {
    if parents == [] then 0 else SpentBelow(parents[..|parents| - 1]) + Spent(Last(parents))
  }

  /** All machines together stay within what the first one may spend. */
  lemma {:induction false} TotalBound(parents: seq<ParentGas>, bound: nat)
    requires Waiting(parents, bound)
    ensures 0 <= Cap(parents, bound) && 0 <= SpentBelow(parents)
    ensures SpentBelow(parents) + Cap(parents, bound) <= bound
  {
    if parents != [] {
      TotalBound(parents[..|parents| - 1], bound);
    }
  }

  /** What the machines have paid for: two units of iterations for every unit of gas,
      of which each waiting machine holds one iteration back for its child's end. */
  ghost function Budget(parents: seq<ParentGas>, spent: int): int {
    2 * (SpentBelow(parents) + spent) - 5 * |parents|
  }

  lemma PushBudget(parents: seq<ParentGas>, p: ParentGas, spent: int)
    ensures Budget(parents + [p], spent) == Budget(parents, Spent(p.gas) + spent) - 5
    ensures Cap(parents + [p], 0) == p.gas.remaining
  {
    assert (parents + [p])[..|parents|] == parents;
  }

  lemma PushWaiting(parents: seq<ParentGas>, p: ParentGas, bound: nat)
    requires Waiting(parents, bound) && 0 <= Cap(parents, bound)
    requires p.gas.remaining >= 0 && Alive(p.gas, Cap(parents, bound), parents != [])
    ensures Waiting(parents + [p], bound)
  {
    assert (parents + [p])[..|parents|] == parents;
  }

  lemma DeriveAlive(g: Gas, p: DeriveParams, cap: nat, child: bool)
    requires Alive(g, cap, child) && p.gasLimit <= p.gasMax
    ensures var d := Derive(g, p);
            && (d.Derived? ==>
                  && Alive(d.parent, cap, child) && d.parent.remaining >= 0 && Spent(g) <= Spent(d.parent)
                  && Alive(d.child, d.parent.remaining, true) && Spent(d.child) == 0)
            && (d.CannotDerive? && child ==> Dead(d.gas, cap, Spent(g)))
  {
  }

  /** A finished child is charged for, and its parent goes on or ends in turn. */
  lemma RestoreAlive(parent: Gas, child: Gas, isolate: bool, extra: nat, seen: nat, cap: nat, inner: bool)
    requires Alive(parent, cap, inner) && parent.remaining >= 0 && Dead(child, parent.remaining, seen)
    ensures var g := Restore(parent, child, isolate);
            var after := Use(g, extra);
            && (g.remaining >= 0 && after.remaining >= 0 ==>
                  Alive(after, cap, inner) && Spent(parent) + seen <= Spent(after))
            && (inner && parent.remaining >= seen ==>
                  Dead(g, cap, Spent(parent) + seen) && Dead(after, cap, Spent(parent) + seen))
  {
  }

  /** The machine that runs now and those that wait for it. */
  class Machine {
    const gas: GasConsumer
    var parents: seq<ParentGas>

    constructor (gas: GasConsumer)
      ensures this.gas == gas && parents == []
    {
      this.gas, parents := gas, [];
    }

    ghost predicate Running(bound: nat)
      reads this, gas
    {
      && Waiting(parents, bound) && 0 <= Cap(parents, bound)
      && Alive(gas.Value(), Cap(parents, bound), parents != [])
    }

    /** The machine that ran now has ended, having spent `seen` while it could go on. */
    ghost predicate Ended(bound: nat, seen: nat)
      reads this, gas
    {
      && Waiting(parents, bound) && 0 <= Cap(parents, bound)
      && seen <= Cap(parents, bound)
      && (parents != [] ==> Dead(gas.Value(), Cap(parents, bound), seen))
    }

    method Effects(ops: seq<GasOp>, ghost bound: nat) returns (ok: bool)
      requires Running(bound) && Childless(ops)
      modifies gas
      ensures ok ==> Running(bound) && Spent(gas.Value()) >= old(Spent(gas.Value()))
      ensures !ok ==> Ended(bound, old(Spent(gas.Value())))
    {
      ghost var before := gas.Value();
      ok := gas.Perform(ops);
      if ok {
        RunAlive(before, ops, Cap(parents, bound), parents != []);
      } else if parents != [] {
        RunDead(before, ops, Cap(parents, bound));
      }
    }

    /** Pays for fetching an instruction or for throwing an exception. */
    method Pay(amount: nat, ghost bound: nat) returns (ok: bool)
      requires Running(bound) && 5 <= amount
      modifies gas
      ensures ok ==> Running(bound) && Spent(gas.Value()) >= old(Spent(gas.Value())) + 5
      ensures !ok ==> Ended(bound, old(Spent(gas.Value())))
    {
      ok := gas.TryConsume(amount);
    }

    /** `exec_runvm_common`: the machine waits and its child takes over. */
    method Spawn(p: DeriveParams, ghost bound: nat) returns (ok: bool)
      requires Running(bound) && p.gasLimit <= p.gasMax
      modifies this`parents, gas
      ensures ok ==> Running(bound) && Budget(parents, Spent(gas.Value())) >= old(Budget(parents, Spent(gas.Value()))) - 5
      ensures !ok ==> parents == old(parents) && Ended(bound, old(Spent(gas.Value())))
    {
      DeriveAlive(gas.Value(), p, Cap(parents, bound), parents != []);
      var parent := gas.DeriveChild(p);
      ok := parent.Some?;
      if ok {
        PushWaiting(parents, parent.value, bound);
        PushBudget(parents, parent.value, 0);
        parents := parents + [parent.value];
      }
    }

    /** One iteration: a step, and the exception handler if it throws. A step that goes
        on has paid for itself, and for the end of the child it may have spawned. */
    method Step(s: VmStep, ghost bound: nat) returns (res: int, ghost seen: nat)
      requires Running(bound) && ProperStep(s)
      modifies this`parents, gas
      ensures res == 0 ==> Running(bound) && Budget(parents, Spent(gas.Value())) >= old(Budget(parents, Spent(gas.Value()))) + 5
      ensures res == 0 && !s.outcome.Spawns? ==>
                parents == old(parents) && Spent(gas.Value()) >= old(Spent(gas.Value())) + 5
      ensures res != 0 ==> parents == old(parents) && Ended(bound, seen) && old(Spent(gas.Value())) <= seen
    {
      res, seen := OUT_OF_GAS, Spent(gas.Value());
      var ok := Pay(FetchCost(s.fetch), bound);
      if !ok {
        return;
      }
      ok := Effects(s.ops, bound);
      if !ok {
        return;
      }
      match s.outcome {
        case Ends(code) => res := code;
        case Spawns(params) =>
          ok := Spawn(params, bound);
          res := if ok then 0 else OUT_OF_GAS;
        case Throws(handler, code) => res := Throw(handler, code, bound);
      }
    }

    method Throw(handler: seq<GasOp>, code: Option<int>, ghost bound: nat) returns (res: int)
      requires Running(bound) && Childless(handler)
      modifies gas
      ensures res == 0 ==> Running(bound) && Spent(gas.Value()) >= old(Spent(gas.Value()))
      ensures res != 0 ==> Ended(bound, old(Spent(gas.Value())))
    {
      var ok := Pay(EXCEPTION_GAS_PRICE, bound);
      if ok {
        ok := Effects(handler, bound);
      }
      res := if !ok then OUT_OF_GAS else if code.Some? then code.value else -1;
    }

    /** Runs the current machine, and every child it spawns on the way, until the one
        that runs then ends. */
    method RunInner(program: nat -> VmStep, clock: nat, ghost bound: nat, ghost start: int)
      returns (res: int, iterations: nat, ghost seen: nat)
      requires Running(bound) && (forall i :: ProperStep(program(i)))
      requires 5 * clock <= Budget(parents, Spent(gas.Value())) - start
      modifies this`parents, gas
      ensures res != 0 && clock < iterations && Ended(bound, seen)
      ensures 5 * iterations <= Budget(parents, seen) - start + 5
      ensures NeverSpawns(program) ==>
                parents == old(parents) && 5 * (iterations - clock) <= seen - old(Spent(gas.Value())) + 5
    {
      res, iterations, seen := 0, clock, 0;
      while res == 0
        invariant clock <= iterations && (res != 0 ==> clock < iterations)
        invariant res == 0 ==> Running(bound) && 5 * iterations <= Budget(parents, Spent(gas.Value())) - start
        invariant res != 0 ==> Ended(bound, seen) && 5 * iterations <= Budget(parents, seen) - start + 5
        invariant NeverSpawns(program) ==>
                    && parents == old(parents)
                    && (res == 0 ==> 5 * (iterations - clock) <= Spent(gas.Value()) - old(Spent(gas.Value())))
                    && (res != 0 ==> 5 * (iterations - clock) <= seen - old(Spent(gas.Value())) + 5)
        decreases res == 0, 2 * bound - Budget(parents, Spent(gas.Value()))
      {
        res, seen := Step(program(iterations), bound);
        iterations := iterations + 1;
        TotalBound(parents, bound);
      }
    }

    /** `restore_parent`: the machine on top of those that wait takes over again, charged
        for its child and for the values the child returns. */
    method Resume(returned: nat, ghost bound: nat, ghost seen: nat) returns (ok: bool)
      requires parents != [] && Ended(bound, seen)
      modifies this`parents, gas
      ensures parents == old(parents)[..|old(parents)| - 1]
      ensures ok ==> Running(bound) && Budget(parents, Spent(gas.Value())) >= old(Budget(parents, seen)) + 5
      ensures !ok ==> Ended(bound, old(Spent(Last(parents))) + seen)
      ensures Budget(parents, old(Spent(Last(parents))) + seen) == old(Budget(parents, seen)) + 5
    {
      var parent := parents[|parents| - 1];
      ghost var child := gas.Value();
      parents := parents[..|parents| - 1];
      RestoreAlive(parent.gas, child, parent.isolate, returned, seen, Cap(parents, bound), parents != []);
      ok := gas.RestoreParent(parent);
      if ok {
        ok := gas.TryConsume(returned);
      }
    }

    /** `run`, for every program and child machines of any depth: it stops, and the gas
        of the first machine bounds the iterations of all machines together. */
    method RunAll(program: nat -> VmStep, returned: nat -> nat) returns (res: int, iterations: nat)
      requires parents == [] && GasOk(gas.Value(), I64_MAX) && Spent(gas.Value()) <= Max(gas.gasBase, gas.gasMax)
      requires forall i :: ProperStep(program(i))
      modifies this`parents, gas
      ensures res != 0 && parents == []
      ensures 5 * iterations <= 2 * (Max(old(gas.gasBase), old(gas.gasMax)) - old(Spent(gas.Value()))) + 5
      ensures NeverSpawns(program) ==>
                5 * iterations <= Max(old(gas.gasBase), old(gas.gasMax)) - old(Spent(gas.Value())) + 5
    {
      ghost var bound := Max(gas.gasBase, gas.gasMax);
      ghost var start := Budget(parents, Spent(gas.Value()));
      ghost var seen: nat;
      res, iterations, seen := RunInner(program, 0, bound, start);
      TotalBound(parents, bound);
      while parents != []
        invariant res != 0 && Ended(bound, seen)
        invariant 5 * iterations <= Budget(parents, seen) - start + 5
        invariant SpentBelow(parents) + seen <= bound
        invariant NeverSpawns(program) ==>
                    parents == [] && 5 * iterations <= bound - old(Spent(gas.Value())) + 5
        decreases 2 * bound - start + 5 - 5 * iterations, |parents|
      {
        ghost var waited: nat := Spent(Last(parents)) + seen;
        var ok := Resume(returned(iterations), bound, seen);
        if ok {
          res, iterations, seen := RunInner(program, iterations, bound, start);
        } else {
          res, seen := OUT_OF_GAS, waited;
        }
        TotalBound(parents, bound);
      }
    }
  }

  // ----- Cheap calls: a consumer that charges at most a threshold -----

  datatype Limited = Limited(gas: Gas, left: nat)

  /** `LimitedGasConsumer::try_consume`. */
  function LimitedUse(l: Limited, amount: nat): Option<Limited> {
    var want := Truncate(amount);
    var pay := Min(want, l.left);
    var paid := Use(l.gas, pay);
    if paid.remaining < 0 then None
    else
      var left: nat := l.left - pay;
      Some(Limited(if left == 0 then UseFree(paid, want - pay) else paid, left))
  }

  function LimitedUses(l: Limited, amounts: seq<nat>): Option<Limited> {
    if amounts == [] then Some(l)
    else
      var r := LimitedUses(l, amounts[..|amounts| - 1]);
      if r.None? then None else LimitedUse(r.value, amounts[|amounts| - 1])
  }

  function Sum(amounts: seq<nat>): nat {
    if amounts == [] then 0 else Sum(amounts[..|amounts| - 1]) + amounts[|amounts| - 1]
  }

  /** Over any series of calls the account is charged the smaller of the threshold
      and the total; everything beyond is recorded as free gas, to be paid for when an
      isolated child is started. */
  lemma {:induction false} LimitedTotals(l: Limited, amounts: seq<nat>)
    requires LimitedUses(l, amounts).Some?
    requires l.gas.free + Sum(amounts) <= I64_MAX
    ensures var r := LimitedUses(l, amounts).value;
            && Spent(r.gas) - Spent(l.gas) == Min(l.left, Sum(amounts))
            && r.gas.free - l.gas.free == Sum(amounts) - Min(l.left, Sum(amounts))
            && r.left == l.left - Min(l.left, Sum(amounts))
    decreases |amounts|
  {
    if amounts != [] {
      LimitedTotals(l, amounts[..|amounts| - 1]);
    }
  }
}
