/** What gas operations mean: when gas runs out, what accepting a message does, and what a
    child machine starts with and leaves behind. */
module GasLaws {
  import opened Util
  import opened Cells
  import opened GasPricing
  import opened GasAccounting

  // ----- Running out -----

  /** What a series of uses costs; a single use is never more than a 64-bit number. */
  function Cost(amounts: seq<nat>): nat {
    if amounts == [] then 0 else Truncate(amounts[0]) + Cost(amounts[1..])
  }

  function Uses(amounts: seq<nat>): (ops: seq<GasOp>)
    ensures |ops| == |amounts|
  {
    seq(|amounts|, i requires 0 <= i < |amounts| => OpUse(amounts[i]))
  }

  /** A series of uses goes through if and only if what is left pays for all of it. */
  lemma {:induction false} RunsOutIff(g: Gas, amounts: seq<nat>)
    requires g.remaining >= 0
    ensures var r := Run(g, Uses(amounts));
            && (r.ok <==> Cost(amounts) <= g.remaining)
            && (r.ok ==> r.gas == g.(remaining := g.remaining - Cost(amounts)))
    decreases |amounts|
  {
    if amounts != [] {
      assert Uses(amounts)[1..] == Uses(amounts[1..]);
      var used := Use(g, amounts[0]);
      if used.remaining >= 0 {
        RunsOutIff(used, amounts[1..]);
      }
    }
  }

  /** A machine may use limit and credit together, and nothing beyond. */
  lemma FreshGasIs(p: GasParams, amounts: seq<nat>)
    requires p.limit + p.credit <= I64_MAX && p.max <= I64_MAX
    ensures var g := NewGas(p);
            && g == Gas(p.max, p.limit, p.credit, p.limit + p.credit, p.limit + p.credit, 0, {})
            && (Run(g, Uses(amounts)).ok <==> Cost(amounts) <= p.limit + p.credit)
  {
    RunsOutIff(NewGas(p), amounts);
  }

  // ----- Accepting -----

  /** Accepting a message or setting a limit gives up all credit and moves the limit,
      within the maximum; what has been spent stays spent. */
  lemma LimitMeaning(g: Gas, limit: nat, cap: nat)
    requires GasOk(g, cap)
    ensures var s := SetLimit(g, limit);
            && s.limit == s.base == Min(limit, g.max) && s.credit == 0
            && Spent(s) == Spent(g) && s.remaining == s.limit - Spent(g)
            && s.max == g.max && s.free == g.free && s.loaded == g.loaded
  {
  }

  /** Setting a limit fails if and only if more has been spent already. Otherwise the
      machine may go on to exactly that limit. */
  lemma SetGasIff(g: Gas, limit: nat, amounts: seq<nat>, cap: nat)
    requires GasOk(g, cap) && limit <= g.max
    ensures var r := RunOp(g, OpSetGas(limit));
            && (r.ok <==> Spent(g) <= limit)
            && (r.ok ==> (Run(r.gas, Uses(amounts)).ok <==> Spent(g) + Cost(amounts) <= limit))
  {
    if Spent(g) <= limit {
      LimitMeaning(g, limit, cap);
      RunsOutIff(SetLimit(g, limit), amounts);
    }
  }

  // ----- Free gas -----

  /** Free gas costs nothing now; an isolated child makes the parent pay for it. */
  lemma FreeIsFree(g: Gas, amount: nat)
    requires g.free + amount <= I64_MAX
    ensures RunOp(g, OpFree(amount)) == Ran(g.(free := g.free + amount), true)
  {
  }

  // ----- Children -----

  function Due(g: Gas, p: DeriveParams): nat {
    if p.isolate then Truncate(g.free) else 0
  }

  /** What a child starts with: what it was promised, at most what the parent has left.
      Unless isolated it knows the cells loaded so far, and what has been free. */
  function ChildStart(g: Gas, p: DeriveParams): Gas
    requires g.remaining >= Due(g, p)
  {
    var left := g.remaining - Due(g, p);
    var limit := Min(p.gasLimit, left);
    Gas(Min(p.gasMax, left), limit, 0, limit, limit, if p.isolate then 0 else g.free, if p.isolate then {} else g.loaded)
  }

  /** The whole effect of a call: the parent pays for what was free if the child is
      isolated, and for what the child consumed, at most one more than its limit. Cells
      the child loaded are known to the parent unless the child was isolated. */
  ghost predicate CalledAs(g: Gas, p: DeriveParams, child: Gas, after: Gas)
    requires child.remaining <= child.base
  {
    && Spent(after) == Spent(g) + Due(g, p) + Min(Consumed(child), child.limit + 1)
    && after.free == child.free
    && after.loaded == (if p.isolate then g.loaded else child.loaded)
    && after.limit == g.limit && after.max == g.max && after.credit == g.credit && after.base == g.base
  }

  lemma StartIs(g: Gas, p: DeriveParams, cap: nat)
    requires GasOk(g, cap)
    ensures Derive(g, p).Derived? <==> Due(g, p) <= g.remaining
    ensures Due(g, p) <= g.remaining ==>
              && Derive(g, p).child == ChildStart(g, p)
              && Derive(g, p).parent == g.(remaining := g.remaining - Due(g, p),
                                           free := if p.isolate then 0 else g.free,
                                           loaded := if p.isolate then g.loaded else {})
  {
  }

  lemma RestoreIs(parent: Gas, child: Gas, isolate: bool, cap: nat)
    requires GasOk(parent, cap) && parent.remaining >= 0 && GasInv(child, parent.remaining)
    ensures Restore(parent, child, isolate) ==
            parent.(remaining := parent.remaining - Min(Consumed(child), child.limit + 1), free := child.free,
                    loaded := if isolate then parent.loaded else child.loaded)
  {
  }

  /** A call happens if and only if what was free can be paid for where it must; it then
      has exactly this effect, whatever the child does. */
  lemma CallMeaning(g: Gas, p: DeriveParams, body: seq<GasOp>, cap: nat)
    requires GasOk(g, cap)
    ensures var r := RunOp(g, OpChild(p, body));
            if g.remaining < Due(g, p) then !r.ok
            else
              var child := Run(ChildStart(g, p), body).gas;
              && child.remaining <= child.base && CalledAs(g, p, child, r.gas)
              && (r.ok <==> r.gas.remaining >= 0)
  {
    StartIs(g, p, cap);
    DeriveKeeps(g, p, cap);
    if Due(g, p) <= g.remaining {
      var parent := Derive(g, p).parent;
      RunKeeps(ChildStart(g, p), body, parent.remaining);
      RestoreIs(parent, Run(ChildStart(g, p), body).gas, p.isolate, cap);
    }
  }

  // ----- Loaded cells -----

  /** No program forgets a cell it has loaded, in children or not, and however it ends. */
  lemma {:induction false} NeverForgets(g: Gas, ops: seq<GasOp>, cap: nat)
    requires GasOk(g, cap)
    ensures g.loaded <= Run(g, ops).gas.loaded
    decreases ops, 0
  {
    if ops != [] {
      OpNeverForgets(g, ops[0], cap);
      RunOpKeeps(g, ops[0], cap);
      if RunOp(g, ops[0]).ok {
        NeverForgets(RunOp(g, ops[0]).gas, ops[1..], cap);
      }
    }
  }

  lemma {:induction false} OpNeverForgets(g: Gas, op: GasOp, cap: nat)
    requires GasOk(g, cap)
    ensures g.loaded <= RunOp(g, op).gas.loaded
    decreases op, 1
  {
    if op.OpChild? && Due(g, op.params) <= g.remaining {
      StartIs(g, op.params, cap);
      DeriveKeeps(g, op.params, cap);
      CallMeaning(g, op.params, op.body, cap);
      NeverForgets(ChildStart(g, op.params), op.body, Derive(g, op.params).parent.remaining);
    }
  }

  /** A cell that a machine has loaded before a call costs 25 in the child, and costs the
      full 100 in an isolated one, once; the parent pays for either. */
  lemma LoadInChild(g: Gas, p: DeriveParams, c: Cell, cap: nat)
    requires GasOk(g, cap) && c in g.loaded && g.free == 0
    requires p.gasLimit >= NEW_CELL_GAS && p.gasMax >= NEW_CELL_GAS && g.remaining >= NEW_CELL_GAS
    ensures var r := RunOp(g, OpChild(p, [OpLoad(c)]));
            && r.ok && Spent(r.gas) == Spent(g) + (if p.isolate then NEW_CELL_GAS else OLD_CELL_GAS)
            && r.gas.loaded == g.loaded
  {
    CallMeaning(g, p, [OpLoad(c)], cap);
    var start := ChildStart(g, p);
    assert RunOp(start, OpLoad(c)).ok;
    assert Run(start, [OpLoad(c)]).gas == LoadCell(start, c);
    assert start.loaded + {c} == if p.isolate then {c} else g.loaded;
  }
}
