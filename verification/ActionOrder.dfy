/** Which actions run, in which order, and how the phase ends because of them. */
module ActionOrder {
  import opened Util
  import opened Money
  import opened Cells
  import opened CellStat
  import opened Messages
  import opened ExecutorTypes
  import opened ActionSpec

  // ----- Reading the stored list -----

  /** The `i`-th cell from the outside. */
  function CellAt(c: Chain, i: nat): Chain {
    if i == 0 || !c.Link? then c else CellAt(c.prev, i - 1)
  }

  /** The number of links before the list ends in one way or another. */
  function Links(c: Chain): nat {
    if c.Link? then 1 + Links(c.prev) else 0
  }

  lemma {:induction false} LinksAreLinks(c: Chain, i: nat)
    ensures CellAt(c, i).Link? <==> i < Links(c)
    ensures i >= Links(c) ==> CellAt(c, i) == CellAt(c, Links(c))
  {
    if c.Link? && i > 0 {
      LinksAreLinks(c.prev, i - 1);
      assert CellAt(c, Links(c)) == CellAt(c.prev, Links(c.prev));
    } else if c.Link? {
      assert CellAt(c, 0) == c;
    }
  }

  /** The items of a list, the one stored innermost first. */
  ghost predicate InOrder(c: Chain, items: seq<RawAction>) {
    && |items| == Links(c)
    && forall i :: 0 <= i < |items| ==> CellAt(c, i).Link? && items[|items| - 1 - i] == CellAt(c, i).item
  }

  /** What becomes of a list of which `idx` links have already been followed. */
  ghost predicate UnpacksTo(c: Chain, idx: nat, u: Unpacked) {
    if idx + Links(c) > MAX_ACTIONS then u == BadList(TOO_MANY_ACTIONS, MAX_ACTIONS + 1)
    else if CellAt(c, Links(c)).EndOfList? then u.Items? && InOrder(c, u.items)
    else u == BadList(ACTION_LIST_INVALID, idx + Links(c))
  }

  lemma {:induction false} UnpackFrom(c: Chain, idx: nat)
    requires idx <= MAX_ACTIONS
    ensures UnpacksTo(c, idx, Unpack(c, idx))
  {
    if c.Link? {
      assert CellAt(c, Links(c)) == CellAt(c.prev, Links(c.prev));
      if idx + 1 <= MAX_ACTIONS {
        UnpackFrom(c.prev, idx + 1);
        var rest := Unpack(c.prev, idx + 1);
        if rest.Items? {
          AppendOuter(c, rest.items);
        }
      }
    }
  }

  lemma AppendOuter(c: Chain, inner: seq<RawAction>)
    requires c.Link? && InOrder(c.prev, inner)
    ensures InOrder(c, inner + [c.item])
  {
    var items := inner + [c.item];
    forall i | 0 <= i < |items| ensures CellAt(c, i).Link? && items[|items| - 1 - i] == CellAt(c, i).item {
      if i > 0 {
        assert CellAt(c, i) == CellAt(c.prev, i - 1);
        assert items[|items| - 1 - i] == inner[|inner| - 1 - (i - 1)];
      }
    }
  }

  /** A stored list is accepted if and only if it has at most 255 links and ends in an
      empty cell; then action `n - 1 - i` is the one `i` links from the outside. It is
      refused with the position of the offending cell, or for its length. */
  lemma UnpackIff(c: Chain)
    ensures Unpack(c, 0).Items? <==> Links(c) <= MAX_ACTIONS && CellAt(c, Links(c)).EndOfList?
    ensures Unpack(c, 0).Items? ==> InOrder(c, Unpack(c, 0).items)
    ensures Links(c) > MAX_ACTIONS ==> Unpack(c, 0) == BadList(TOO_MANY_ACTIONS, MAX_ACTIONS + 1)
    ensures Links(c) <= MAX_ACTIONS && !CellAt(c, Links(c)).EndOfList? ==>
              Unpack(c, 0) == BadList(ACTION_LIST_INVALID, Links(c))
  {
    UnpackFrom(c, 0);
  }

  // ----- Parsing -----

  /** An item that parses, or a send that asks for errors to be ignored. */
  predicate Acceptable(item: RawAction) {
    item.Parsed? || (item.UnparsedSend? && item.mode.ignoreError)
  }

  function Skippable(items: seq<RawAction>, n: nat): nat
    requires n <= |items|
  {
    if n == 0 then 0 else Skippable(items, n - 1) + if items[n - 1].Parsed? then 0 else 1
  }

  /** Item by item: what parses is kept, what may be skipped leaves a gap; the first
      other item refuses the list, asking for a bounce if it is a send that says so. */
  ghost predicate PlansAs(items: seq<RawAction>, p: Plan) {
    match p
    case Plan(actions, skipped) =>
      && |actions| == |items| && skipped == Skippable(items, |items|)
      && forall i :: 0 <= i < |items| ==>
           Acceptable(items[i]) && actions[i] == if items[i].Parsed? then Some(items[i].action) else None
    case BadPlan(n, bounce, skipped) =>
      && n < |items| && !Acceptable(items[n]) && skipped == Skippable(items, n)
      && (forall i :: 0 <= i < n ==> Acceptable(items[i]))
      && (bounce <==> items[n].UnparsedSend? && items[n].mode.bounceOnError)
  }

  lemma {:induction false} SkippablePrefix(items: seq<RawAction>, m: nat, n: nat)
    requires n <= m <= |items|
    ensures Skippable(items[..m], n) == Skippable(items, n)
  {
    if n > 0 {
      SkippablePrefix(items, m, n - 1);
    }
  }

  lemma {:induction false} PlanMeaning(items: seq<RawAction>)
    ensures PlansAs(items, MakePlan(items))
  {
    if items != [] {
      var n := |items| - 1;
      var init := items[..n];
      PlanMeaning(init);
      var p := MakePlan(init);
      assert forall i :: 0 <= i < n ==> init[i] == items[i];
      if p.BadPlan? {
        SkippablePrefix(items, n, p.arg);
      } else {
        SkippablePrefix(items, n, n);
      }
    }
  }

  // ----- Running -----

  lemma {:induction false} RunPrefix(act: (Ctx, OutAction, nat) -> Step, ctx: Ctx,
                                     a: seq<Option<OutAction>>, b: seq<Option<OutAction>>, n: nat)
    requires n <= |a|
    ensures RunAll(act, ctx, a + b, n) == RunAll(act, ctx, a, n)
  {
    if n > 0 {
      RunPrefix(act, ctx, a, b, n - 1);
      assert (a + b)[n - 1] == a[n - 1];
    }
  }

  lemma RunLast(act: (Ctx, OutAction, nat) -> Step, ctx: Ctx, actions: seq<Option<OutAction>>, last: OutAction)
    ensures var inner := RunAll(act, ctx, actions, |actions|);
            RunAll(act, ctx, actions + [Some(last)], |actions| + 1) ==
            if inner.result.Failed? then inner else act(inner.ctx, last, |actions|)
  {
    RunPrefix(act, ctx, actions, [Some(last)], |actions|);
    assert (actions + [Some(last)])[|actions|] == Some(last);
  }

  lemma {:induction false} UnpackShift(c: Chain, idx: nat)
    requires idx < MAX_ACTIONS && Unpack(c, idx + 1).Items?
    ensures Unpack(c, idx) == Unpack(c, idx + 1)
  {
    if c.Link? {
      UnpackShift(c.prev, idx + 1);
    }
  }

  /** The list as a phase runs it: all actions, from the given start. */
  function RunList(env: Env, ex: Exec, msg: Option<Currency>, st: StateInit, items: seq<RawAction>): Step
    requires MakePlan(items).Plan?
  {
    var plan := MakePlan(items);
    RunActions(env, StartCtx(ex, msg, st, plan.skipped), plan.actions)
  }

  lemma OneMore(items: seq<RawAction>, last: OutAction)
    requires MakePlan(items).Plan?
    ensures var plan := MakePlan(items);
            MakePlan(items + [Parsed(last)]) == Plan(plan.actions + [Some(last)], plan.skipped)
  {
    assert (items + [Parsed(last)])[..|items|] == items;
  }

  lemma ListLast(env: Env, ex: Exec, msg: Option<Currency>, st: StateInit, items: seq<RawAction>, last: OutAction)
    requires MakePlan(items).Plan?
    ensures MakePlan(items + [Parsed(last)]).Plan?
    ensures var inner := RunList(env, ex, msg, st, items);
            RunList(env, ex, msg, st, items + [Parsed(last)]) ==
            if inner.result.Failed? then inner else Runner(env)(inner.ctx, last, |items|)
  {
    OneMore(items, last);
    PlanMeaning(items);
    var plan := MakePlan(items);
    RunLast(Runner(env), StartCtx(ex, msg, st, plan.skipped), plan.actions, last);
  }

  /** How the phase ends after its actions. */
  function Ending(env: Env, ex: Exec): (Step, nat) -> Result<PhaseOut> {
    (s: Step, total: nat) => Conclude(env, ex, s, total)
  }

  lemma PhaseRunsList(env: Env, ex: Exec, msg: Option<Currency>, st: StateInit, chain: Chain, items: seq<RawAction>)
    requires Unpack(chain, 0) == Items(items) && MakePlan(items).Plan?
    ensures RunPhase(env, ex, msg, st, chain) == Ending(env, ex)(RunList(env, ex, msg, st, items), |items|)
  {
  }

  lemma OneMoreLink(prev: Chain, last: OutAction)
    requires Links(prev) < MAX_ACTIONS && Unpack(prev, 0).Items?
    ensures |Unpack(prev, 0).items| == Links(prev)
    ensures Unpack(Link(prev, Parsed(last)), 0) == Items(Unpack(prev, 0).items + [Parsed(last)])
  {
    UnpackFrom(prev, 0);
    UnpackFrom(prev, 1);
    UnpackShift(prev, 0);
  }

  /** The phase over `chain` runs `items`, and then `last` on the context they leave,
      unless one of them failed. */
  ghost predicate LastRunsLast(env: Env, ex: Exec, msg: Option<Currency>, st: StateInit, chain: Chain, items: seq<RawAction>, last: OutAction)
    requires MakePlan(items).Plan?
  {
    var inner := RunList(env, ex, msg, st, items);
    RunPhase(env, ex, msg, st, chain) ==
    Ending(env, ex)(if inner.result.Failed? then inner else Runner(env)(inner.ctx, last, |items|), |items| + 1)
  }

  lemma ThenLast(env: Env, ex: Exec, msg: Option<Currency>, st: StateInit, chain: Chain, items: seq<RawAction>, last: OutAction)
    requires MakePlan(items).Plan? && Unpack(chain, 0) == Items(items + [Parsed(last)])
    ensures LastRunsLast(env, ex, msg, st, chain, items, last)
  {
    ListLast(env, ex, msg, st, items, last);
    PhaseRunsList(env, ex, msg, st, chain, items + [Parsed(last)]);
  }

  /** The action stored outermost runs last, on the context all the others left, and
      only if none of them failed. */
  lemma OutermostRunsLast(env: Env, ex: Exec, msg: Option<Currency>, st: StateInit, prev: Chain, last: OutAction)
    requires Links(prev) < MAX_ACTIONS
    requires Unpack(prev, 0).Items? && MakePlan(Unpack(prev, 0).items).Plan?
    ensures LastRunsLast(env, ex, msg, st, Link(prev, Parsed(last)), Unpack(prev, 0).items, last)
  {
    OneMoreLink(prev, last);
    ThenLast(env, ex, msg, st, Link(prev, Parsed(last)), Unpack(prev, 0).items, last);
  }
}
