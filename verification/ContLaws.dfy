/** What calls, returns, captured continuations and loops promise. */
module ContinuationLaws {
  import opened Util
  import opened Cells
  import opened Values
  import opened GasAccounting
  import opened Continuations

  // ----- Registers -----

  datatype Register = RegCont(cont: Cont) | RegCell(cell: Cell) | RegTuple(items: seq<Value>)

  /** Register `c` followed by a number: continuations 0 to 3, cells 4 and 5, tuple 7. */
  function Reg(r: Regs, i: nat): Option<Register> {
    match i
    case 0 => AsCont(r.c0)
    case 1 => AsCont(r.c1)
    case 2 => AsCont(r.c2)
    case 3 => AsCont(r.c3)
    case 4 => if r.d0.Some? then Some(RegCell(r.d0.value)) else None
    case 5 => if r.d1.Some? then Some(RegCell(r.d1.value)) else None
    case 7 => if r.c7.Some? then Some(RegTuple(r.c7.value)) else None
    case _ => None
  }

  function AsCont(c: Option<Cont>): Option<Register> {
    if c.Some? then Some(RegCont(c.value)) else None
  }

  /** Register by register: what was saved comes back, everything else stays. */
  lemma MergeMeaning(cr: Regs, save: Regs, i: nat)
    ensures Reg(Merge(cr, save), i) == if Reg(save, i).Some? then Reg(save, i) else Reg(cr, i)
  {
  }

  /** Clearing empties exactly the registers about to be replaced. */
  lemma PreclearMeaning(cr: Regs, save: Regs, i: nat)
    ensures Reg(Preclear(cr, save), i) == if Reg(save, i).Some? then None else Reg(cr, i)
  {
  }

  // ----- Where a machine ends -----

  /** Jumping to a quit continuation ends the machine with the complement of its exit
      code: never with zero, which would mean to go on, unless the exit code is -1. */
  lemma QuitEnds(vm: Vm, n: int, count: nat)
    ensures var o := DoJumpTo(vm, Quit(n), count);
            o.Done? && o.vm == vm && o.code + n == -1 && (o.code == 0 <==> n == -1)
  {
  }

  /** The number that ends a machine in the default exception handler: the top of the
      stack if it is a small number, else the number of what is wrong with it. */
  function ExceptionNumber(stack: seq<Value>): nat {
    if stack == [] then 2
    else
      match stack[|stack| - 1]
      case Int(n) => if 0 <= n <= 0xffff then n else 5
      case NaN => 4
      case _ => 7
  }

  lemma ExcQuitEnds(vm: Vm, count: nat)
    ensures var o := DoJumpTo(vm, ExcQuit, count);
            && o.Done? && o.code + ExceptionNumber(vm.stack) == -1 && o.code < 0
            && o.vm == vm.(stack := if vm.stack == [] then [] else vm.stack[..|vm.stack| - 1])
  {
  }

  lemma LeavesQuit(vm: Vm, mode: SaveCr, copy: Option<nat>, nargs: Option<nat>)
    requires mode.c0 && ExtractCc(vm, mode, copy, nargs).Extracted?
    ensures ExtractCc(vm, mode, copy, nargs).vm.cr.c0 == Some(Quit(vm.quit0))
  {
  }

  lemma QuitReturns(later: Vm, n: int)
    requires later.cr.c0 == Some(Quit(n))
    ensures Ret(later).Done? && Ret(later).code + n == -1
  {
    QuitEnds(SetC0(later, Quit(later.quit0)), n, 0);
  }

  /** The c0 that capturing the continuation leaves behind ends the machine with the
      complement of the machine's own exit code. */
  lemma DefaultReturnEnds(vm: Vm, mode: SaveCr, copy: Option<nat>, nargs: Option<nat>, later: Vm)
    requires mode.c0 && ExtractCc(vm, mode, copy, nargs).Extracted?
    requires later.cr.c0 == ExtractCc(vm, mode, copy, nargs).vm.cr.c0
    ensures Ret(later).Done? && Ret(later).code + vm.quit0 == -1
  {
    LeavesQuit(vm, mode, copy, nargs);
    QuitReturns(later, vm.quit0);
  }

  /** Pushing puts the number on top of everything that was there, or overflows. */
  lemma PushIntMeaning(vm: Vm, n: int, next: Cont)
    ensures var o := DoJumpTo(vm, PushInt(n, next), 0);
            if |vm.stack| < MAX_DEPTH then o == Enter(vm.(stack := vm.stack + [Int(n)]), next, 1)
            else o == Fail(StackUnderflow(MAX_DEPTH), vm)
  {
  }

  /** Code for another codepage, or for none, cannot be entered. */
  lemma UnknownCodepage(vm: Vm, data: ControlData, code: CellSlice, count: nat)
    requires data.cp.None? || data.cp.value != 0
    ensures var o := DoJumpTo(vm, Ord(data, code), count);
            o.Fail? && o.error == InvalidOpcode && o.vm.stack == vm.stack && o.vm.gas == vm.gas
  {
  }

  // ----- What is popped -----

  /** What a loop takes for its condition: the top of the stack, which must be a number
      and means true if it is not zero. */
  lemma FlagMeaning(vm: Vm, s: seq<Value>, top: Value)
    requires vm.stack == s + [top]
    ensures PopBool(vm) ==
            match top
            case Int(n) => Got(n != 0, vm.(stack := s))
            case NaN => Bad(IntegerOverflow, vm.(stack := s))
            case _ => Bad(TypeCheck, vm.(stack := s))
  {
    assert Rest(vm.stack, 1) == s;
  }

  // ----- What nested jumps cost -----

  /** `n` pushes of zero around a continuation. */
  function Pushing(n: nat, c: Cont): Cont {
    if n == 0 then c else PushInt(0, Pushing(n - 1, c))
  }

  function Zeros(n: nat): seq<Value> {
    seq(n, i => Int(0))
  }

  /** A chain of `n` pushes puts `n` numbers on the stack and costs one unit for each
      jump after the eighth; the code behind it is entered with all of them. */
  lemma {:induction false} NestedJumpsCost(vm: Vm, n: nat, data: ControlData, code: CellSlice, count: nat)
    requires data.cp == Some(0) && data.stack.None? && data.nargs.None?
    requires |vm.stack| + n <= MAX_DEPTH && n + count <= I64_MAX
    requires 0 <= vm.gas.remaining && Surplus(count + n) - Surplus(count) <= vm.gas.remaining
    ensures var o := DoJumpTo(vm, Pushing(n, Ord(data, code)), count);
            && o.Done? && o.code == 0
            && o.vm.stack == vm.stack + Zeros(n) && o.vm.code == code
            && o.vm.gas == vm.gas.(remaining := vm.gas.remaining - (Surplus(count + n) - Surplus(count)))
    decreases n
  {
    var c := Ord(data, code);
    if n == 0 {
      assert vm.stack + Zeros(0) == vm.stack;
    } else {
      var pushed := vm.(stack := vm.stack + [Int(0)]);
      var cost := Surplus(count + 1) - Surplus(count);
      var next := pushed.(gas := vm.gas.(remaining := vm.gas.remaining - cost));
      PushStep(vm, Pushing(n - 1, c), count);
      NestedJumpsCost(next, n - 1, data, code, count + 1);
      assert vm.stack + [Int(0)] + Zeros(n - 1) == vm.stack + Zeros(n);
    }
  }

  /** Jumps beyond the free ones. */
  function Surplus(jumps: nat): nat {
    if jumps > 8 then jumps - 8 else 0
  }

  lemma PushStep(vm: Vm, next: Cont, count: nat)
    requires |vm.stack| < MAX_DEPTH && !NeedsAdjust(next)
    requires 0 <= vm.gas.remaining && Surplus(count + 1) - Surplus(count) <= vm.gas.remaining
    ensures var cost := Surplus(count + 1) - Surplus(count);
            DoJumpTo(vm, PushInt(0, next), count) ==
            DoJumpTo(vm.(stack := vm.stack + [Int(0)], gas := vm.gas.(remaining := vm.gas.remaining - cost)), next, count + 1)
  {
    var pushed := vm.(stack := vm.stack + [Int(0)]);
    if count + 1 > 8 {
      assert Pay(pushed, 1) == Done(0, pushed.(gas := vm.gas.(remaining := vm.gas.remaining - 1)));
    } else {
      assert vm.gas.(remaining := vm.gas.remaining) == vm.gas;
    }
  }

  // ----- Handing over arguments -----

  predicate Affords(g: Gas, amount: nat) {
    Use(g, amount).remaining >= 0
  }

  /** What a jump charges for the stack it builds. */
  function HandOverCost(kept: seq<Value>, taken: nat, depth: nat): nat {
    if kept != [] || taken < depth then StackGas(|kept| + taken) else 0
  }

  /** The new stack is the closure followed by the top items, in order. */
  function HandedOver(vm: Vm, data: ControlData, n: nat): Vm
    requires n <= |vm.stack|
  {
    var kept := Closure(data);
    vm.(stack := kept + Top(vm.stack, n), gas := Use(vm.gas, HandOverCost(kept, n, |vm.stack|)),
        cr := Preclear(vm.cr, data.save))
  }

  /** A jump succeeds exactly when the stack holds the arguments and the gas suffices. */
  lemma AdjustMeaning(vm: Vm, c: Cont, pass: Option<nat>)
    requires HasData(c) && vm.gas.remaining >= 0
    ensures var o := Adjust(vm, c, pass);
            var short := Underflows(c.data, pass, |vm.stack|);
            if short.Some? then o == Fail(StackUnderflow(short.value), vm)
            else
              var n := Taken(c.data, pass, |vm.stack|);
              if Affords(vm.gas, HandOverCost(Closure(c.data), n, |vm.stack|)) then
                o == Done(0, HandedOver(vm, c.data, n))
              else o.Fail? && o.error.OutOfGas?
  {
    if Underflows(c.data, pass, |vm.stack|).None? {
      var n := Taken(c.data, pass, |vm.stack|);
      assert n <= |vm.stack|;
      if Closure(c.data) == [] {
        assert [] + Top(vm.stack, n) == Top(vm.stack, n);
        if n == |vm.stack| {
          assert Top(vm.stack, n) == vm.stack;
          assert Use(vm.gas, 0) == vm.gas;
        }
      }
    }
  }

  lemma PreclearThenMerge(cr: Regs, save: Regs)
    ensures Merge(Preclear(cr, save), save) == Merge(cr, save)
  {
  }

  /** How a stored continuation goes on with the machine it finds. */
  predicate ResumesAs(o: Outcome, later: Vm, data: ControlData, code: CellSlice) {
    var depth := |later.stack|;
    var n := if data.nargs.Some? then data.nargs.value else depth;
    var kept := Closure(data);
    if n > depth then o == Fail(StackUnderflow(n), later)
    else
      var cost := HandOverCost(kept, n, depth);
      && (!Affords(later.gas, cost) ==> o.Fail? && o.error.OutOfGas?)
      && (Affords(later.gas, cost) ==>
            o == Done(0, later.(code := code, cp := OrZero(data.cp), stack := kept + Top(later.stack, n),
                                cr := Merge(later.cr, data.save), gas := Use(later.gas, cost))))
  }

  lemma OrdJump(v: Vm, data: ControlData, code: CellSlice)
    requires data.cp.Some? && KnownCodepage(data.cp.value)
    ensures DoJumpTo(v, Ord(data, code), 0) ==
            Done(0, v.(code := code, cp := data.cp.value, cr := Merge(v.cr, data.save)))
  {
  }

  lemma JumpAdjusted(vm: Vm, c: Cont)
    requires NeedsAdjust(c)
    ensures var o := Adjust(vm, c, None);
            Jump(vm, c) == if o.Fail? then o else DoJumpTo(o.vm, c, 0)
  {
  }

  lemma ResumeLaw(later: Vm, data: ControlData, code: CellSlice)
    requires later.gas.remaining >= 0
    requires data.cp.Some? && KnownCodepage(data.cp.value) && data.stack.Some?
    ensures ResumesAs(Jump(later, Ord(data, code)), later, data, code)
  {
    var c := Ord(data, code);
    var depth := |later.stack|;
    JumpAdjusted(later, c);
    AdjustMeaning(later, c, None);
    var n := Taken(data, None, depth);
    if n <= depth && Affords(later.gas, HandOverCost(Closure(data), n, depth)) {
      var v := HandedOver(later, data, n);
      assert Adjust(later, c, None) == Done(0, v);
      OrdJump(v, data, code);
      PreclearThenMerge(later.cr, data.save);
    }
  }

  // ----- Calls -----

  /** What the caller keeps while the callee works. */
  function Saved(vm: Vm, p: nat, r: Option<nat>): ControlData
    requires p <= |vm.stack|
  {
    ControlData(r, Some(Rest(vm.stack, p)), NO_REGS.(c0 := vm.cr.c0), Some(vm.cp))
  }

  function CalleeClosure(c: Cont): seq<Value> {
    if HasData(c) then Closure(c.data) else []
  }

  /** How many of the passed values the callee takes: its own count, if it has one. */
  function CalleeTakes(c: Cont, p: nat): nat {
    if HasData(c) && c.data.nargs.Some? then c.data.nargs.value else p
  }

  /** The state in which a continuation is followed when it is called with `p` values:
      its closure, then the caller's topmost, and the way back in c0. */
  function Callee(vm: Vm, c: Cont, p: nat, r: Option<nat>): Vm
    requires CalleeTakes(c, p) <= p <= |vm.stack|
  {
    var stack := CalleeClosure(c) + Top(vm.stack, CalleeTakes(c, p));
    var cr := if HasData(c) then Preclear(vm.cr, c.data.save) else vm.cr;
    Vm(EMPTY_CODE, stack, cr.(c0 := Some(Ord(Saved(vm, p, r), vm.code))), vm.cp,
       Use(vm.gas, StackGas(|stack|)), vm.quit0, vm.quit1)
  }

  /** A call of any continuation without a saved c0 fails for want of values or gas, or
      follows it from that state. */
  lemma CallEnters(vm: Vm, c: Cont, p: nat, r: Option<nat>)
    requires !HasC0(c)
    ensures var o := CallExt(vm, c, Some(p), r);
            if p > |vm.stack| || CalleeTakes(c, p) > p then o.Fail? && o.error.StackUnderflow? && o.vm == vm
            else if !Affords(vm.gas, StackGas(|CalleeClosure(c)| + CalleeTakes(c, p))) then o.Fail? && o.error.OutOfGas?
            else o == DoJumpTo(Callee(vm, c, p, r), c, 0)
  {
    if HasData(c) {
      PassWithData(vm, c, p);
    } else {
      PassPlain(vm, c, p);
    }
    var passed := PassArgs(vm, c, Some(p));
    if passed.Passed? {
      assert CallExt(vm, c, Some(p), r) == DoJumpTo(Callee(vm, c, p, r), c, 0);
    }
  }

  /** What the caller keeps, as it is put aside. */
  function Keeps(vm: Vm, cr: Regs, p: nat, cost: nat): Vm
    requires p <= |vm.stack|
  {
    vm.(stack := Rest(vm.stack, p), cr := cr, gas := Use(vm.gas, cost))
  }

  lemma PassWithData(vm: Vm, c: Cont, p: nat)
    requires HasData(c)
    ensures var passed := PassArgs(vm, c, Some(p));
            var n := CalleeTakes(c, p);
            var cost := StackGas(|CalleeClosure(c)| + n);
            if p > |vm.stack| || n > p then passed.Broke? && passed.error.StackUnderflow? && passed.vm == vm
            else if !Affords(vm.gas, cost) then passed.Broke? && passed.error.OutOfGas?
            else passed == Passed(CalleeClosure(c) + Top(vm.stack, n),
                                  Keeps(vm, Preclear(vm.cr, c.data.save).(c0 := None), p, cost))
  {
  }

  lemma PassPlain(vm: Vm, c: Cont, p: nat)
    requires !HasData(c)
    ensures var passed := PassArgs(vm, c, Some(p));
            var cost := StackGas(p);
            if p > |vm.stack| then passed.Broke? && passed.error.StackUnderflow? && passed.vm == vm
            else if !Affords(vm.gas, cost) then passed.Broke? && passed.error.OutOfGas?
            else passed == Passed([] + Top(vm.stack, p), Keeps(vm, vm.cr, p, cost))
  {
    if p <= |vm.stack| {
      assert [] + Top(vm.stack, p) == Top(vm.stack, p);
    }
  }

  /** A return through the c0 of a callee, however much later, goes on with the caller's
      code, its old c0, and its remaining stack followed by the top `r` values of the
      callee, or all of them. */
  lemma ReturnLaw(vm: Vm, c: Cont, p: nat, r: Option<nat>, later: Vm)
    requires CalleeTakes(c, p) <= p <= |vm.stack| && KnownCodepage(vm.cp)
    requires later.cr.c0 == Callee(vm, c, p, r).cr.c0 && later.gas.remaining >= 0
    ensures ResumesAs(Ret(later), SetC0(later, Quit(later.quit0)), Saved(vm, p, r), vm.code)
  {
    ResumeLaw(SetC0(later, Quit(later.quit0)), Saved(vm, p, r), vm.code);
    assert Ret(later) == Jump(SetC0(later, Quit(later.quit0)), Ord(Saved(vm, p, r), vm.code));
  }

  /** For every continuation with no saved c0, of any kind: it starts with its closure
      followed by the caller's top `p` values (as many of them as it counts, if it does),
      and a later return through the c0 it was given restores the caller. */
  lemma CallReturnLaw(vm: Vm, c: Cont, p: nat, r: Option<nat>)
    requires !HasC0(c) && KnownCodepage(vm.cp)
    requires CalleeTakes(c, p) <= p <= |vm.stack|
    requires Affords(vm.gas, StackGas(|CalleeClosure(c)| + CalleeTakes(c, p)))
    ensures var callee := Callee(vm, c, p, r);
            && CallExt(vm, c, Some(p), r) == DoJumpTo(callee, c, 0)
            && callee.stack == CalleeClosure(c) + Top(vm.stack, CalleeTakes(c, p))
            && (forall later: Vm :: later.cr.c0 == callee.cr.c0 && later.gas.remaining >= 0 ==>
                  ResumesAs(Ret(later), SetC0(later, Quit(later.quit0)), Saved(vm, p, r), vm.code))
  {
    CallEnters(vm, c, p, r);
    forall later: Vm | later.cr.c0 == Callee(vm, c, p, r).cr.c0 && later.gas.remaining >= 0
      ensures ResumesAs(Ret(later), SetC0(later, Quit(later.quit0)), Saved(vm, p, r), vm.code)
    {
      ReturnLaw(vm, c, p, r, later);
    }
  }

  /** Code, and any chain of envelopes around it, really starts with that c0, and plain
      code with exactly that stack. */
  lemma CalleeStarts(vm: Vm, c: Cont, p: nat, r: Option<nat>)
    requires KeepsC0(c) && CalleeTakes(c, p) <= p <= |vm.stack|
    ensures DoJumpTo(Callee(vm, c, p, r), c, 0).vm.cr.c0 == Callee(vm, c, p, r).cr.c0
    ensures c.Ord? && c.data.cp.Some? && KnownCodepage(c.data.cp.value) ==>
              var o := DoJumpTo(Callee(vm, c, p, r), c, 0);
              && o.Done? && o.code == 0 && o.vm.code == c.code
              && o.vm.stack == Callee(vm, c, p, r).stack && o.vm.gas == Callee(vm, c, p, r).gas
  {
    EntersWithC0(Callee(vm, c, p, r), c, 0);
  }

  /** Without a number of values to pass, everything goes to the callee: its closure,
      then the whole stack; the caller keeps nothing. */
  lemma CallPassesAll(vm: Vm, c: Cont, r: Option<nat>)
    requires !HasC0(c) && vm.gas.remaining >= 0
    requires HasData(c) ==> OrZero(c.data.nargs) <= |vm.stack|
    ensures var o := CallExt(vm, c, None, r);
            var stack := CalleeClosure(c) + vm.stack;
            var cost := if CalleeClosure(c) == [] then 0 else StackGas(|stack|);
            var cr := if HasData(c) then Preclear(vm.cr, c.data.save) else vm.cr;
            if !Affords(vm.gas, cost) then o.Fail? && o.error.OutOfGas?
            else o == DoJumpTo(Vm(EMPTY_CODE, stack, cr.(c0 := Some(Ord(Saved(vm, |vm.stack|, r), vm.code))),
                                  vm.cp, Use(vm.gas, cost), vm.quit0, vm.quit1), c, 0)
  {
    assert Rest(vm.stack, |vm.stack|) == [];
    assert [] + vm.stack == vm.stack;
    assert Use(vm.gas, 0) == vm.gas;
  }

  /** A continuation with its own c0 is not called but jumped to. */
  lemma CallWithC0(vm: Vm, c: Cont, pass: Option<nat>, r: Option<nat>)
    requires HasC0(c)
    ensures Call(vm, c) == Jump(vm, c)
    ensures CallExt(vm, c, pass, r) == JumpExt(vm, c, pass)
  {
  }

  /** A return with a number of values hands over that many, unless the caller counts
      them itself, and needs at least as many as the caller counts. */
  lemma CountedReturnLaw(later: Vm, k: nat, data: ControlData, code: CellSlice)
    requires later.cr.c0 == Some(Ord(data, code)) && later.gas.remaining >= 0
    requires data.cp == Some(0) && data.stack.Some?
    ensures var o := RetExt(later, Some(k));
            var n := if data.nargs.Some? then data.nargs.value else k;
            var left := SetC0(later, Quit(later.quit0));
            if k > |later.stack| || n > k then o.Fail? && o.error.StackUnderflow? && o.vm == left
            else
              var cost := HandOverCost(Closure(data), n, |later.stack|);
              if !Affords(later.gas, cost) then o.Fail? && o.error.OutOfGas?
              else o == Done(0, left.(code := code, cp := 0, stack := Closure(data) + Top(later.stack, n),
                                      cr := Merge(left.cr, data.save), gas := Use(later.gas, cost)))
  {
    var left := SetC0(later, Quit(later.quit0));
    var c := Ord(data, code);
    AdjustMeaning(left, c, Some(k));
    var o := Adjust(left, c, Some(k));
    if o.Done? {
      OrdJump(o.vm, data, code);
      PreclearThenMerge(left.cr, data.save);
    }
  }

  /** A plain call shares one stack between caller and callee. */
  lemma PlainCallReturnLaw(vm: Vm, c: Cont)
    requires c.Ord? && !HasC0(c) && !NeedsAdjust(c)
    requires c.data.cp.Some? && KnownCodepage(c.data.cp.value) && KnownCodepage(vm.cp)
    ensures Call(vm, c).Done?
    ensures var callee := Call(vm, c).vm;
            && Call(vm, c).code == 0 && callee.code == c.code && callee.stack == vm.stack && callee.gas == vm.gas
            && (forall later: Vm :: later.cr.c0 == callee.cr.c0 ==>
                  Ret(later) == Done(0, later.(code := vm.code, cp := vm.cp,
                                               cr := later.cr.(c0 := Or(vm.cr.c0, Some(Quit(later.quit0)))))))
  {
  }

  // ----- The current continuation -----

  /** What coming back to a captured continuation does to the registers. */
  function Recalled(mode: SaveCr, captured: Regs, now: Regs): Regs {
    now.(c0 := if mode.c0 then Or(captured.c0, now.c0) else now.c0,
         c1 := if mode.c1 then Or(captured.c1, now.c1) else now.c1,
         c2 := if mode.c2 then Or(captured.c2, now.c2) else now.c2)
  }

  predicate Captured(vm: Vm, mode: SaveCr, n: nat, nargs: Option<nat>, cc: Cont, left: Vm) {
    && cc.Ord? && cc.code == vm.code
    && cc.data.cp == Some(vm.cp) && cc.data.nargs == nargs && cc.data.stack.Some?
    && cc.data.stack.value + left.stack == vm.stack
    && |left.stack| == n
    && Moved(mode.c0, vm.cr.c0, cc.data.save.c0, left.cr.c0, Some(Quit(vm.quit0)))
    && Moved(mode.c1, vm.cr.c1, cc.data.save.c1, left.cr.c1, Some(Quit(vm.quit1)))
    && Moved(mode.c2, vm.cr.c2, cc.data.save.c2, left.cr.c2, None)
    && left.cr.c3 == vm.cr.c3 && left.cr.d0 == vm.cr.d0 && left.cr.d1 == vm.cr.d1 && left.cr.c7 == vm.cr.c7
  }

  /** A saved register leaves its default behind; the others stay where they are. */
  predicate Moved(wanted: bool, before: Option<Cont>, saved: Option<Cont>, left: Option<Cont>, default: Option<Cont>) {
    if wanted then saved == before && left == default else saved.None? && left == before
  }

  /** Capturing the rest of the program splits the stack in two, in order, saves the
      registers asked for, and fails only for want of items or gas. */
  lemma CaptureLaw(vm: Vm, mode: SaveCr, copy: Option<nat>, nargs: Option<nat>)
    ensures var e := ExtractCc(vm, mode, copy, nargs);
            var n := if copy.Some? then copy.value else |vm.stack|;
            if n > |vm.stack| then e == NotExtracted(StackUnderflow(n), vm)
            else if 0 < n < |vm.stack| && !Affords(vm.gas, StackGas(n)) then
              e.NotExtracted? && e.error.OutOfGas?
            else e.Extracted? && Captured(vm, mode, n, nargs, e.cc, e.vm)
  {
  }

  /** Jumping to it later, from any state, brings back the code, the saved registers
      and the saved items below the handed-over ones. */
  lemma ComeBackLaw(vm: Vm, mode: SaveCr, copy: Option<nat>, nargs: Option<nat>, later: Vm)
    requires KnownCodepage(vm.cp) && later.gas.remaining >= 0
    requires ExtractCc(vm, mode, copy, nargs).Extracted?
    ensures var cc := ExtractCc(vm, mode, copy, nargs).cc;
            && cc.Ord?
            && ResumesAs(Jump(later, cc), later, cc.data, vm.code)
            && Merge(later.cr, cc.data.save) == Recalled(mode, vm.cr, later.cr)
  {
    var cc := ExtractCc(vm, mode, copy, nargs).cc;
    ResumeLaw(later, cc.data, vm.code);
  }

  // ----- Loops -----

  /** Continuations that leave the c0 they were entered with in place. */
  predicate KeepsC0(c: Cont) {
    match c
    case Ord(data, _) => data.save.c0.None?
    case ArgExt(data, ext) => data.save.c0.None? && KeepsC0(ext)
    case PushInt(_, next) => KeepsC0(next)
    case _ => false
  }

  /** Such a piece of code starts with the c0 the loop gave it. */
  lemma {:induction false} EntersWithC0(vm: Vm, c: Cont, count: nat)
    requires KeepsC0(c)
    ensures Enter(vm, c, count).vm.cr.c0 == vm.cr.c0
    ensures DoJumpTo(vm, c, count).vm.cr.c0 == vm.cr.c0
    decreases Nesting(c)
  {
    var adjusted := if NeedsAdjust(c) then Adjust(vm, c, None) else Done(0, vm);
    assert adjusted.vm.cr.c0 == vm.cr.c0;
    FollowsWithC0(adjusted.vm, c, count);
    FollowsWithC0(vm, c, count);
  }

  lemma {:induction false} FollowsWithC0(vm: Vm, c: Cont, count: nat)
    requires KeepsC0(c)
    ensures DoJumpTo(vm, c, count).vm.cr.c0 == vm.cr.c0
    decreases Nesting(c), 0
  {
    var j := JumpOnce(vm, c);
    assert j.vm.cr.c0 == vm.cr.c0;
    if j.To? {
      var paid := if count + 1 > FREE_NESTED_JUMPS then Pay(j.vm, 1) else Done(0, j.vm);
      if paid.Done? {
        EntersWithC0(paid.vm, j.next, count + 1);
      }
    }
  }

  /** What the code does between entering the `i`-th piece and its return, if it
      returns at all: the state it returns in. */
  type Behaviour = (nat, Vm) -> Option<Vm>

  /** Runs a piece that has been entered. */
  function RunPiece(entered: Outcome, run: Behaviour, i: nat): Option<Vm> {
    if entered.Done? && entered.code == 0 then run(i, entered.vm) else None
  }

  /** The machine after `k` returns. */
  function Drive(o: Outcome, run: Behaviour, k: nat): Option<Outcome> {
    if k == 0 then Some(o)
    else
      var before := Drive(o, run, k - 1);
      if before.None? then None
      else
        var w := RunPiece(before.value, run, k - 1);
        if w.Some? then Some(Ret(w.value)) else None
  }

  /** What a loop enters, and whether control is then still inside the loop. */
  datatype Turn = Turn(entered: Outcome, inside: bool)

  /** A loop as its unrolling: the first turn, and the turn that follows when the
      piece entered at turn `i` came back. */
  datatype Unrolling = Unrolling(first: Turn, next: (nat, Vm) -> Turn)

  /** The `k`-th turn, unless the loop was left before or some piece did not return. */
  function NthTurn(u: Unrolling, run: Behaviour, k: nat): Option<Turn> {
    if k == 0 then Some(u.first)
    else
      var t := NthTurn(u, run, k - 1);
      if t.None? || !t.value.inside then None
      else
        var w := RunPiece(t.value.entered, run, k - 1);
        if w.Some? then Some(u.next(k - 1, w.value)) else None
  }

  /** Returning from piece `i` does what the unrolling says. */
  ghost predicate Follows(u: Unrolling, run: Behaviour, k: nat) {
    forall i: nat, v: Vm {:trigger run(i, v)} :: i < k && run(i, v).Some? ==>
      Ret(run(i, v).value) == u.next(i, run(i, v).value).entered
  }

  lemma {:induction false} MachineFollows(u: Unrolling, run: Behaviour, k: nat)
    requires Follows(u, run, k) && NthTurn(u, run, k).Some?
    ensures Drive(u.first.entered, run, k) == Some(NthTurn(u, run, k).value.entered)
  {
    if k > 0 {
      MachineFollows(u, run, k - 1);
    }
  }

  function Leave(vm: Vm): Vm {
    SetC0(vm, Quit(vm.quit0))
  }

  /** The code of every piece returns through the c0 the loop gave it. */
  ghost predicate ReturnsThrough(run: Behaviour, given: nat -> Cont, k: nat) {
    forall i: nat, v: Vm {:trigger run(i, v)} :: i < k && run(i, v).Some? ==>
      run(i, v).value.cr.c0 == Some(given(i))
  }

  // ----- repeat -----

  /** Entries 0 to n-1 are the body, each in the state the one before left; entry n is
      `after`. */
  function RepeatUnrolled(vm: Vm, body: Cont, after: Cont, n: nat): Unrolling {
    Unrolling(
      if n == 0 then Turn(Enter(vm, after, 0), false)
      else Turn(Enter(SetC0(vm, RepeatCont(n - 1, body, after)), body, 1), true),
      (i: nat, v: Vm) =>
        if i + 1 < n then Turn(Enter(SetC0(v, RepeatCont(n - i - 2, body, after)), body, 1), true)
        else Turn(Enter(Leave(v), after, 1), false))
  }

  function RepeatGiven(body: Cont, after: Cont, n: nat): nat -> Cont {
    (i: nat) => RepeatCont(if i < n then n - 1 - i else 0, body, after)
  }

  /** Exactly `n` bodies come before `after`. */
  lemma {:induction false} RepeatCounts(vm: Vm, body: Cont, after: Cont, n: nat, run: Behaviour, k: nat)
    ensures var t := NthTurn(RepeatUnrolled(vm, body, after, n), run, k);
            t.Some? ==> k <= n && (t.value.inside <==> k < n)
  {
    if k > 0 {
      RepeatCounts(vm, body, after, n, run, k - 1);
    }
  }

  lemma RepeatLaw(vm: Vm, body: Cont, after: Cont, n: nat, run: Behaviour, k: nat)
    requires !HasC0(body) && ReturnsThrough(run, RepeatGiven(body, after, n), n)
    requires NthTurn(RepeatUnrolled(vm, body, after, n), run, k).Some?
    ensures k <= n
    ensures Drive(RepeatLoop(vm, body, after, n), run, k)
         == Some(NthTurn(RepeatUnrolled(vm, body, after, n), run, k).value.entered)
  {
    var u := RepeatUnrolled(vm, body, after, n);
    RepeatCounts(vm, body, after, n, run, k);
    RepeatStarts(vm, body, after, n);
    forall i: nat, v: Vm | i < k && run(i, v).Some?
      ensures Ret(run(i, v).value) == u.next(i, run(i, v).value).entered
    {
      RepeatReturns(run(i, v).value, vm, body, after, n, i);
    }
    MachineFollows(u, run, k);
  }

  lemma RepeatStarts(vm: Vm, body: Cont, after: Cont, n: nat)
    requires !HasC0(body)
    ensures RepeatLoop(vm, body, after, n) == RepeatUnrolled(vm, body, after, n).first.entered
  {
  }

  lemma RepeatReturns(w: Vm, vm: Vm, body: Cont, after: Cont, n: nat, i: nat)
    requires !HasC0(body) && i < n && w.cr.c0 == Some(RepeatCont(n - 1 - i, body, after))
    ensures Ret(w) == RepeatUnrolled(vm, body, after, n).next(i, w).entered
  {
    var rest := n - 1 - i;
    RepeatJump(Leave(w), body, after, rest);
    assert Ret(w) == Jump(Leave(w), RepeatCont(rest, body, after));
    if rest > 0 {
      assert SetC0(Leave(w), RepeatCont(rest - 1, body, after)) == SetC0(w, RepeatCont(rest - 1, body, after));
    }
  }

  lemma RepeatJump(v: Vm, body: Cont, after: Cont, rest: nat)
    requires !HasC0(body)
    ensures Jump(v, RepeatCont(rest, body, after)) ==
            if rest == 0 then Enter(v, after, 1) else Enter(SetC0(v, RepeatCont(rest - 1, body, after)), body, 1)
  {
  }

  // ----- until -----

  /** The body again after every false it leaves; the first true leads to `after`. */
  function UntilUnrolled(vm: Vm, body: Cont, after: Cont): Unrolling {
    Unrolling(
      Turn(Enter(SetC0(vm, UntilCont(body, after)), body, 0), true),
      (i: nat, v: Vm) => UntilNext(v, body, after))
  }

  function UntilNext(v: Vm, body: Cont, after: Cont): Turn {
    match PopBool(Leave(v))
    case Bad(e, w) => Turn(Fail(e, w), false)
    case Got(true, w) => Turn(Enter(w, after, 1), false)
    case Got(false, w) => Turn(Enter(SetC0(w, UntilCont(body, after)), body, 1), true)
  }

  function UntilGiven(body: Cont, after: Cont): nat -> Cont {
    (i: nat) => UntilCont(body, after)
  }

  lemma UntilLaw(vm: Vm, body: Cont, after: Cont, run: Behaviour, k: nat)
    requires !HasC0(body) && ReturnsThrough(run, UntilGiven(body, after), k)
    requires NthTurn(UntilUnrolled(vm, body, after), run, k).Some?
    ensures Drive(UntilLoop(vm, body, after), run, k)
         == Some(NthTurn(UntilUnrolled(vm, body, after), run, k).value.entered)
  {
    var u := UntilUnrolled(vm, body, after);
    UntilStarts(vm, body, after);
    forall i: nat, v: Vm | i < k && run(i, v).Some?
      ensures Ret(run(i, v).value) == u.next(i, run(i, v).value).entered
    {
      UntilReturns(run(i, v).value, body, after);
    }
    MachineFollows(u, run, k);
  }

  lemma UntilStarts(vm: Vm, body: Cont, after: Cont)
    requires !HasC0(body)
    ensures UntilLoop(vm, body, after) == UntilUnrolled(vm, body, after).first.entered
  {
  }

  lemma UntilReturns(w: Vm, body: Cont, after: Cont)
    requires !HasC0(body) && w.cr.c0 == Some(UntilCont(body, after))
    ensures Ret(w) == UntilNext(w, body, after).entered
  {
    assert Ret(w) == Jump(Leave(w), UntilCont(body, after));
  }

  // ----- while -----

  /** Turns 0, 2, 4, ... are the condition. If it leaves true the next turn is the body;
      if false, `after` and the end of the loop. */
  function WhileUnrolled(vm: Vm, cond: Cont, body: Cont, after: Cont): Unrolling {
    Unrolling(
      Turn(Enter(SetC0(vm, WhileCont(true, cond, body, after)), cond, 0), true),
      (i: nat, v: Vm) =>
        if i % 2 == 1 then Turn(Enter(SetC0(v, WhileCont(true, cond, body, after)), cond, 1), true)
        else WhileDecision(v, cond, body, after))
  }

  function WhileDecision(v: Vm, cond: Cont, body: Cont, after: Cont): Turn {
    match PopBool(Leave(v))
    case Bad(e, w) => Turn(Fail(e, w), false)
    case Got(false, w) => Turn(Enter(w, after, 1), false)
    case Got(true, w) => Turn(Enter(SetC0(w, WhileCont(false, cond, body, after)), body, 1), true)
  }

  function WhileGiven(cond: Cont, body: Cont, after: Cont): nat -> Cont {
    (i: nat) => WhileCont(i % 2 == 0, cond, body, after)
  }

  lemma WhileLaw(vm: Vm, cond: Cont, body: Cont, after: Cont, run: Behaviour, k: nat)
    requires !HasC0(cond) && !HasC0(body)
    requires ReturnsThrough(run, WhileGiven(cond, body, after), k)
    requires NthTurn(WhileUnrolled(vm, cond, body, after), run, k).Some?
    ensures Drive(WhileLoop(vm, cond, body, after), run, k)
         == Some(NthTurn(WhileUnrolled(vm, cond, body, after), run, k).value.entered)
  {
    var u := WhileUnrolled(vm, cond, body, after);
    WhileStarts(vm, cond, body, after);
    forall i: nat, v: Vm | i < k && run(i, v).Some?
      ensures Ret(run(i, v).value) == u.next(i, run(i, v).value).entered
    {
      if i % 2 == 1 {
        BodyReturns(run(i, v).value, cond, body, after);
      } else {
        ConditionReturns(run(i, v).value, cond, body, after);
      }
    }
    MachineFollows(u, run, k);
  }

  lemma WhileStarts(vm: Vm, cond: Cont, body: Cont, after: Cont)
    requires !HasC0(cond)
    ensures WhileLoop(vm, cond, body, after) == WhileUnrolled(vm, cond, body, after).first.entered
  {
  }

  lemma ConditionReturns(w: Vm, cond: Cont, body: Cont, after: Cont)
    requires !HasC0(body) && w.cr.c0 == Some(WhileCont(true, cond, body, after))
    ensures Ret(w) == WhileDecision(w, cond, body, after).entered
  {
    assert Ret(w) == Jump(Leave(w), WhileCont(true, cond, body, after));
  }

  lemma BodyReturns(w: Vm, cond: Cont, body: Cont, after: Cont)
    requires !HasC0(cond) && w.cr.c0 == Some(WhileCont(false, cond, body, after))
    ensures Ret(w) == Enter(SetC0(w, WhileCont(true, cond, body, after)), cond, 1)
  {
    assert Ret(w) == Jump(Leave(w), WhileCont(false, cond, body, after));
    assert SetC0(Leave(w), WhileCont(true, cond, body, after)) == SetC0(w, WhileCont(true, cond, body, after));
  }

  // ----- again -----

  /** Every turn is the body. */
  function AgainUnrolled(vm: Vm, body: Cont): Unrolling {
    Unrolling(
      Turn(Enter(SetC0(vm, AgainCont(body)), body, 1), true),
      (i: nat, v: Vm) => Turn(Enter(SetC0(v, AgainCont(body)), body, 1), true))
  }

  lemma AgainLaw(vm: Vm, body: Cont, run: Behaviour, k: nat)
    requires !HasC0(body) && ReturnsThrough(run, (i: nat) => AgainCont(body), k)
    requires NthTurn(AgainUnrolled(vm, body), run, k).Some?
    ensures Drive(AgainLoop(vm, body), run, k) == Some(NthTurn(AgainUnrolled(vm, body), run, k).value.entered)
  {
    var u := AgainUnrolled(vm, body);
    AgainJump(vm, vm, body, 0);
    forall i: nat, v: Vm | i < k && run(i, v).Some?
      ensures Ret(run(i, v).value) == u.next(i, run(i, v).value).entered
    {
      var w := run(i, v).value;
      AgainJump(vm, Leave(w), body, i);
      assert Ret(w) == Jump(Leave(w), AgainCont(body));
    }
    MachineFollows(u, run, k);
  }

  lemma AgainJump(vm: Vm, v: Vm, body: Cont, i: nat)
    requires !HasC0(body)
    ensures Jump(v, AgainCont(body)) == AgainUnrolled(vm, body).next(i, v).entered
  {
  }

  // ----- The loop instructions -----

  /** The loop is over: the instruction's own code goes on with what the last piece
      left, under the c0 (and, for the breakable forms, the c1) it had before. */
  function Continued(vm: Vm, left: Vm, brk: bool): Vm {
    left.(code := vm.code, cp := vm.cp, cr := left.cr.(
      c0 := Or(vm.cr.c0, if brk then Some(Quit(vm.quit0)) else left.cr.c0),
      c1 := if brk then Or(vm.cr.c1, left.cr.c1) else left.cr.c1))
  }

  lemma AfterLoopContinues(vm: Vm, s: seq<Value>, brk: bool, x: Extracted, left: Vm)
    requires KnownCodepage(vm.cp)
    requires x == AfterLoop(vm.(stack := s), brk)
    ensures x.Extracted?
    ensures Enter(left, x.cc, 1) == Done(0, Continued(vm, left, brk))
  {
    var after := x.cc;
    assert after.Ord? && after.code == vm.code && Closure(after.data) == [];
    PreclearThenMerge(left.cr, after.data.save);
    assert Adjust(left, after, None) == Done(0, left.(cr := Preclear(left.cr, after.data.save)));
    assert Merge(left.cr, after.data.save) == Continued(vm, left, brk).cr;
  }

  /** REPEAT runs its body exactly `n` times and then goes on behind the instruction. */
  lemma RepeatInstruction(
      vm: Vm, s: seq<Value>, n: nat, body: Cont, brk: bool, x: Extracted, run: Behaviour, left: Vm)
    requires vm.stack == s + [Int(n), ContValue(body)]
    requires 1 <= n <= I32_MAX && !HasC0(body) && KnownCodepage(vm.cp)
    requires x == AfterLoop(vm.(stack := s), brk) && x.Extracted?
    requires ReturnsThrough(run, RepeatGiven(body, x.cc, n), n)
    requires CameBack(RepeatUnrolled(x.vm, body, x.cc, n), run, n - 1, left)
    ensures Drive(ExecRepeat(vm, brk), run, n) == Some(Done(0, Continued(vm, Leave(left), brk)))
  {
    RepeatDispatch(vm, s, n, body, brk, x);
    RepeatEnds(x.vm, body, x.cc, n, run, left);
    AfterLoopContinues(vm, s, brk, x, Leave(left));
  }

  lemma RepeatEnds(vm: Vm, body: Cont, after: Cont, n: nat, run: Behaviour, left: Vm)
    requires !HasC0(body) && n >= 1 && ReturnsThrough(run, RepeatGiven(body, after, n), n)
    requires CameBack(RepeatUnrolled(vm, body, after, n), run, n - 1, left)
    ensures Drive(RepeatLoop(vm, body, after, n), run, n) == Some(Enter(Leave(left), after, 1))
  {
    TurnAfter(RepeatUnrolled(vm, body, after, n), run, n - 1, left);
    RepeatLaw(vm, body, after, n, run, n);
  }

  lemma RepeatDispatch(vm: Vm, s: seq<Value>, n: nat, body: Cont, brk: bool, x: Extracted)
    requires vm.stack == s + [Int(n), ContValue(body)] && 1 <= n <= I32_MAX
    requires x == AfterLoop(vm.(stack := s), brk) && x.Extracted?
    ensures ExecRepeat(vm, brk) == RepeatLoop(x.vm, body, x.cc, n)
  {
    var v := vm.(stack := s + [Int(n)]);
    assert PopCont(vm) == Got(body, v);
    assert PopRange(v, I32_MIN, I32_MAX) == Got(n, vm.(stack := s));
  }

  /** REPEAT with zero or less does nothing but take its operands. */
  lemma NothingToRepeat(vm: Vm, s: seq<Value>, n: int, body: Cont, brk: bool)
    requires vm.stack == s + [Int(n), ContValue(body)] && I32_MIN <= n <= 0
    ensures ExecRepeat(vm, brk) == Done(0, vm.(stack := s))
  {
    var v := vm.(stack := s + [Int(n)]);
    assert PopCont(vm) == Got(body, v);
    assert PopRange(v, I32_MIN, I32_MAX) == Got(n, vm.(stack := s));
  }

  /** WHILE alternates condition and body; once the condition leaves false, after any
      number of rounds, the code behind the instruction goes on. */
  lemma WhileInstruction(
      vm: Vm, s: seq<Value>, cond: Cont, body: Cont, brk: bool, x: Extracted, run: Behaviour, k: nat,
      left: Vm, w: Vm)
    requires vm.stack == s + [ContValue(cond), ContValue(body)]
    requires !HasC0(cond) && !HasC0(body) && KnownCodepage(vm.cp)
    requires x == AfterLoop(vm.(stack := s), brk) && x.Extracted?
    requires ReturnsThrough(run, WhileGiven(cond, body, x.cc), 2 * k + 1)
    requires CameBack(WhileUnrolled(x.vm, cond, body, x.cc), run, 2 * k, left)
    requires PopBool(Leave(left)) == Got(false, w)
    ensures Drive(ExecWhile(vm, brk), run, 2 * k + 1) == Some(Done(0, Continued(vm, w, brk)))
  {
    WhileDispatch(vm, s, cond, body, brk, x);
    WhileEnds(x.vm, cond, body, x.cc, run, k, left, w);
    AfterLoopContinues(vm, s, brk, x, w);
  }

  /** The piece entered at turn `k` returned in this state. */
  predicate CameBack(u: Unrolling, run: Behaviour, k: nat, left: Vm) {
    var t := NthTurn(u, run, k);
    t.Some? && t.value.inside && RunPiece(t.value.entered, run, k) == Some(left)
  }

  lemma TurnAfter(u: Unrolling, run: Behaviour, k: nat, left: Vm)
    requires CameBack(u, run, k, left)
    ensures NthTurn(u, run, k + 1) == Some(u.next(k, left))
  {
  }

  lemma WhileEnds(vm: Vm, cond: Cont, body: Cont, after: Cont, run: Behaviour, k: nat, left: Vm, w: Vm)
    requires !HasC0(cond) && !HasC0(body)
    requires ReturnsThrough(run, WhileGiven(cond, body, after), 2 * k + 1)
    requires CameBack(WhileUnrolled(vm, cond, body, after), run, 2 * k, left)
    requires PopBool(Leave(left)) == Got(false, w)
    ensures Drive(WhileLoop(vm, cond, body, after), run, 2 * k + 1) == Some(Enter(w, after, 1))
  {
    FalseLeaves(vm, cond, body, after, run, k, left, w);
    WhileLaw(vm, cond, body, after, run, 2 * k + 1);
  }

  lemma FalseLeaves(vm: Vm, cond: Cont, body: Cont, after: Cont, run: Behaviour, k: nat, left: Vm, w: Vm)
    requires CameBack(WhileUnrolled(vm, cond, body, after), run, 2 * k, left)
    requires PopBool(Leave(left)) == Got(false, w)
    ensures NthTurn(WhileUnrolled(vm, cond, body, after), run, 2 * k + 1) == Some(Turn(Enter(w, after, 1), false))
  {
    var u := WhileUnrolled(vm, cond, body, after);
    TurnAfter(u, run, 2 * k, left);
    assert (2 * k) % 2 == 0;
    assert u.next(2 * k, left) == WhileDecision(left, cond, body, after);
  }

  lemma WhileDispatch(vm: Vm, s: seq<Value>, cond: Cont, body: Cont, brk: bool, x: Extracted)
    requires vm.stack == s + [ContValue(cond), ContValue(body)]
    requires x == AfterLoop(vm.(stack := s), brk) && x.Extracted?
    ensures ExecWhile(vm, brk) == WhileLoop(x.vm, cond, body, x.cc)
  {
    var v := vm.(stack := s + [ContValue(cond)]);
    assert PopCont(vm) == Got(body, v);
    assert PopCont(v) == Got(cond, vm.(stack := s));
  }

  /** UNTIL runs its body until it leaves true, after any number of rounds, and then
      goes on behind the instruction. */
  lemma UntilInstruction(
      vm: Vm, s: seq<Value>, body: Cont, brk: bool, x: Extracted, run: Behaviour, k: nat, left: Vm, w: Vm)
    requires vm.stack == s + [ContValue(body)] && !HasC0(body) && KnownCodepage(vm.cp)
    requires x == AfterLoop(vm.(stack := s), brk) && x.Extracted?
    requires ReturnsThrough(run, UntilGiven(body, x.cc), k + 1)
    requires CameBack(UntilUnrolled(x.vm, body, x.cc), run, k, left)
    requires PopBool(Leave(left)) == Got(true, w)
    ensures Drive(ExecUntil(vm, brk), run, k + 1) == Some(Done(0, Continued(vm, w, brk)))
  {
    UntilDispatch(vm, s, body, brk, x);
    UntilEnds(x.vm, body, x.cc, run, k, left, w);
    AfterLoopContinues(vm, s, brk, x, w);
  }

  lemma UntilEnds(vm: Vm, body: Cont, after: Cont, run: Behaviour, k: nat, left: Vm, w: Vm)
    requires !HasC0(body) && ReturnsThrough(run, UntilGiven(body, after), k + 1)
    requires CameBack(UntilUnrolled(vm, body, after), run, k, left)
    requires PopBool(Leave(left)) == Got(true, w)
    ensures Drive(UntilLoop(vm, body, after), run, k + 1) == Some(Enter(w, after, 1))
  {
    TrueLeaves(vm, body, after, run, k, left, w);
    UntilLaw(vm, body, after, run, k + 1);
  }

  lemma TrueLeaves(vm: Vm, body: Cont, after: Cont, run: Behaviour, k: nat, left: Vm, w: Vm)
    requires CameBack(UntilUnrolled(vm, body, after), run, k, left)
    requires PopBool(Leave(left)) == Got(true, w)
    ensures NthTurn(UntilUnrolled(vm, body, after), run, k + 1) == Some(Turn(Enter(w, after, 1), false))
  {
    var u := UntilUnrolled(vm, body, after);
    TurnAfter(u, run, k, left);
    assert u.next(k, left) == UntilNext(left, body, after);
  }

  lemma UntilDispatch(vm: Vm, s: seq<Value>, body: Cont, brk: bool, x: Extracted)
    requires vm.stack == s + [ContValue(body)]
    requires x == AfterLoop(vm.(stack := s), brk) && x.Extracted?
    ensures ExecUntil(vm, brk) == UntilLoop(x.vm, body, x.cc)
  {
    assert PopCont(vm) == Got(body, vm.(stack := s));
  }
}
