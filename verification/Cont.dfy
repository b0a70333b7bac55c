/** Switching between continuations: jumps, calls, returns and loops. */
module Continuations {
  import opened Util
  import opened Cells
  import opened Values
  import opened GasAccounting

  datatype VmError =
    StackUnderflow(depth: nat) | TypeCheck | RangeCheck | IntegerOverflow | InvalidOpcode | OutOfGas

  /** What `as_exception` turns an error into. */
  function Exception(e: VmError): nat {
    match e
    case StackUnderflow(_) => 2
    case IntegerOverflow => 4
    case RangeCheck => 5
    case InvalidOpcode => 6
    case TypeCheck => 7
    case OutOfGas => 13
  }

  /** The part of the machine that control flow works on. */
  datatype Vm = Vm(
    code: CellSlice, stack: seq<Value>, cr: Regs, cp: nat, gas: Gas, quit0: int, quit1: int)

  /** A nonzero code ends the machine. */
  datatype Outcome = Done(code: int, vm: Vm) | Fail(error: VmError, vm: Vm)

  const FREE_STACK_DEPTH: nat := 32
  const FREE_NESTED_JUMPS: nat := 8

  // ----- Small steps -----

  function Top(s: seq<Value>, n: nat): seq<Value>
    requires n <= |s|
  {
    s[|s| - n..]
  }

  function Rest(s: seq<Value>, n: nat): seq<Value>
    requires n <= |s|
  {
    s[..|s| - n]
  }

  /** Each item beyond the thirty-second costs a unit when a stack is built. */
  function StackGas(depth: nat): (r: nat)
    ensures if depth <= 32 then r == 0 else r + 32 == depth
  {
    Max(depth, FREE_STACK_DEPTH) - FREE_STACK_DEPTH
  }

  function Pay(vm: Vm, amount: nat): Outcome {
    var paid := vm.(gas := Use(vm.gas, amount));
    if paid.gas.remaining >= 0 then Done(0, paid) else Fail(OutOfGas, paid)
  }

  function SetC0(vm: Vm, c: Cont): Vm {
    vm.(cr := vm.cr.(c0 := Some(c)))
  }

  function Or<T>(a: Option<T>, b: Option<T>): Option<T> {
    if a.Some? then a else b
  }

  /** Saved registers replace the current ones. */
  function Merge(cr: Regs, save: Regs): Regs {
    Regs(Or(save.c0, cr.c0), Or(save.c1, cr.c1), Or(save.c2, cr.c2), Or(save.c3, cr.c3),
         Or(save.d0, cr.d0), Or(save.d1, cr.d1), Or(save.c7, cr.c7))
  }

  function ClearIf<T, S>(r: Option<T>, other: Option<S>): Option<T> {
    if other.Some? then None else r
  }

  /** Registers about to be replaced are dropped first. */
  function Preclear(cr: Regs, save: Regs): Regs {
    Regs(ClearIf(cr.c0, save.c0), ClearIf(cr.c1, save.c1), ClearIf(cr.c2, save.c2), ClearIf(cr.c3, save.c3),
         ClearIf(cr.d0, save.d0), ClearIf(cr.d1, save.d1), ClearIf(cr.c7, save.c7))
  }

  datatype Popped<T> = Got(value: T, vm: Vm) | Bad(error: VmError, vm: Vm)

  function Pop(vm: Vm): Popped<Value> {
    if vm.stack == [] then Bad(StackUnderflow(0), vm)
    else Got(vm.stack[|vm.stack| - 1], vm.(stack := Rest(vm.stack, 1)))
  }

  function PopInt(vm: Vm): Popped<int> {
    match Pop(vm)
    case Bad(e, v) => Bad(e, v)
    case Got(Int(n), v) => Got(n, v)
    case Got(NaN, v) => Bad(IntegerOverflow, v)
    case Got(_, v) => Bad(TypeCheck, v)
  }

  function PopBool(vm: Vm): Popped<bool> {
    match PopInt(vm)
    case Bad(e, v) => Bad(e, v)
    case Got(n, v) => Got(n != 0, v)
  }

  function PopRange(vm: Vm, lo: int, hi: int): Popped<int> {
    match PopInt(vm)
    case Bad(e, v) => Bad(e, v)
    case Got(n, v) => if lo <= n <= hi then Got(n, v) else Bad(RangeCheck, v)
  }

  function PopCont(vm: Vm): Popped<Cont> {
    match Pop(vm)
    case Bad(e, v) => Bad(e, v)
    case Got(ContValue(c), v) => Got(c, v)
    case Got(_, v) => Bad(TypeCheck, v)
  }

  // ----- One jump -----

  predicate HasData(c: Cont) {
    c.Ord? || c.ArgExt?
  }

  predicate HasC0(c: Cont) {
    HasData(c) && c.data.save.c0.Some?
  }

  predicate NeedsAdjust(c: Cont) {
    HasData(c) && (c.data.stack.Some? || c.data.nargs.Some?)
  }

  function Closure(data: ControlData): seq<Value> {
    if data.stack.Some? then data.stack.value else []
  }

  /** How many continuations a chain of jumps from here can visit at most. */
  function Nesting(c: Cont): nat {
    match c
    case PushInt(_, next) => 1 + Nesting(next)
    case RepeatCont(_, body, after) => 1 + Max(Nesting(body), Nesting(after))
    case AgainCont(body) => 1 + Nesting(body)
    case UntilCont(body, after) => 1 + Max(Nesting(body), Nesting(after))
    case WhileCont(_, cond, body, after) => 1 + Max(Nesting(cond), Max(Nesting(body), Nesting(after)))
    case ArgExt(_, ext) => 1 + Nesting(ext)
    case _ => 0
  }

  datatype Jumped = To(next: Cont, vm: Vm) | Halt(code: int, vm: Vm) | Broken(error: VmError, vm: Vm)

  function BitNot(n: int): int {
    -1 - n
  }

  predicate KnownCodepage(cp: nat) {
    cp == 0
  }

  /** `Cont::jump` of every kind of continuation: the next one is a part of this one. */
  function JumpOnce(vm: Vm, c: Cont): (r: Jumped)
    ensures r.To? ==> Nesting(r.next) < Nesting(c)
  {
    match c
    case Quit(exitCode) => Halt(BitNot(exitCode), vm)
    case ExcQuit =>
      (match PopRange(vm, 0, 0xffff)
       case Got(n, v) => Halt(BitNot(n), v)
       case Bad(e, v) => Halt(BitNot(Exception(e)), v))
    case PushInt(value, next) =>
      if |vm.stack| < MAX_DEPTH then To(next, vm.(stack := vm.stack + [Int(value)]))
      else Broken(StackUnderflow(MAX_DEPTH), vm)
    case RepeatCont(count, body, after) =>
      if count == 0 then To(after, vm)
      else if HasC0(body) then To(body, vm)
      else To(body, SetC0(vm, RepeatCont(count - 1, body, after)))
    case AgainCont(body) => To(body, if HasC0(body) then vm else SetC0(vm, c))
    case UntilCont(body, after) =>
      (match PopBool(vm)
       case Bad(e, v) => Broken(e, v)
       case Got(terminated, v) =>
         if terminated then To(after, v)
         else To(body, if HasC0(body) then v else SetC0(v, c)))
    case WhileCont(checkCond, cond, body, after) =>
      if !checkCond then
        To(cond, if HasC0(cond) then vm else SetC0(vm, c.(checkCond := true)))
      else
        (match PopBool(vm)
         case Bad(e, v) => Broken(e, v)
         case Got(holds, v) =>
           if !holds then To(after, v)
           else To(body, if HasC0(body) then v else SetC0(v, c.(checkCond := false))))
    case ArgExt(data, ext) =>
      var v := vm.(cr := Merge(vm.cr, data.save));
      if data.cp.None? then To(ext, v)
      else if KnownCodepage(data.cp.value) then To(ext, v.(cp := data.cp.value))
      else Broken(InvalidOpcode, v)
    case Ord(data, code) =>
      var v := vm.(cr := Merge(vm.cr, data.save));
      if data.cp.None? then Broken(InvalidOpcode, v)
      else if KnownCodepage(data.cp.value) then Halt(0, v.(code := code, cp := data.cp.value))
      else Broken(InvalidOpcode, v.(code := code))
  }

  // ----- Arguments -----

  function Underflows(data: ControlData, pass: Option<nat>, depth: nat): Option<nat> {
    if OrZero(pass) > depth || OrZero(data.nargs) > depth then Some(Max(OrZero(pass), OrZero(data.nargs)))
    else if pass.Some? && OrZero(data.nargs) > pass.value then Some(pass.value)
    else None
  }

  /** The items a continuation takes over: its own count, else the caller's, else all. */
  function Taken(data: ControlData, pass: Option<nat>, depth: nat): nat {
    if data.nargs.Some? then data.nargs.value else if pass.Some? then pass.value else depth
  }

  /** Puts the top `n` items on the closure and drops the others. */
  function TakeOver(vm: Vm, closure: seq<Value>, n: nat): Outcome
    requires n <= |vm.stack|
  {
    if closure != [] then
      var paid := Pay(vm.(stack := Rest(vm.stack, n)), StackGas(|closure| + n));
      if paid.Fail? then paid else Done(0, paid.vm.(stack := closure + Top(vm.stack, n)))
    else if n < |vm.stack| then Pay(vm.(stack := Top(vm.stack, n)), StackGas(n))
    else Done(0, vm)
  }

  /** `adjust_jump_cont`: hands stack items over to a continuation. Taking the closure
      out of an unshared continuation is not visible, because a jump never reads it. */
  function Adjust(vm: Vm, c: Cont, pass: Option<nat>): Outcome {
    var depth := |vm.stack|;
    if HasData(c) then
      var short := Underflows(c.data, pass, depth);
      if short.Some? then Fail(StackUnderflow(short.value), vm)
      else TakeOver(vm.(cr := Preclear(vm.cr, c.data.save)), Closure(c.data), Taken(c.data, pass, depth))
    else if pass.None? then Done(0, vm)
    else if pass.value > depth then Fail(StackUnderflow(pass.value), vm)
    else TakeOver(vm, [], pass.value)
  }

  /** Adjusts where the continuation asks for it and follows the chain; `count` jumps
      have been made before. */
  function Enter(vm: Vm, c: Cont, count: nat): Outcome
    decreases Nesting(c), 1
  {
    var adjusted := if NeedsAdjust(c) then Adjust(vm, c, None) else Done(0, vm);
    if adjusted.Fail? then adjusted else DoJumpTo(adjusted.vm, c, count)
  }

  function DoJumpTo(vm: Vm, c: Cont, count: nat): Outcome
    decreases Nesting(c), 0
  {
    match JumpOnce(vm, c)
    case Halt(code, v) => Done(code, v)
    case Broken(e, v) => Fail(e, v)
    case To(next, v) =>
      var paid := if count + 1 > FREE_NESTED_JUMPS then Pay(v, 1) else Done(0, v);
      if paid.Fail? then paid else Enter(paid.vm, next, count + 1)
  }

  function Jump(vm: Vm, c: Cont): Outcome {
    if NeedsAdjust(c) then JumpExt(vm, c, None) else DoJumpTo(vm, c, 0)
  }

  function JumpExt(vm: Vm, c: Cont, pass: Option<nat>): Outcome {
    var adjusted := Adjust(vm, c, pass);
    if adjusted.Fail? then adjusted else DoJumpTo(adjusted.vm, c, 0)
  }

  // ----- Calls and returns -----

  /** The continuation a call leaves in c0. */
  function ReturnCont(vm: Vm, nargs: Option<nat>, stack: Option<seq<Value>>, c0: Option<Cont>): Cont {
    Ord(ControlData(nargs, stack, NO_REGS.(c0 := c0), Some(vm.cp)), vm.code)
  }

  function Call(vm: Vm, c: Cont): Outcome {
    if HasC0(c) then Jump(vm, c)
    else if NeedsAdjust(c) then CallExt(vm, c, None, None)
    else
      var ret := ReturnCont(vm, None, None, vm.cr.c0);
      DoJumpTo(SetC0(vm.(code := EMPTY_CODE), ret), c, 0)
  }

  function CallExt(vm: Vm, c: Cont, pass: Option<nat>, nargs: Option<nat>): Outcome {
    if HasC0(c) then JumpExt(vm, c, pass)
    else
      var passed := PassArgs(vm, c, pass);
      if passed.Broke? then Fail(passed.error, passed.vm)
      else
        var ret := ReturnCont(vm, nargs, Some(passed.vm.stack), vm.cr.c0);
        DoJumpTo(SetC0(passed.vm.(code := EMPTY_CODE, stack := passed.stack), ret), c, 0)
  }

  /** The callee's stack, and the machine with what the caller keeps. */
  datatype Passed = Passed(stack: seq<Value>, vm: Vm) | Broke(error: VmError, vm: Vm)

  function PayFor(vm: Vm, stack: seq<Value>): Passed {
    var paid := Pay(vm, StackGas(|stack|));
    if paid.Fail? then Broke(paid.error, paid.vm) else Passed(stack, paid.vm)
  }

  function PassArgs(vm: Vm, c: Cont, pass: Option<nat>): Passed {
    if HasData(c) then PassToData(vm, c.data, pass)
    else if pass.None? then Passed(vm.stack, vm.(stack := []))
    else if pass.value > |vm.stack| then Broke(StackUnderflow(pass.value), vm)
    else PayFor(vm.(stack := Rest(vm.stack, pass.value)), Top(vm.stack, pass.value))
  }

  function PassToData(vm: Vm, data: ControlData, pass: Option<nat>): Passed {
    var depth := |vm.stack|;
    var short := Underflows(data, pass, depth);
    if short.Some? then Broke(StackUnderflow(short.value), vm)
    else
      var v := vm.(cr := Preclear(vm.cr, data.save).(c0 := None));
      var closure := Closure(data);
      if pass.Some? then
        PayFor(v.(stack := Rest(vm.stack, pass.value)), closure + Top(vm.stack, Taken(data, pass, depth)))
      else if closure != [] then PayFor(v.(stack := []), closure + vm.stack)
      else Passed(vm.stack, v.(stack := []))
  }

  function Ret(vm: Vm): Outcome {
    if vm.cr.c0.None? then Fail(InvalidOpcode, SetC0(vm, Quit(vm.quit0)))
    else Jump(SetC0(vm, Quit(vm.quit0)), vm.cr.c0.value)
  }

  function RetExt(vm: Vm, nargs: Option<nat>): Outcome {
    if vm.cr.c0.None? then Fail(InvalidOpcode, SetC0(vm, Quit(vm.quit0)))
    else JumpExt(SetC0(vm, Quit(vm.quit0)), vm.cr.c0.value, nargs)
  }

  // ----- Current continuation -----

  datatype SaveCr = SaveCr(c0: bool, c1: bool, c2: bool)

  function SavedRegs(cr: Regs, mode: SaveCr): Regs {
    NO_REGS.(
      c0 := if mode.c0 then cr.c0 else None,
      c1 := if mode.c1 then cr.c1 else None,
      c2 := if mode.c2 then cr.c2 else None)
  }

  function RemainingRegs(vm: Vm, mode: SaveCr): Regs {
    vm.cr.(
      c0 := if mode.c0 then Some(Quit(vm.quit0)) else vm.cr.c0,
      c1 := if mode.c1 then Some(Quit(vm.quit1)) else vm.cr.c1,
      c2 := if mode.c2 then None else vm.cr.c2)
  }

  datatype Extracted = Extracted(cc: Cont, vm: Vm) | NotExtracted(error: VmError, vm: Vm)

  function ExtractCc(vm: Vm, mode: SaveCr, copy: Option<nat>, nargs: Option<nat>): Extracted {
    if copy.Some? && copy.value > |vm.stack| then NotExtracted(StackUnderflow(copy.value), vm)
    else
      var n := if copy.Some? then copy.value else |vm.stack|;
      var paid :=
        if 0 < n < |vm.stack| then Pay(vm.(stack := Rest(vm.stack, n)), StackGas(n)) else Done(0, vm);
      if paid.Fail? then NotExtracted(paid.error, paid.vm)
      else
        Detach(paid.vm, mode, Rest(vm.stack, n), Top(vm.stack, n), nargs)
  }

  /** Takes code, registers and the lower items away from the machine. */
  function Detach(vm: Vm, mode: SaveCr, kept: seq<Value>, taken: seq<Value>, nargs: Option<nat>): Extracted {
    Extracted(
      Ord(ControlData(nargs, Some(kept), SavedRegs(vm.cr, mode), Some(vm.cp)), vm.code),
      vm.(code := EMPTY_CODE, stack := taken, cr := RemainingRegs(vm, mode)))
  }

  // ----- Loops -----

  function RepeatLoop(vm: Vm, body: Cont, after: Cont, n: nat): Outcome {
    Jump(vm, if n == 0 then after else RepeatCont(n, body, after))
  }

  function UntilLoop(vm: Vm, body: Cont, after: Cont): Outcome {
    Jump(if HasC0(body) then vm else SetC0(vm, UntilCont(body, after)), body)
  }

  function WhileLoop(vm: Vm, cond: Cont, body: Cont, after: Cont): Outcome {
    Jump(if HasC0(cond) then vm else SetC0(vm, WhileCont(true, cond, body, after)), cond)
  }

  function AgainLoop(vm: Vm, body: Cont): Outcome {
    Jump(vm, AgainCont(body))
  }

  // ----- Loop instructions -----

  /** `c1_envelope` with saving: the continuation remembers c0 and c1 unless it has
      its own, and becomes the new c1. */
  function Envelope(vm: Vm, c: Cont): Cont {
    if HasData(c) then
      c.(data := c.data.(save := c.data.save.(
           c0 := Or(c.data.save.c0, vm.cr.c0), c1 := Or(c.data.save.c1, vm.cr.c1))))
    else
      ArgExt(ControlData(None, None, NO_REGS.(c0 := vm.cr.c0, c1 := vm.cr.c1), None), c)
  }

  /** Takes the rest of the code as the continuation to go on with after the loop. */
  function AfterLoop(vm: Vm, brk: bool): Extracted {
    var e := ExtractCc(vm, SaveCr(true, false, false), None, None);
    if e.Extracted? && brk then
      var after := Envelope(e.vm, e.cc);
      Extracted(after, e.vm.(cr := e.vm.cr.(c1 := Some(after))))
    else e
  }

  const I32_MIN: int := -0x8000_0000
  const I32_MAX: int := 0x7fff_ffff

  function ExecRepeat(vm: Vm, brk: bool): Outcome {
    match PopCont(vm)
    case Bad(e, v) => Fail(e, v)
    case Got(body, v) =>
      match PopRange(v, I32_MIN, I32_MAX)
      case Bad(e, w) => Fail(e, w)
      case Got(n, w) =>
        if n <= 0 then Done(0, w)
        else
          var x := AfterLoop(w, brk);
          if x.NotExtracted? then Fail(x.error, x.vm) else RepeatLoop(x.vm, body, x.cc, n)
  }

  function ExecUntil(vm: Vm, brk: bool): Outcome {
    match PopCont(vm)
    case Bad(e, v) => Fail(e, v)
    case Got(body, v) =>
      var x := AfterLoop(v, brk);
      if x.NotExtracted? then Fail(x.error, x.vm) else UntilLoop(x.vm, body, x.cc)
  }

  function ExecWhile(vm: Vm, brk: bool): Outcome {
    match PopCont(vm)
    case Bad(e, v) => Fail(e, v)
    case Got(body, v) =>
      match PopCont(v)
      case Bad(e, w) => Fail(e, w)
      case Got(cond, w) =>
        var x := AfterLoop(w, brk);
        if x.NotExtracted? then Fail(x.error, x.vm) else WhileLoop(x.vm, cond, body, x.cc)
  }
}
