/** The virtual machine's control flow as it updates its own state in place. */
module ContinuationMachine {
  import opened Util
  import opened Cells
  import opened Values
  import opened GasAccounting
  import opened Continuations

  /** What a control operation reports; the state it leaves is the machine itself. */
  datatype Report = Ok(code: int) | Err(error: VmError)

  function Ended(r: Report, vm: Vm): Outcome {
    match r
    case Ok(code) => Done(code, vm)
    case Err(e) => Fail(e, vm)
  }

  /** What one jump reports. */
  datatype Signal = Next(cont: Cont) | Stop(code: int) | Broke(error: VmError)

  function Reached(s: Signal, vm: Vm): Jumped {
    match s
    case Next(c) => To(c, vm)
    case Stop(code) => Halt(code, vm)
    case Broke(e) => Broken(e, vm)
  }

  /** What happens before a continuation met on the way is jumped to. */
  function Arrive(vm: Vm, c: Cont, count: nat): Outcome {
    var paid := if count > FREE_NESTED_JUMPS then Pay(vm, 1) else Done(0, vm);
    if paid.Fail? || !NeedsAdjust(c) then paid else Adjust(paid.vm, c, None)
  }

  /** Where a chain of jumps stands: `o` is what it will come to. */
  predicate Pending(o: Outcome, s: Signal, vm: Vm, count: nat) {
    match s
    case Stop(code) => o == Done(code, vm)
    case Broke(e) => o == Fail(e, vm)
    case Next(c) =>
      var arrived := Arrive(vm, c, count + 1);
      o == if arrived.Fail? then arrived else DoJumpTo(arrived.vm, c, count + 1)
  }

  lemma PendingAfter(vm: Vm, c: Cont, count: nat, s: Signal, after: Vm)
    requires Reached(s, after) == JumpOnce(vm, c)
    ensures Pending(DoJumpTo(vm, c, count), s, after, count)
  {
  }

  /** An argument hand-over that either worked or reported an error. */
  datatype Pushed = Stack(items: seq<Value>) | NoStack(error: VmError)

  class VmState {
    var code: CellSlice
    var stack: seq<Value>
    var cr: Regs
    var cp: nat
    var gas: Gas
    const quit0: int
    const quit1: int

    constructor (vm: Vm)
      ensures Now() == vm
    {
      code, stack, cr, cp, gas := vm.code, vm.stack, vm.cr, vm.cp, vm.gas;
      quit0, quit1 := vm.quit0, vm.quit1;
    }

    ghost function Now(): Vm
      reads this
    {
      Vm(code, stack, cr, cp, gas, quit0, quit1)
    }

    method TryConsume(amount: nat) returns (r: Report)
      modifies this`gas
      ensures Ended(r, Now()) == Pay(old(Now()), amount)
      ensures r.Ok? ==> r.code == 0
    {
      gas := Use(gas, amount);
      r := if gas.remaining >= 0 then Ok(0) else Err(OutOfGas);
    }

    // ----- The stack -----

    method PopIntInPlace() returns (n: int, error: Option<VmError>)
      modifies this`stack
      ensures PopInt(old(Now())) == if error.None? then Got(n, Now()) else Bad(error.value, Now())
    {
      n := 0;
      if stack == [] {
        return 0, Some(StackUnderflow(0));
      }
      var v := stack[|stack| - 1];
      stack := stack[..|stack| - 1];
      match v {
        case Int(m) => n, error := m, None;
        case NaN => error := Some(IntegerOverflow);
        case _ => error := Some(TypeCheck);
      }
    }

    // ----- One jump of each kind -----

    method JumpLoop(c: Cont) returns (s: Signal)
      requires c.RepeatCont? || c.AgainCont? || c.UntilCont? || c.WhileCont?
      modifies this`stack, this`cr
      ensures Reached(s, Now()) == JumpOnce(old(Now()), c)
    {
      if c.RepeatCont? && c.count == 0 {
        return Next(c.after);
      }
      var given := c;
      var next := c.body;
      if c.RepeatCont? {
        given := c.(count := c.count - 1);
      } else if c.WhileCont? {
        given := c.(checkCond := !c.checkCond);
        next := if c.checkCond then c.body else c.cond;
      }
      if c.UntilCont? || (c.WhileCont? && c.checkCond) {
        var n, error := PopIntInPlace();
        if error.Some? {
          return Signal.Broke(error.value);
        }
        if (n != 0) == c.UntilCont? {
          return Next(c.after);
        }
      }
      if !HasC0(next) {
        cr := cr.(c0 := Some(given));
      }
      s := Next(next);
    }

    method JumpWithData(c: Cont) returns (s: Signal)
      requires HasData(c)
      modifies this`cr, this`code, this`cp
      ensures Reached(s, Now()) == JumpOnce(old(Now()), c)
    {
      cr := Merge(cr, c.data.save);
      if c.data.cp.None? {
        return if c.ArgExt? then Next(c.ext) else Signal.Broke(InvalidOpcode);
      }
      if c.Ord? {
        code := c.code;
      }
      if !KnownCodepage(c.data.cp.value) {
        return Signal.Broke(InvalidOpcode);
      }
      cp := c.data.cp.value;
      s := if c.ArgExt? then Next(c.ext) else Stop(0);
    }

    method JumpCont(c: Cont) returns (s: Signal)
      modifies this`stack, this`cr, this`code, this`cp
      ensures Reached(s, Now()) == JumpOnce(old(Now()), c)
    {
      match c {
        case Quit(exitCode) => s := Stop(BitNot(exitCode));
        case ExcQuit =>
          var n, error := PopIntInPlace();
          if error.None? && !(0 <= n <= 0xffff) {
            error := Some(RangeCheck);
          }
          s := Stop(BitNot(if error.Some? then Exception(error.value) else n));
        case PushInt(value, next) =>
          if |stack| >= MAX_DEPTH {
            return Signal.Broke(StackUnderflow(MAX_DEPTH));
          }
          stack := stack + [Int(value)];
          s := Next(next);
        case ArgExt(_, _) => s := JumpWithData(c);
        case Ord(_, _) => s := JumpWithData(c);
        case _ => s := JumpLoop(c);
      }
    }

    // ----- Chains of jumps -----

    method AdjustJumpCont(c: Cont, pass: Option<nat>) returns (r: Report)
      modifies this`stack, this`cr, this`gas
      ensures Ended(r, Now()) == Adjust(old(Now()), c, pass)
      ensures r.Ok? ==> r.code == 0
    {
      r := Ok(0);
      var depth := |stack|;
      if HasData(c) {
        var short := Underflows(c.data, pass, depth);
        if short.Some? {
          return Err(StackUnderflow(short.value));
        }
        cr := Preclear(cr, c.data.save);
        r := TakeStack(Closure(c.data), Taken(c.data, pass, depth));
      } else if pass.Some? {
        if pass.value > depth {
          return Err(StackUnderflow(pass.value));
        }
        r := TakeStack([], pass.value);
      }
    }

    /** Puts the top items on the closure and drops the others. */
    method TakeStack(closure: seq<Value>, n: nat) returns (r: Report)
      requires n <= |stack|
      modifies this`stack, this`gas
      ensures Ended(r, Now()) == TakeOver(old(Now()), closure, n)
      ensures r.Ok? ==> r.code == 0
    {
      r := Ok(0);
      var depth := |stack|;
      if closure != [] {
        var joined := closure + stack[depth - n..];
        stack := stack[..depth - n];
        r := TryConsume(StackGas(|joined|));
        if r.Ok? {
          stack := joined;
        }
      } else if n < depth {
        stack := stack[depth - n..];
        r := TryConsume(StackGas(n));
      }
    }

    /** Every jump leads to a part of the continuation it left, so the loop ends. */
    method FollowJumps(c: Cont) returns (r: Report)
      modifies this`stack, this`cr, this`code, this`cp, this`gas
      ensures Ended(r, Now()) == DoJumpTo(old(Now()), c, 0)
    {
      ghost var o := DoJumpTo(Now(), c, 0);
      ghost var before := Now();
      var count := 0;
      var s := JumpCont(c);
      PendingAfter(before, c, 0, s, Now());
      while s.Next?
        invariant Pending(o, s, Now(), count)
        decreases if s.Next? then 1 + Nesting(s.cont) else 0
      {
        var next := s.cont;
        count := count + 1;
        r := Approach(next, count);
        if r.Err? {
          return;
        }
        before := Now();
        s := JumpCont(next);
        PendingAfter(before, next, count, s, Now());
      }
      r := if s.Stop? then Ok(s.code) else Err(s.error);
    }

    /** Pays for a jump beyond the free ones and hands over the arguments. */
    method Approach(c: Cont, count: nat) returns (r: Report)
      modifies this`stack, this`cr, this`gas
      ensures Ended(r, Now()) == Arrive(old(Now()), c, count)
      ensures r.Ok? ==> r.code == 0
    {
      r := Ok(0);
      if count > FREE_NESTED_JUMPS {
        r := TryConsume(1);
      }
      if r.Ok? && NeedsAdjust(c) {
        r := AdjustJumpCont(c, None);
      }
    }

    method JumpTo(c: Cont) returns (r: Report)
      modifies this`stack, this`cr, this`code, this`cp, this`gas
      ensures Ended(r, Now()) == Jump(old(Now()), c)
    {
      if NeedsAdjust(c) {
        r := JumpToExt(c, None);
      } else {
        r := FollowJumps(c);
      }
    }

    method JumpToExt(c: Cont, pass: Option<nat>) returns (r: Report)
      modifies this`stack, this`cr, this`code, this`cp, this`gas
      ensures Ended(r, Now()) == JumpExt(old(Now()), c, pass)
    {
      r := AdjustJumpCont(c, pass);
      if r.Ok? {
        r := FollowJumps(c);
      }
    }

    // ----- Calls and returns -----

    method CallCont(c: Cont) returns (r: Report)
      modifies this`stack, this`cr, this`code, this`cp, this`gas
      ensures Ended(r, Now()) == Call(old(Now()), c)
    {
      if HasC0(c) {
        r := JumpTo(c);
      } else if NeedsAdjust(c) {
        r := CallContExt(c, None, None);
      } else {
        var save := NO_REGS.(c0 := cr.c0);
        var ret := Ord(ControlData(None, None, save, Some(cp)), code);
        code := EMPTY_CODE;
        cr := cr.(c0 := Some(ret));
        r := FollowJumps(c);
      }
    }

    /** Splits the caller's stack; what stays is left in place. */
    method Pass(c: Cont, pass: Option<nat>) returns (p: Pushed)
      modifies this`stack, this`cr, this`gas
      ensures PassArgs(old(Now()), c, pass)
           == if p.Stack? then Passed(p.items, Now()) else Passed.Broke(p.error, Now())
    {
      var depth := |stack|;
      if !HasData(c) {
        if pass.None? {
          p := Stack(stack);
          stack := [];
        } else if pass.value > depth {
          p := NoStack(StackUnderflow(pass.value));
        } else {
          p := HandOut(pass.value, stack[depth - pass.value..]);
        }
      } else {
        p := PassToClosure(c.data, pass);
      }
    }

    method PassToClosure(data: ControlData, pass: Option<nat>) returns (p: Pushed)
      modifies this`stack, this`cr, this`gas
      ensures PassToData(old(Now()), data, pass)
           == if p.Stack? then Passed(p.items, Now()) else Passed.Broke(p.error, Now())
    {
      var depth := |stack|;
      var short := Underflows(data, pass, depth);
      if short.Some? {
        return NoStack(StackUnderflow(short.value));
      }
      cr := Preclear(cr.(c0 := None), data.save);
      var closure := Closure(data);
      if pass.Some? {
        p := HandOut(pass.value, closure + stack[depth - Taken(data, pass, depth)..]);
      } else if closure != [] {
        p := HandOut(depth, closure + stack);
      } else {
        p := Stack(stack);
        stack := [];
      }
    }

    /** Drops the top items, which now belong to a stack that is paid for. */
    method HandOut(n: nat, items: seq<Value>) returns (p: Pushed)
      requires n <= |stack|
      modifies this`stack, this`gas
      ensures PayFor(old(Now()).(stack := Rest(old(stack), n)), items)
           == if p.Stack? then Passed(p.items, Now()) else Passed.Broke(p.error, Now())
    {
      stack := stack[..|stack| - n];
      var r := TryConsume(StackGas(|items|));
      p := if r.Ok? then Stack(items) else NoStack(r.error);
    }

    method CallContExt(c: Cont, pass: Option<nat>, nargs: Option<nat>) returns (r: Report)
      modifies this`stack, this`cr, this`code, this`cp, this`gas
      ensures Ended(r, Now()) == CallExt(old(Now()), c, pass, nargs)
    {
      if HasC0(c) {
        r := JumpToExt(c, pass);
        return;
      }
      var c0 := cr.c0;
      var p := Pass(c, pass);
      if p.NoStack? {
        return Err(p.error);
      }
      var save := NO_REGS.(c0 := c0);
      var ret := Ord(ControlData(nargs, Some(stack), save, Some(cp)), code);
      code := EMPTY_CODE;
      stack := p.items;
      cr := cr.(c0 := Some(ret));
      r := FollowJumps(c);
    }

    method Return() returns (r: Report)
      modifies this`stack, this`cr, this`code, this`cp, this`gas
      ensures Ended(r, Now()) == Ret(old(Now()))
    {
      var c := cr.c0;
      cr := cr.(c0 := Some(Quit(quit0)));
      if c.None? {
        return Err(InvalidOpcode);
      }
      r := JumpTo(c.value);
    }

    method ReturnExt(nargs: Option<nat>) returns (r: Report)
      modifies this`stack, this`cr, this`code, this`cp, this`gas
      ensures Ended(r, Now()) == RetExt(old(Now()), nargs)
    {
      var c := cr.c0;
      cr := cr.(c0 := Some(Quit(quit0)));
      if c.None? {
        return Err(InvalidOpcode);
      }
      r := JumpToExt(c.value, nargs);
    }

    method SaveRegisters(mode: SaveCr) returns (save: Regs)
      modifies this`cr
      ensures save == SavedRegs(old(cr), mode)
      ensures cr == RemainingRegs(old(Now()), mode)
    {
      save := NO_REGS;
      if mode.c0 {
        save := save.(c0 := cr.c0);
        cr := cr.(c0 := Some(Quit(quit0)));
      }
      if mode.c1 {
        save := save.(c1 := cr.c1);
        cr := cr.(c1 := Some(Quit(quit1)));
      }
      if mode.c2 {
        save := save.(c2 := cr.c2);
        cr := cr.(c2 := None);
      }
    }

    /** Splits off the top items, paying for a proper split. */
    method SplitTop(n: nat) returns (taken: seq<Value>, r: Report)
      requires n <= |stack|
      modifies this`stack, this`gas
      ensures taken == Top(old(stack), n) && stack == Rest(old(stack), n)
      ensures var before := old(Now()).(stack := stack);
              Ended(r, Now()) == if 0 < n < old(|stack|) then Pay(before, StackGas(n)) else Done(0, before)
    {
      var depth := |stack|;
      taken := stack[depth - n..];
      stack := stack[..depth - n];
      r := Ok(0);
      if 0 < n < depth {
        r := TryConsume(StackGas(n));
      }
    }

    /** Takes the rest of the program out of the machine. */
    method Extract(mode: SaveCr, copy: Option<nat>, nargs: Option<nat>) returns (cc: Option<Cont>, error: VmError)
      modifies this`stack, this`cr, this`code, this`gas
      ensures ExtractCc(old(Now()), mode, copy, nargs)
           == if cc.Some? then Extracted(cc.value, Now()) else NotExtracted(error, Now())
    {
      error := OutOfGas;
      var n := if copy.Some? then copy.value else |stack|;
      if n > |stack| {
        return None, StackUnderflow(n);
      }
      var taken, r := SplitTop(n);
      if r.Err? {
        return None, r.error;
      }
      var c := TakeOut(mode, taken, nargs);
      cc := Some(c);
    }

    method TakeOut(mode: SaveCr, taken: seq<Value>, nargs: Option<nat>) returns (cc: Cont)
      modifies this`stack, this`cr, this`code
      ensures Extracted(cc, Now()) == Detach(old(Now()), mode, old(stack), taken, nargs)
    {
      var save := SaveRegisters(mode);
      cc := Ord(ControlData(nargs, Some(stack), save, Some(cp)), code);
      stack := taken;
      code := EMPTY_CODE;
    }

    // ----- Loops -----

    method Repeat(body: Cont, after: Cont, n: nat) returns (r: Report)
      modifies this`stack, this`cr, this`code, this`cp, this`gas
      ensures Ended(r, Now()) == RepeatLoop(old(Now()), body, after, n)
    {
      r := JumpTo(if n == 0 then after else RepeatCont(n, body, after));
    }

    method Until(body: Cont, after: Cont) returns (r: Report)
      modifies this`stack, this`cr, this`code, this`cp, this`gas
      ensures Ended(r, Now()) == UntilLoop(old(Now()), body, after)
    {
      if !HasC0(body) {
        cr := cr.(c0 := Some(UntilCont(body, after)));
      }
      r := JumpTo(body);
    }

    method LoopWhile(cond: Cont, body: Cont, after: Cont) returns (r: Report)
      modifies this`stack, this`cr, this`code, this`cp, this`gas
      ensures Ended(r, Now()) == WhileLoop(old(Now()), cond, body, after)
    {
      if !HasC0(cond) {
        cr := cr.(c0 := Some(WhileCont(true, cond, body, after)));
      }
      r := JumpTo(cond);
    }

    method Again(body: Cont) returns (r: Report)
      modifies this`stack, this`cr, this`code, this`cp, this`gas
      ensures Ended(r, Now()) == AgainLoop(old(Now()), body)
    {
      r := JumpTo(AgainCont(body));
    }
  }
}
