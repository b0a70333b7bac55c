/** Stack values, continuations and control registers. */
module Values {
  import opened Util
  import opened Cells

  /** A cell together with the window of it that is still to be read. */
  datatype CellSlice = CellSlice(cell: Cell, bits0: nat, bits1: nat, refs0: nat, refs1: nat)

  datatype Value =
    | Null
    | NaN
    | Int(n: int)
    | CellValue(cell: Cell)
    | SliceValue(slice: CellSlice)
    | Builder(exotic: bool, data: seq<bool>, refs: seq<Cell>)
    | Tuple(items: seq<Value>)
    | ContValue(cont: Cont)

  datatype Regs = Regs(
    c0: Option<Cont>, c1: Option<Cont>, c2: Option<Cont>, c3: Option<Cont>,
    d0: Option<Cell>, d1: Option<Cell>,
    c7: Option<seq<Value>>)

  datatype ControlData = ControlData(nargs: Option<nat>, stack: Option<seq<Value>>, save: Regs, cp: Option<nat>)

  datatype Cont =
    | Quit(exitCode: int)
    | ExcQuit
    | PushInt(value: int, next: Cont)
    | RepeatCont(count: nat, body: Cont, after: Cont)
    | AgainCont(body: Cont)
    | UntilCont(body: Cont, after: Cont)
    | WhileCont(checkCond: bool, cond: Cont, body: Cont, after: Cont)
    | ArgExt(data: ControlData, ext: Cont)
    | Ord(data: ControlData, code: CellSlice)

  const MAX_DEPTH: nat := 0xff_ffff

  const EMPTY_CELL: Cell := Cell(Ordinary, [], [])
  const EMPTY_CODE: CellSlice := CellSlice(EMPTY_CELL, 0, 0, 0, 0)
  const NO_REGS: Regs := Regs(None, None, None, None, None, None, None)
}
