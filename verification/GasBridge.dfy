/** The two layers meet: what the executor assumes about a run of the machine is
    what the machine's gas accounting guarantees. */
module GasBridge {
  import opened Util
  import opened Money
  import opened Cells
  import opened GasPricing
  import opened GasAccounting
  import opened Messages
  import opened ExecutorTypes
  import opened ActionSpec
  import opened PhaseSpec
  import opened TransactionProofs

  /** What a contract does with its gas, and what it commits, under given limits. */
  datatype Program = Program(effects: GasParams -> seq<GasOp>, commits: GasParams -> Option<(Cell, Chain)>)

  function Observe(g: Gas, committed: Option<(Cell, Chain)>): VmOutcome {
    VmOutcome(Max(Min(Spent(g), I64_MAX), 0), g.limit, g.credit, committed)
  }

  function VmOf(p: Program): Vm {
    (g: GasParams) => Observe(Run(NewGas(g), p.effects(g)).gas, p.commits(g))
  }

  lemma ProgramsMeetContract(p: Program)
    ensures GasContract(VmOf(p))
  {
    forall g: GasParams | g.limit <= g.max
      ensures VmOf(p)(g).limit <= g.max && (g.credit == 0 ==> VmOf(p)(g).credit == 0)
    {
      ProgramKeepsLimits(g, p.effects(g));
    }
  }

  /** Conservation with nothing assumed about the contract: any program, spawning any
      child machines and moving its limits as it likes, leaves the books balanced and
      never makes the executor charge more than the account has. */
  lemma AnyProgramConserves(cfg: Config, ex: Exec, external: bool, m: Inbound, p: Program)
    requires Started(ex)
    ensures Settled(ex, m, RunOrdinary(cfg, ex, external, m, VmOf(p)))
  {
    ProgramsMeetContract(p);
    TransactionSound(cfg, ex, external, m, VmOf(p));
  }
}
