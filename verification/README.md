# TON virtual machine and transaction executor: a verified model

This project models the behaviour of a TON Virtual Machine and of the transaction
executor around it, and proves properties of that model. It has two layers.

**The executor** is a state machine over money, debt and logical time. An inbound
message is received; storage fees and the message's value are settled in the order its
bounce flag asks for; code is run for gas bought from the balance; the actions it
produced are carried out; and what is left may bounce. Each phase exists twice: as a
function on a record of the state (`Phases.dfy`, `Action.dfy`), about which the theorems
are proved, and as methods that update an object in place, as the
source does, each proved equal to its function and the whole transaction proved to keep the
books of the object (`ExecutorMachine.dfy`, `ActionMachine.dfy`). Below them lie
the arithmetic of gas and storage fees (`GasPrices.dfy`, `StorageFees.dfy`) and the
memoised counter over shared cell graphs (`CellStat.dfy`).

The theorems are of three kinds. Some speak of totals and order over whole transactions and
histories (`TransactionProofs.dfy`, `ActionProofs.dfy`, `History.dfy`). Some say exactly when
something happens and what it then does, in terms of the input rather than of the functions:
sending (`SendExactly.dfy`, `SendVerdict.dfy`, `SendMeaning.dfy`, `ExtraLimit.dfy`),
reserving (`ReserveMeaning.dfy`), the order and effect of actions (`ActionOrder.dfy`,
`ActionEffects.dfy`, `PhaseOutcome.dfy`), receiving, storage and running
(`ReceiveMeaning.dfy`, `StorageMeaning.dfy`, `ComputeMeaning.dfy`), bouncing
(`BounceMeaning.dfy`), and completing at all (`Completion.dfy`). And some connect
transactions: freezing and thawing (`Lifecycle.dfy`), and what storage costs over a history
(`HistoryLedger.dfy`).

**The virtual machine's kernel** consists of gas accounting with child machines
(`Gas.dfy`, `GasLaws.dfy`, `GasMachine.dfy`), continuations, calls and loops (`Cont.dfy`,
`ContLaws.dfy`, `ContMachine.dfy`), the opcode table (`Dispatch.dfy`), the encoding of
stacks as cells (`Codec.dfy`, `CodecProofs.dfy`, `StackBottom.dfy`, `CodecMachine.dfy`) and
division in three rounding modes (`Division.dfy`). `GasBridge.dfy` joins the layers: what the executor
assumes about a run of the machine is what gas accounting guarantees for every program.

Main results: `TransactionProofs.TransactionSound`, `BounceMeaning.TransactionMeaning`,
`Completion.TransactionCompletesIff`, `ActionProofs.ActionPhaseSound`,
`PhaseOutcome.PhaseMeaning`, `SendVerdict.SendIff`, `SendMeaning.SentMessageMeaning`,
`ReserveMeaning.ReserveIff`, `ComputeMeaning.ComputeMeaning`, `HistoryLedger.HistoryPaysEverySecond`,
`History.RangesIncrease`, `History.LedgerBalances`, `Lifecycle.FreezeAndThaw`,
`GasBridge.AnyProgramConserves`, `CellStat.FreshCounterIsExact`,
`GasPricing.BoughtGasIsGreatest`, `StorageFees.StorageFeeIsPerSecond`,
`GasAccounting.ChildCharge`, `GasMachine.Machine.RunAll`, `ContinuationLaws.CallReturnLaw`,
`ContinuationLaws.RepeatInstruction`, `ContinuationLaws.WhileInstruction`,
`Dispatch.LookupMeaning`, `StackCodecProofs.StackCodecIsFaithful` and
`Division.DivModIsDivision`.

`dafny verify dfyconfig.toml` checks everything.

## What is taken as given

- A cell is identified by its contents, as its representation hash identifies it.
- Currency collections add and subtract per currency, a missing one counting as zero, and
  fail on underflow and overflow; native amounts have 120 bits, extra amounts 248.
- The forwarding fee is the lump price and the rounded-up fixed-point price of cells and
  bits; the shard's part of it is its fraction of 2^16, rounded down.
- `div_rem` on big integers truncates, `>>` rounds down and `&` works on two's complement.
- Whether a built message fits into one cell, the root cells of dictionaries, and the
  hash of a state are parameters, so every theorem holds for all of them.
- What the code does between a loop's entry into it and its return is a parameter of the
  loop laws; so is what a program does with its gas.

## Where the code differs from what one would expect

- The limit of two extra currencies per message lets three through, because the check
  compares an index with the limit (executor/src/phase/action.rs:1149-1156):
  `ThreeCurrenciesAreSent` is such a message, `LimitCheckIff` and `SentLimitIff` say
  exactly which messages break the limit.
- An empty balance buys no gas even where the flat amount is free: `EmptyBalanceBuysNothing`
  and, exactly, `GasInverseIff`.
- A special account that can pay only part of its debt loses the money and keeps the whole
  debt: `SpecialAccountPaysInVain` and, exactly, `LedgerIff`.
- An account in debt is deleted only if it holds extra currencies, which are lost with it
  (executor/src/phase/storage.rs:103-110): `PennilessDebtorStays`, `DeletionDropsExtra` and,
  exactly, `DebtDecidesStatus`.
- A stack of a single item loads whatever the cell below it holds, although longer stacks
  must end in an empty cell (vm/src/stack.rs:513-528): `SingleItemOnAnything` and, exactly,
  `BottomIff`.
- The storage usage of a special account with three nested Merkle proofs can be recorded
  too low: `NestedProofsHideCells`. It is exact whenever no root is refused
  (`StorageUsedIsExact`, with `FreshCounterIsExact` for when that is); a refusal may or may
  not do harm (`RefusedYetExact`).

## Model

| member | source | states |
|---|---|---|
| `CellStat.FreshCounterIsExact` | executor/src/util.rs:140-165 | From a fresh counter, adding any roots of any shared cell graph succeeds if and only if the distinct reachable cells and their bit sum fit the limits and no reachable Merkle depth exceeds 2; on success the counters are exactly that cardinality and that bit sum |
| `CellStat.OrderIsIrrelevant` | executor/src/util.rs:140-165 | Verdict and counters depend only on the set of roots, not on their order or repetition |
| `CellStat.SeedingIsHarmless` | executor/src/util.rs:61-72 | Starting from a counter that has already visited cells the roots reach anyway changes neither the verdict nor the totals |
| `CellStat.VisitAllCounts` | executor/src/util.rs:144-165 | What the memoised traversal keeps from any intermediate state: visited cells, their depths and both counters describe the same set |
| `CellStat.VisitCounts` | executor/src/util.rs:144-165 | The same for one cell, including a failure half-way |
| `CellStat.ExtStorageStat.AddCellImpl` | executor/src/util.rs:144-165 | The recursive method with its loop over references computes the traversal, state and result |
| `CellStat.ExtStorageStat.AddCell` | executor/src/util.rs:140-142 | Reports whether the traversal of one root succeeded and leaves its counters |
| `CellStat.ExtStorageStat.AddCells` | executor/src/util.rs:112-131 | A loop over roots is the traversal of all of them and stops at the first failure |
| `CellStat.StorageUsedIsExact` | executor/src/lib.rs:599-705 | Adjusted from the previous record, the recorded usage is exact if and only if it fits into the record; counted again with cells cached from the limits check, it is exact for every storage none of whose roots is refused |
| `ExecutorTypes.StateCells` | executor/src/util.rs:312-365 | The cells counted for a state are those of its code, its data and its libraries |
| `CellStat.NestedProofsHideCells` | executor/src/lib.rs:660-680 | Storage with three nested Merkle proofs, which a special account may commit: the ignored refusal makes the count miss a cell |
| `CellStat.RefusedYetExact` | executor/src/lib.rs:660-680 | Storage that is refused as well but recorded exactly, so refusal alone does not decide it |
| `ExecutorTypes.StateExceedsIff` | executor/src/util.rs:312-365 | The state limits check accepts exactly the states whose distinct cells, bits and Merkle depths fit and whose public libraries are few enough |
| `GasPricing.BoughtGasIsGreatest` | executor/src/config.rs:287-313 | For a nonzero balance that covers the flat price, the bought gas is the greatest amount within the limit whose fee the balance pays |
| `GasPricing.GasInverseIff` | executor/src/config.rs:287-313 | For every balance: buying gas inverts the gas fee if and only if the balance is nonzero, or the limit is zero, or nothing is free; below the flat price no gas at all is affordable |
| `GasPricing.EmptyBalanceBuysNothing` | executor/src/config.rs:287-290 | Prices for which an empty balance could pay for the flat amount of gas but buys none |
| `GasPricing.InterpolationIsExact` | executor/src/config.rs:293-313 | Behind the threshold exit the 128-bit left shift cannot overflow, the result stays below the limit and the 64-bit fallback is unreachable |
| `GasPricing.BoughtGasMonotone` | executor/src/config.rs:287-313 | A larger balance never buys less gas |
| `GasPricing.GrantedGasIsPayable` | executor/src/config.rs:215-257 | Whatever a run uses up to the granted maximum, its fee does not exceed the account balance |
| `GasPricing.GasParamsBounds` | executor/src/config.rs:215-257 | Limit and credit never exceed the maximum; only external messages get credit |
| `GasPricing.GasFeeMonotone` | executor/src/config.rs:293-300 | More gas never costs less |
| `StorageFees.ComputeStorageFees` | executor/src/config.rs:153-212 | The loop from the latest segment down computes the segment sum; its time subtraction is safe for segments in any order and its saturating sums are one cap at 128 bits |
| `StorageFees.StorageFeeIsPerSecond` | executor/src/config.rs:153-212 | For sorted segments the fee is the sum over every second since the last payment of the price active in it, capped at 128 bits and rounded up once |
| `StorageFees.SegmentSumIsPerSecond` | executor/src/config.rs:184-211 | The segment walk and the second-by-second sum agree for every prefix of the segments and every interval |
| `StorageFees.ActiveRateIsLatest` | executor/src/config.rs:184-211 | The active price is that of the last segment already started, and zero before the first |
| `StorageFees.PricePerSecond` | executor/src/config.rs:184-211 | A second costs the active bit and cell price of the workchain for all bits and cells in use; the cap on that sum is never reached |
| `StorageFees.TwoInstalments` | executor/src/config.rs:184-211 | Paying in two intervals never costs less; it costs the single fee or exactly one unit more while the parts together stay below the 128-bit cap, and more than that beyond it |
| `StorageFees.FeeFits` | executor/src/config.rs:207-211 | Every storage fee is at most 2^112 and so fits into an amount |
| `Messages.RewritePreservesContent` | executor/src/phase/action.rs:1092-1124 | Moving state init or body to a cell of its own leaves what the receiver reads unchanged |
| `ActionProofs.RunActionGood` | executor/src/phase/action.rs:179-235 | Every single action, however it goes: success conserves native and extra money, keeps logical times consecutive, keeps a deleted account empty and counts once; failure leaves fine and fees covered |
| `ActionProofs.RunActionsInv` | executor/src/phase/action.rs:179-235 | The loop invariant over any action list: remaining + reserved + fine + fees + value and fee of every queued message is the starting balance, per extra currency remaining + reserved + sent is the start, and a deletion flag means nothing is left |
| `ActionProofs.SendLoopGood` | executor/src/phase/action.rs:188-198 | All outcomes of a send over all its attempts keep the books |
| `ActionProofs.RewriteValueBalances` | executor/src/phase/action.rs:956-1006 | However the forwarding fee is paid, the value that arrives plus the fee is exactly what is withdrawn |
| `ActionProofs.DoReserveGood` | executor/src/phase/action.rs:713-800 | A reservation in any mode moves money between remaining and reserved and loses none (how much: `ReserveMeaning.ReserveIff`) |
| `ActionProofs.MakePlanCounts` | executor/src/phase/action.rs:121-155 | A plan has one entry per stored action, and parsed plus skipped is the total |
| `ActionProofs.UnpackBounded` | executor/src/phase/action.rs:78-117 | An accepted action list holds at most 255 actions, from any depth on (which, and in what order: `ActionOrder.UnpackIff`) |
| `ActionProofs.ActionPhaseSound` | executor/src/phase/action.rs:50-332 | Every action phase on every list: the balance equation per currency, consecutive logical times, failure that only moves the fine from balance to fees, messages + special + skipped = total on success, an empty balance behind a deletion, and no error except an overflow that a valid value flow excludes |
| `SendMeaning.SentMessageMeaning` | executor/src/phase/action.rs:336-700 | Whichever attempt succeeded, the message sent has exactly the layout of that attempt and costs a fee for that layout's distinct cells; the receiver reads the requested state init and body, gets the native tokens and every extra currency the flags promise, and the account loses exactly that and the fee |
| `SendMeaning.MessageCells` | executor/src/phase/action.rs:541-577 | The cells a message is charged for are those below its state init and body and, unless in strict mode, of its extra currencies |
| `SendMeaning.FinishIntMeaning` | executor/src/phase/action.rs:594-651 | One finished internal message: its native value, each of its extra currencies, its travelling fee, its time, what is left, and what of the inbound value is used up |
| `SendMeaning.DeliverMeaning` | executor/src/phase/action.rs:602-651 | Withdrawal of an internal message's native value, extra currencies and fee |
| `ExtraLimit.LimitCheckIff` | executor/src/phase/action.rs:1158-1178 | In strict mode an otherwise valid message passes if and only if it names at most three extra currencies, empty amounts included; so the limit of two is enforced if and only if it does not name exactly three |
| `ExtraLimit.TooManyNeverSent` | executor/src/phase/action.rs:1149-1156 | A message that names more than three is never sent and costs nothing |
| `ExtraLimit.SentLimitIff` | executor/src/phase/action.rs:607-612 | Of the messages really sent in strict mode, exactly those that name three break the limit |
| `ExtraLimit.ThreeCurrenciesAreSent` | executor/src/phase/action.rs:1149-1156 | A message with three extra currencies that is sent although the limit is two |
| `ActionMachine.ActionContext.CheckSkipInvalid` | executor/src/phase/action.rs:364-374 | Skips or fails in place as the specification says |
| `ActionMachine.ActionContext.Collect` | executor/src/phase/action.rs:531-538 | Takes the fine from the remaining balance, in place |
| `ActionMachine.ActionContext.FinishInternal` | executor/src/phase/action.rs:594-651 | Updates the context to the specified step for an internal message |
| `ActionMachine.ActionContext.FinishExternal` | executor/src/phase/action.rs:652-671 | The same for an external message |
| `ActionMachine.ActionContext.DoSendMessage` | executor/src/phase/action.rs:336-700 | One attempt to send, branch by branch, equals the specified attempt |
| `ActionMachine.ActionContext.SendWithRewrites` | executor/src/phase/action.rs:188-198 | The retry loop makes between one and three attempts and equals the specified send |
| `ActionSpec.Attempts` | executor/src/phase/action.rs:1035-1042 | The number of attempts of a send, from any rewrite on, is at most the rewrites left plus one |
| `ActionMachine.ActionContext.ReserveBalance` | executor/src/phase/action.rs:713-800 | The in-place reservation equals its specification, whose meaning is `ReserveMeaning.ReserveIff` |
| `ActionMachine.ActionContext.UpdateLibrary` | executor/src/phase/action.rs:802-930 | The in-place library change equals its specification |
| `ActionMachine.ActionContext.PerformAll` | executor/src/phase/action.rs:179-235 | The action loop equals the specified fold over the list and stops at the first failure |
| `ActionMachine.UnpackActions` | executor/src/phase/action.rs:78-117 | The loop over the linked action list yields its items oldest first, or the error |
| `ActionMachine.ParseActions` | executor/src/phase/action.rs:121-155 | The parsing loop yields the specified plan, skipping exactly the items it may skip |
| `ActionMachine.FailureStops` | executor/src/phase/action.rs:208-235 | Once an action has failed, the rest of the list changes nothing |
| `ActionOrder.UnpackIff` | executor/src/phase/action.rs:78-117 | A stored list is accepted if and only if it has at most 255 links and ends in an ordinary cell without data; the action of the i-th link from the outside is then number n-1-i; otherwise the code and the place of the first fault are these |
| `ActionOrder.PlanMeaning` | executor/src/phase/action.rs:121-155 | Item by item: what parses is kept, what may be skipped leaves a gap, and the first other item refuses the list, asking for a bounce exactly if it is a send with that flag |
| `ActionOrder.OutermostRunsLast` | executor/src/phase/action.rs:123-235 | The action stored outermost runs last, on the context all inner links left, and only if none of them failed |
| `ActionEffects.SendMeansOneOf` | executor/src/phase/action.rs:336-700 | Over all attempts a send makes one message or is skipped if it may be or fails; despite the ignore flag it fails only if it is malformed, has flags that exclude each other, or speaks for another account; what sends do not touch stays |
| `ActionEffects.CellBudget` | executor/src/phase/action.rs:519-528 | The number of cells a send may visit is the greatest within the limit whose fine the available tokens pay |
| `ActionEffects.LibraryEffect` | executor/src/phase/action.rs:802-930 | A library change touches one library only: it is there afterwards, public or private as asked, or gone; nothing changes on failure |
| `ActionEffects.LibraryFailsIff` | executor/src/phase/action.rs:802-930 | A library change fails if and only if it asks for both kinds, or adds by hash what is not there, or adds or relabels what has too many distinct cells; with the code for each |
| `ActionEffects.ActionEffect` | executor/src/phase/action.rs:179-235 | What every action does to the new state, the place it reports, and that it asks for a bounce if and only if its own flag says so |
| `ActionEffects.ListOutcome` | executor/src/phase/action.rs:179-235 | Any list either goes through or fails at one action, all before it having gone through; the data to be stored is what the code committed |
| `PhaseOutcome.TooLargeIff` | executor/src/phase/action.rs:239-275 | The new state is refused if and only if the account is not special, the state has changed, and its distinct cells, bits, Merkle depths or public libraries are beyond the limits |
| `PhaseOutcome.PhaseMeaning` | executor/src/phase/action.rs:50-332 | Every action phase that ends: unreadable list, unreadable item, failed action, state too large or complete, with code, place, price, state, status, messages, fees and record of each |
| `PhaseOutcome.BounceIsAskedFor` | executor/src/phase/action.rs:121-275 | A phase asks for a bounce if and only if its first unreadable item is a send with the flag, or the action that failed has the flag, or the new state is too large |
| `PhaseOutcome.ReportMeaning` | executor/src/phase/action.rs:237-332 | The record of the phase and the balance, fees and status it leaves; the account is deleted if the last word on it was to do so, for good if nothing is left |
| `ReserveMeaning.ReserveIff` | executor/src/phase/action.rs:713-800 | While the money in play fits amounts, a reserve succeeds if and only if its flags go together, the amount can be named and what is left holds it, with the code of each failure; per currency, exactly the named amount is set aside, or with the all-but flag is all that stays, in strict mode for native tokens only |
| `ReserveMeaning.AmountMeaning` | executor/src/phase/action.rs:726-752 | The amount a reserve names: the value, the original balance and the value, or the original balance less the value; it cannot be named if and only if that is negative or too large |
| `ReserveMeaning.SplitMeaning` | executor/src/phase/action.rs:778-796 | Which half of the balance is reserved and which stays, per currency and for every flag |
| `SendExactly.ForwardingPrice` | executor/src/phase/action.rs:585-590 | The forwarding fee is the lump price and the least amount that pays for all cells and bits |
| `SendExactly.ShardShare` | executor/src/phase/action.rs:620-622 | The part of the fee the shard keeps is the largest within its share |
| `SendExactly.QuarterPrice` | executor/src/phase/action.rs:490-494 | The fine per cell is a quarter of the price of a cell, and nothing for a special account |
| `SendExactly.CountableIff` | executor/src/phase/action.rs:523-577 | A message can be counted if and only if its distinct cells are within the limits and the fine for all of them is covered by what may be spent on it |
| `SendExactly.FinishExactly` | executor/src/phase/action.rs:594-651 | A counted internal message is sent, laid out anew, or refused with the code of the first thing that speaks against it: tokens, number of extra currencies, extra currencies, fit |
| `SendExactly.SizedExactly` | executor/src/phase/action.rs:485-700 | One attempt of any message: when it is sent, repeated or refused, the code, and the fine: for each distinct cell if they could be counted, never more than may be spent on counting |
| `SendVerdict.LayoutMeaning` | executor/src/phase/action.rs:398-425 | What each layout moves into a cell of its own, and that the rest stays as it was |
| `SendVerdict.SendIff` | executor/src/phase/action.rs:336-700 | A whole send with sound flags and source: it makes a message if and only if nothing speaks against the last layout tried, which is the first that is not refused for not fitting into a cell; otherwise it is skipped or fails with that reason and that fine |
| `SendVerdict.HopelessFails` | executor/src/phase/action.rs:345-412 | A malformed send, one with flags that exclude each other, or one in another account's name fails at once without a fine, whatever it ignores; it has its own code if and only if just the source is wrong |
| `TransactionProofs.ReceiveSound` | executor/src/phase/receive.rs:23-160 | Receiving accounts for the inbound value and routing fee, charges the import fee, burns at the blackhole, and puts the start after the message's logical time |
| `TransactionProofs.StorageSound` | executor/src/phase/storage.rs:38-162 | The storage phase moves money only from balance to fees and clamps the message balance to what is left (how much: `StorageMeaning.StorageExactly`) |
| `TransactionProofs.CreditSound` | executor/src/phase/credit.rs:23-41 | Crediting adds the message balance per currency, and afterwards the balance covers it |
| `TransactionProofs.ComputeSound` | executor/src/phase/compute.rs:93-366 | For every machine that respects its gas limits, the message remainder and the gas fee never exceed the balance, and money only moves to the fees |
| `TransactionProofs.SendBackSound` | executor/src/phase/bounce.rs:118-196 | The bounced value never exceeds the balance left by gas and fine; the message takes the next logical time |
| `TransactionProofs.BounceSound` | executor/src/tx/ordinary.rs:115-141 | The bounce decision keeps the books whether or not a message goes back (when it does: `BounceMeaning.BounceDecision`) |
| `TransactionProofs.TransactionSound` | executor/src/tx/ordinary.rs:14-155 | Every ordinary transaction that succeeds: old balance + inbound value + routing fee = new balance + fees + burned + value and fee of every outbound message, and the same per extra currency; inbound time < start < outbound times, consecutive, end = start + 1 + number of messages; no subtraction falls short, and an overflow means the inputs were already out of range |
| `ReceiveMeaning.ImportFeeMeaning` | executor/src/phase/receive.rs:60-79 | An external message can be imported if and only if its root and the distinct cells below fit the limits, or it has no references; the fee is for the distinct cells below the root |
| `ReceiveMeaning.ReceiveIff` | executor/src/phase/receive.rs:23-160 | A message is received if and only if it is an inbound one for this account, can be read and, if external, fits and is paid for; what is credited, charged, burned and set is stated exactly |
| `StorageMeaning.StorageExactly` | executor/src/phase/storage.rs:38-162 | Collected is the smaller of balance and fee plus debt; the debt of an ordinary account afterwards is the rest, none if nothing is left; its last payment is now; a special account has no clock and keeps a debt it cannot pay in full |
| `StorageMeaning.StorageIff` | executor/src/phase/storage.rs:38-66 | A storage phase happens if and only if time has not gone backwards and the fees do not overflow |
| `StorageMeaning.OrderMatters` | executor/src/tx/ordinary.rs:37-67 | A bounceable message does not pay for storage; any other is credited first and keeps at most what is left of the balance |
| `StorageMeaning.EverySecondOnce` | executor/src/phase/storage.rs:47-66 | The fees of phases linked by their last payment under fixed prices and usage add up to the price of every second from the first payment to the last, each once, and less than one unit more per phase |
| `ComputeMeaning.GasMeaning` | executor/src/config.rs:215-257 | An ordinary account that can pay for gas is granted the most its balance pays for, of which the message may use the most its own value pays for; a special account its own limit whatever its balance; only external messages get credit |
| `ComputeMeaning.DeployIff` | executor/src/phase/compute.rs:151-242 | The state is taken from the message if and only if the account has none of its own, the hash is the one wanted and the state fits the limits; an account's own state runs unless an external message comes with another's |
| `ComputeMeaning.ComputeMeaning` | executor/src/phase/compute.rs:93-366 | Code runs if and only if there is gas and a state to run it in; it is accepted if and only if no credit is left; an accepted run of an ordinary account pays for the smaller of gas used and limit, any other pays nothing; the new state is the one that ran, its data and actions replaced exactly by what an accepted run committed |
| `BounceMeaning.BounceExactly` | executor/src/phase/bounce.rs:39-196 | The way back is taken if and only if its distinct cells fit the limits and what is left covers gas, fine and fee; the message carries the rest, and nothing else changes |
| `BounceMeaning.BounceDecision` | executor/src/tx/ordinary.rs:115-141 | From what the action phase handed on to the end of the transaction: when the message goes back, with what, and which messages, flags and state the transaction has |
| `BounceMeaning.TransactionMeaning` | executor/src/tx/ordinary.rs:14-155 | Every completed transaction sends its message back if and only if the header is internal with its bounce flag, the run did not succeed or the actions ask for it, and the way back fits and is paid for; it is then the only message and carries what is left less gas, fine and fee; otherwise the messages are those of the actions; the committed data is stored exactly if all went through |
| `Completion.TransactionCompletesIff` | executor/src/tx/ordinary.rs:14-155 | If the value flow is valid, a transaction completes if and only if its message arrives, time has not gone backwards, an external message is accepted by a run that needs no credit, and a message that must go back says where to; each failure has its own reason |
| `GasBridge.ProgramsMeetContract` | vm/src/gas.rs:486-569 | Any program over the machine's gas operations, with child machines of any depth, meets the gas contract the executor relies on |
| `GasBridge.AnyProgramConserves` | executor/src/phase/compute.rs:314-343 | For any program whatever: conservation in every currency, ordered logical times, and no shortfall |
| `History.Begin` | executor/src/lib.rs:132-200 | A transaction starts at or after both the minimum and the account's last logical time, with nothing spent yet |
| `History.Commit` | executor/src/lib.rs:422-574 | A surviving account keeps balance and debt, and its last logical time is the end of the transaction |
| `Lifecycle.CommitMeaning` | executor/src/lib.rs:536-574 | An account is gone if and only if it was deleted or has neither state nor money; otherwise its state is stored if active, its hash if frozen, and neither if that hash is its address |
| `Lifecycle.ThawIff` | executor/src/phase/compute.rs:176-228 | A frozen account takes the state of a message if and only if its hash is the one it was frozen with and the state fits the limits, wherever that hash is kept |
| `Lifecycle.FreezeAndThaw` | executor/src/lib.rs:549-574 | An account frozen with a state and found by an accepted message that brings it is stored with that state again, as the run left its data |
| `Lifecycle.StaysFrozen` | executor/src/phase/compute.rs:176-228 | Any other message does not run and changes nothing |
| `History.RangesIncrease` | executor/src/lib.rs:155-160 | The logical time ranges of consecutive transactions of a surviving account are disjoint and increasing |
| `History.MessagesAreOrdered` | executor/src/lib.rs:455-465 | Every message of an earlier transaction is older than every message of a later one |
| `History.HistoryConserves` | executor/src/lib.rs:422-534 | Over any number of transactions of a surviving account, initial balance plus everything received is final balance plus everything paid, burned and sent |
| `History.LedgerIff` | executor/src/phase/storage.rs:47-129 | Exactly when one storage phase keeps its books: unless the account is special and has some money but less than its debt |
| `History.SpecialAccountPaysInVain` | executor/src/phase/storage.rs:84-129 | A special account that owes 10 and has 4 loses the 4 and still owes 10 |
| `History.LedgerBalances` | executor/src/phase/storage.rs:47-129 | Over any sequence of storage phases of an ordinary account: total collected + final debt = total fees + initial debt |
| `HistoryLedger.PaymentMeaning` | executor/src/lib.rs:422-574 | The one storage phase of a transaction starts from the last payment, debt and usage of the account's record, and what it leaves is what the next record says: nothing else in a transaction touches them |
| `HistoryLedger.HistoryOwes` | executor/src/phase/storage.rs:47-129 | Over the whole history of an ordinary account, what was ever collected for storage with what is still owed is what storage has cost with what was owed at first |
| `HistoryLedger.HistoryPaysEverySecond` | executor/src/phase/storage.rs:47-66 | Over the whole history of an ordinary account with one price, storage costs the price of every second from its first record to its last transaction, each once, and less than one unit more per transaction |
| `History.DebtDecidesStatus` | executor/src/phase/storage.rs:84-129 | A whole storage phase deletes an account if and only if it is not special, has no code, is not a frozen one under the protection of frozen accounts, owes more than the limit afterwards and holds some extra currency; and freezes one if and only if it has code and owes more than the freezing limit |
| `History.PennilessDebtorStays` | executor/src/phase/storage.rs:103-110 | An account without code that owes more than the limit and has no extra currency is not deleted |
| `History.DeletionDropsExtra` | executor/src/phase/storage.rs:103-110 | The same account with an extra currency is deleted, and committing it drops that currency |
| `History.CommitDropsIff` | executor/src/lib.rs:536-574 | Committing loses money if and only if the account ends deleted with a balance |
| `ExecutorMachine.ExecutorState.ReceiveInMsg` | executor/src/phase/receive.rs:23-160 | The in-place receive phase equals its specification |
| `ExecutorMachine.ExecutorState.ChargeStorage` | executor/src/phase/storage.rs:38-162 | The in-place storage phase equals its specification |
| `ExecutorMachine.ExecutorState.CreditMessage` | executor/src/phase/credit.rs:23-41 | The in-place credit phase equals its specification |
| `ExecutorMachine.ExecutorState.Compute` | executor/src/phase/compute.rs:93-366 | The in-place compute phase equals its specification, skips and deployment included |
| `ExecutorMachine.ExecutorState.Act` | executor/src/phase/action.rs:50-332 | Unpacking, parsing, the action loop and the conclusion together: the state keeps every amount of every currency, its messages take consecutive times, and a failure moves only the fine |
| `ExecutorMachine.ExecutorState.FineOnError` | executor/src/phase/action.rs:932-954 | The in-place fine equals its specification |
| `ExecutorMachine.ExecutorState.Bounce` | executor/src/phase/bounce.rs:39-196 | The in-place bounce phase equals its specification |
| `ExecutorMachine.ExecutorState.RunOrdinaryTransaction` | executor/src/tx/ordinary.rs:14-155 | After a transaction on a state just begun: what it had and what came in is what it has, collected, burned and sent, in every currency; times are in order; it never lacked what it was charged |
| `ExecutorMachine.ExecutorState.RunPhases` | executor/src/tx/ordinary.rs:14-155 | The sequence of in-place phases equals the specified transaction, in either order of storage and credit |
| `ExecutorMachine.ExecutorState.CommitAccount` | executor/src/lib.rs:422-574 | Stores the balance and the end of logical time; an account with money disappears only if it was deleted |
| `ExecutorMachine.ExecuteOrdinary` | executor/src/lib.rs:88-107 | Begin, run and commit: a surviving account is conserved in every currency, and its next transaction lies after all messages of this one |
| `GasAccounting.RunKeeps` | vm/src/gas.rs:486-569 | Whatever a program does to its gas: limit and maximum stay within the cap, consumption never goes down, credit never comes back |
| `GasAccounting.ChildCharge` | vm/src/state.rs:944-985 | Whatever a child machine does, limit changes and grandchildren included, its parent pays min(consumed, limit + 1), keeps at least -1, and is exhausted by it if and only if the child's limit was all the parent had and was overrun |
| `GasAccounting.ProgramKeepsLimits` | vm/src/gas.rs:336-359 | From fresh gas parameters, every program keeps its limit at or below the maximum |
| `GasAccounting.LoadsCost` | vm/src/gas.rs:589-632 | Loading any cells costs 100 for each distinct new cell and 25 for each repetition |
| `GasLaws.RunsOutIff` | vm/src/gas.rs:557-569 | A series of uses goes through if and only if what is left pays for all of it |
| `GasLaws.FreshGasIs` | vm/src/gas.rs:336-359 | A machine may use its limit and its credit together and nothing beyond |
| `GasLaws.LimitMeaning` | vm/src/gas.rs:486-500 | Setting a limit gives up all credit and moves the limit within the maximum; what was spent stays spent |
| `GasLaws.SetGasIff` | vm/src/gas.rs:486-500 | A limit below what was spent fails; after any other the machine goes on to exactly that limit |
| `GasLaws.FreeIsFree` | vm/src/gas.rs:571-574 | Free gas is recorded and costs nothing now |
| `GasLaws.CallMeaning` | vm/src/gas.rs:369-460 | A call happens if and only if what was free can be paid for where it must; the child starts with what it was promised, at most what is left, and the parent pays for it and learns its loaded cells unless it was isolated |
| `GasLaws.NeverForgets` | vm/src/gas.rs:369-460 | No program, however it ends, forgets a cell it has loaded |
| `GasLaws.LoadInChild` | vm/src/gas.rs:369-460 | A cell loaded before a call costs 25 in the child, and 100 in an isolated one |
| `GasMachine.GasConsumer.TryConsume` | vm/src/gas.rs:557-569 | The counter goes down, saturating, even when it reports exhaustion |
| `GasMachine.GasConsumer.SetGasLimit` | vm/src/gas.rs:486-500 | Limit, credit, base and remaining change together as specified |
| `GasMachine.GasConsumer.DeriveChild` | vm/src/gas.rs:369-428 | The consumer becomes the child's; what is handed back is the waiting parent |
| `GasMachine.GasConsumer.RestoreParent` | vm/src/gas.rs:430-460 | The consumer becomes the parent's again, charged for the child |
| `GasMachine.Machine.RunInner` | vm/src/state.rs:362-413 | Runs until the machine that is current then ends, children spawned on the way included; every iteration is paid for, and without children the bound is (spent / 5) + 1 |
| `GasMachine.Machine.Step` | vm/src/state.rs:287-332 | An iteration that goes on has consumed at least 5 gas, and enough for the end of a child it spawned |
| `GasMachine.Machine.RunAll` | vm/src/state.rs:334-360 | Every run, with child machines of any depth, ends with a nonzero code and no machine waiting, after at most (2 * (max(base, maximum) - spent) + 5) / 5 iterations of all machines together; without children after at most (max(base, maximum) - spent) / 5 + 1 |
| `GasMachine.Machine.Spawn` | vm/src/instr/contops.rs:1527-1580 | The running machine waits with gas left and its child takes over within that gas, or the run is out of gas |
| `GasMachine.Machine.Resume` | vm/src/state.rs:944-1010 | The waiting machine takes over again, charged at least what its child spent while it could go on, or ends in turn |
| `GasMachine.TotalBound` | vm/src/gas.rs:369-428 | All waiting machines and the running one together never spend more than the first one may |
| `GasMachine.LimitedTotals` | vm/src/gas.rs:734-748 | Over any series of cheap calls the account pays the smaller of threshold and total, and the rest is recorded as free gas |
| `Continuations.JumpOnce` | vm/src/cont.rs:482-1079 | Every jump leads to a continuation strictly nested in the one it left, so chains of jumps end; where they lead is stated by the laws below |
| `ContinuationLaws.MergeMeaning` | vm/src/cont.rs:94-116 | Merging replaces exactly the registers that were saved, each by its own |
| `ContinuationLaws.PreclearMeaning` | vm/src/cont.rs:94-116 | Clearing empties exactly the registers about to be replaced |
| `ContinuationLaws.QuitEnds` | vm/src/cont.rs:482-484 | A jump to a quit continuation ends the machine with a code that added to its exit code gives -1; so never with zero unless the exit code is -1 |
| `ContinuationLaws.ExcQuitEnds` | vm/src/cont.rs:534-541 | The default exception handler ends the machine with the complement of the top of the stack if that is a number from 0 to 65535, and else of the number of the error that stopped it |
| `ContinuationLaws.DefaultReturnEnds` | vm/src/state.rs:503-545 | A return through the c0 that capturing leaves behind ends the machine with the code for `quit0` |
| `ContinuationLaws.PushIntMeaning` | vm/src/cont.rs:596-602 | Pushing puts its number on top of everything that was there |
| `ContinuationLaws.FlagMeaning` | vm/src/stack.rs:291-297 | What a loop takes for its condition: the top of the stack, which must be a number and is true if not zero; with the error for everything else |
| `ContinuationLaws.UnknownCodepage` | vm/src/cont.rs:1072-1079 | Code for another codepage, or for none, is not entered |
| `ContinuationLaws.NestedJumpsCost` | vm/src/state.rs:823-844 | Any number of nested jumps costs one unit of gas for each beyond the eighth, and all of them happen |
| `ContinuationLaws.CallPassesAll` | vm/src/state.rs:607-708 | A call without a number of values passes the whole stack below the closure of what it calls, or fails for want of gas |
| `ContinuationLaws.CallWithC0` | vm/src/state.rs:585-620 | A call of a continuation with a saved c0 is a jump |
| `ContinuationLaws.CountedReturnLaw` | vm/src/state.rs:851-854 | A return with a number of values hands over that many, unless the caller counts them itself, and fails exactly for want of values or gas |
| `ContinuationLaws.AdjustMeaning` | vm/src/state.rs:736-821 | A jump with arguments fails for want of items exactly when stated, otherwise needs exactly the stated gas, and then the new stack is the closure followed by the top items in order |
| `ContinuationLaws.ResumeLaw` | vm/src/state.rs:710-821 | Jumping to a stored continuation brings back its code, codepage and saved registers, with its items below the handed-over ones |
| `ContinuationLaws.CallReturnLaw` | vm/src/state.rs:607-708 | For every continuation without a saved c0, of any kind: it is followed with its closure and the caller's top p values, or as many of them as it counts; any later return through the c0 it was given goes on with the caller's code, its old c0, and its remaining stack followed by the top r values of the callee or all of them |
| `ContinuationLaws.CallEnters` | vm/src/state.rs:607-708 | A call of any continuation without a saved c0 fails exactly for want of values or gas, or follows it from the stated entry state |
| `ContinuationLaws.ReturnLaw` | vm/src/state.rs:846-854 | The return half, from any later state with the callee's c0 |
| `ContinuationLaws.CalleeStarts` | vm/src/cont.rs:987-1079 | Code, with any envelopes around it, starts with that c0, and plain code with exactly that stack |
| `ContinuationLaws.PlainCallReturnLaw` | vm/src/state.rs:585-605 | A plain call and return share one stack and restore code, codepage and c0 |
| `ContinuationLaws.CaptureLaw` | vm/src/state.rs:503-545 | Capturing the current continuation splits the stack in two without losing or reordering an item, moves exactly the registers asked for, and fails only for want of items or gas |
| `ContinuationLaws.ComeBackLaw` | vm/src/state.rs:503-545 | A captured continuation, jumped to from any state, restores code, codepage and exactly the registers it saved |
| `ContinuationLaws.EntersWithC0` | vm/src/cont.rs:987-1079 | Code without a saved c0 starts with the c0 it was entered with, through any chain of envelopes |
| `ContinuationLaws.MachineFollows` | vm/src/state.rs:823-849 | If every return does what an unrolling says, the machine runs through the unrolling turn by turn |
| `ContinuationLaws.RepeatLaw` | vm/src/state.rs:866-877 | `repeat` with n, for any body that returns through c0: turns 0 to n-1 enter the body in the state the previous one left, turn n enters `after` |
| `ContinuationLaws.RepeatCounts` | vm/src/cont.rs:668-690 | The unrolling is inside the loop for exactly n turns and has no turn after n |
| `ContinuationLaws.UntilLaw` | vm/src/state.rs:879-887 | `until` enters the body until it leaves true, then `after` |
| `ContinuationLaws.WhileLaw` | vm/src/state.rs:889-899 | `loop_while` enters cond, then body and cond as often as cond leaves true, then `after` |
| `ContinuationLaws.AgainLaw` | vm/src/state.rs:901-903 | `again` enters its body at every turn |
| `ContinuationLaws.RepeatInstruction` | vm/src/instr/contops.rs:585-596 | REPEAT and REPEATBRK: after exactly n bodies the code behind the instruction goes on with what the last body left, under the old c0 (and c1) |
| `ContinuationLaws.NothingToRepeat` | vm/src/instr/contops.rs:585-596 | REPEAT with a count of zero or less takes its operands and goes on |
| `ContinuationLaws.WhileInstruction` | vm/src/instr/contops.rs:634-643 | WHILE and WHILEBRK: once the condition leaves false, after any number of rounds, the code behind the instruction goes on |
| `ContinuationLaws.UntilInstruction` | vm/src/instr/contops.rs:615-620 | UNTIL and UNTILBRK: once the body leaves true, after any number of rounds, the code behind the instruction goes on |
| `ContinuationMachine.VmState.JumpCont` | vm/src/cont.rs:482-1079 | The in-place jump of every kind of continuation equals its specification |
| `ContinuationMachine.VmState.AdjustJumpCont` | vm/src/state.rs:736-821 | The in-place hand-over of arguments equals its specification, partial updates on failure included |
| `ContinuationMachine.VmState.FollowJumps` | vm/src/state.rs:823-844 | The loop of `do_jump_to` ends and equals the specified chain of jumps, with one gas unit for each jump beyond the eighth |
| `ContinuationMachine.VmState.CallCont` | vm/src/state.rs:585-605 | The in-place call equals its specification |
| `ContinuationMachine.VmState.CallContExt` | vm/src/state.rs:607-708 | The in-place call with arguments equals its specification |
| `ContinuationMachine.VmState.Return` | vm/src/state.rs:846-849 | The in-place return equals its specification |
| `ContinuationMachine.VmState.ReturnExt` | vm/src/state.rs:851-854 | The in-place return with a number of values equals its specification |
| `ContinuationMachine.VmState.Extract` | vm/src/state.rs:503-545 | The in-place capture equals its specification |
| `ContinuationMachine.VmState.Repeat` | vm/src/state.rs:866-877 | Starts the specified loop |
| `ContinuationMachine.VmState.Until` | vm/src/state.rs:879-887 | Starts the specified loop |
| `ContinuationMachine.VmState.LoopWhile` | vm/src/state.rs:889-899 | Starts the specified loop |
| `ContinuationMachine.VmState.Again` | vm/src/state.rs:901-903 | Starts the specified loop |
| `Dispatch.Opcodes.AddOpcode` | vm/src/dispatch.rs:288-315 | A registration is accepted if and only if it shares no word with any registered opcode; the order is kept, and a rejected one changes nothing |
| `Dispatch.Opcodes.AddSimple` | vm/src/dispatch.rs:148-171 | Registers all words with the given prefix, under the same condition |
| `Dispatch.Opcodes.AddFixed` | vm/src/dispatch.rs:173-197 | The same for an opcode with argument bits |
| `Dispatch.Opcodes.AddFixedRange` | vm/src/dispatch.rs:199-224 | The same for a range of prefixes |
| `Dispatch.Opcodes.Build` | vm/src/dispatch.rs:318-342 | The built table covers all 24-bit words, each exactly once, and holds exactly the registered opcodes besides dummies |
| `Dispatch.Lookup` | vm/src/dispatch.rs:94-112 | The binary search finds an entry that owns the word |
| `Dispatch.OwnerIsUnique` | vm/src/dispatch.rs:94-112 | No word belongs to two entries of a table |
| `Dispatch.LookupMeaning` | vm/src/dispatch.rs:94-112 | The entry found is the registered opcode that owns the word, or a dummy if and only if there is none |
| `Dispatch.DecodeUsesOwnBits` | vm/src/dispatch.rs:87-92 | Two code slices that agree on the chosen opcode's bits choose the same opcode, so zero padding of short code is harmless |
| `Dispatch.FetchOpcode` | vm/src/dispatch.rs:74-79 | From a code slice to the instruction: the one registered opcode that owns the word runs with exactly its own bits as argument; the opcode is invalid if and only if none does or the slice is too short |
| `StackCodecProofs.StackCodecIsFaithful` | vm/src/stack.rs:474-531 | Every stack within the depth limit of null, NaN, 257-bit integers, cells, slices, builders and nested tuples stores, and loading gives back the same values and uses up the input exactly |
| `StackCodecProofs.StackRoundTrip` | vm/src/stack.rs:474-531 | The same behind anything already in the builder and before anything that follows |
| `StackCodecProofs.StackStoresIff` | vm/src/stack.rs:474-500 | Storing succeeds if and only if the stack is not too deep, its values are storable and there is room, and then appends exactly one piece |
| `StackCodecProofs.ValueRoundTrip` | vm/src/stack.rs:82-152 | Every well-formed value that stores loads back, leaving what follows untouched; only the exotic mark of a builder is lost |
| `StackCodecProofs.EncodesIff` | vm/src/stack.rs:843-858 | A value stores if and only if its integers fit 257 bits, its tuples have at most 65535 items and it holds no continuation |
| `StackCodecProofs.CanonicalIff` | vm/src/stack.rs:1041-1055 | Storing loses something if and only if there is an exotic builder inside |
| `StackCodecProofs.TagMeaning` | vm/src/stack.rs:843-1055 | Every stored value starts with the byte of its kind and has the size of its kind |
| `StackCodecProofs.BigRoundTrip` | vm/src/stack.rs:92-106 | A large integer is told from NaN by the bits behind their common tag |
| `StackCodecProofs.SliceRoundTrip` | vm/src/stack.rs:1306-1352 | A slice's window survives packing into 26 bits |
| `StackCodecProofs.SpineRoundTrip` | vm/src/stack.rs:119-145 | Items nested to the left come back in order |
| `StackCodecProofs.RestRoundTrip` | vm/src/stack.rs:487-528 | The items below the top come back from their chain of cells |
| `StackBottom.BottomIff` | vm/src/stack.rs:502-531 | A stack that loads still loads with any other cell below its lowest item if and only if that cell is ordinary and empty or the stack has a single item |
| `StackBottom.LoadedBottom` | vm/src/stack.rs:513-528 | A stack of two or more items that loads ends in an ordinary empty cell |
| `StackBottom.SingleItemOnAnything` | vm/src/stack.rs:509-519 | One null on top of any cell whatever loads |
| `StackCodecMachine.TupleCells` | vm/src/stack.rs:1215-1238 | The loop that swaps and pairs two cells builds the left-nested layout |
| `StackCodecMachine.StoreValue` | vm/src/stack.rs:1215-1251 | Storing a value, tuples by their loop, equals the specified encoding or error |
| `StackCodecMachine.StoreWholeStack` | vm/src/stack.rs:474-500 | The storing loop equals its specification, errors included |
| `StackCodecMachine.LoadSpineItems` | vm/src/stack.rs:126-145 | The loop that reads a tuple backwards and reverses it equals its specification |
| `StackCodecMachine.LoadRestItems` | vm/src/stack.rs:513-528 | The loop that reads a stack backwards and reverses it equals its specification |
| `StackCodecMachine.LoadValue` | vm/src/stack.rs:82-152 | Loading a value equals its specification |
| `StackCodecMachine.LoadWholeStack` | vm/src/stack.rs:502-531 | Loading a stack equals its specification |
| `Division.DivModIsDivision` | vm/src/instr/arithops.rs:882-913 | In every mode, for every x and nonzero y: x = q*y + r with r/y in [0,1) for floor, (-1,0] for ceiling and [-1/2,1/2) for nearest |
| `Division.DivisionIsUnique` | vm/src/instr/arithops.rs:882-913 | These conditions determine quotient and remainder |
| `Division.DivAndModAgree` | vm/src/instr/arithops.rs:826-880 | The one-sided operations agree with the two-sided one |
| `Division.ShiftsAreDivisions` | vm/src/instr/arithops.rs:914-945 | Shift and mask forms, by repeated halving and by bitwise and on two's complement, equal division by the power of two in every mode |
| `Division.ShiftAndMask` | vm/src/instr/arithops.rs:914-945 | Shifting and masking split every number, negative ones included, into its high and its low bits |
| `Division.ShiftByZeroIgnoresMode` | vm/src/instr/arithops.rs:360-362 | Forcing floor for a shift by zero changes no result |
| `Division.DivModOverflowsOnce` | vm/src/instr/arithops.rs:252-318 | Of two 257-bit operands only the smallest number divided by minus one overflows; otherwise the pushed pair is the division |

## Left out

- Byte-level parsing and building of messages, bags of cells, dictionaries and hashing: another library's work; parsed messages and actions are datatypes, failures to parse are explicit.
- Dictionaries with invalid contents, inside extra currencies or libraries: the model's maps are always valid.
- Logical times are unbounded numbers: reaching the end of 64 bits is not modelled.
- The limit on the depth of a built cell, which belongs to the cell library.
- History.HistoryConserves: speaks of accounts that survive each commit, because a deleted account leaves no record to compare with.
- SendVerdict.SendIff: for amounts and fines in the range an amount can hold, as all stored ones are; what a refused message that could not be counted is fined is only bounded, because it depends on how far the count got.
- HistoryLedger.HistoryPaysEverySecond: speaks of unchanged usage and prices, because a second has no one price otherwise; and the lower bound up to the 128-bit cap of a single fee.
- CellStat.StorageUsedIsExact: for cached cells that the new storage reaches, because an account that ends frozen may leave others in the cache; the slices are given without the part the source skips. When a root is refused, whether the count still happens to be right depends on the order of the cells, so only one direction is stated there.
- ContinuationLaws.CallReturnLaw: for a given number of passed values; without one, a continuation with a fixed count is handed the whole stack by the source, which `CallPassesAll` states.
- Returns through c1 (`ret_alt`): the same as those through c0 with the registers exchanged.
- StackCodecProofs.ValueRoundTrip: not for continuations, whose stored and loaded layouts do not mirror each other in the source.
- Division.DivModOverflowsOnce: the form with two results; the forms with an added or multiplied operand differ only in the dividend.
- StackCodecMachine.StoreValue: values other than tuples are single steps and are stored by their encoding directly.
- Most opcodes: individually simple, modelled as steps with a gas cost and an effect.
- Loading of library cells, missing-library reports and signature-check counters of the gas consumer.
- The sum of message sizes, inspectors and forced acceptance for local runs.
- Tick-tock transactions: the same phases without a message.
- Serialisation of transactions, logging, debugging output, the disassembler and the opcode macros.
- Sharing of reference-counted values: the model has value semantics.
