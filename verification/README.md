# Verified models of the SN89 replay, vault and publishing cores

This project models the parts of SN89 whose published numbers other parties recompute: the agent books replay and
its exact tick thinning, the Markets collateral vault, and the smaller cores around them (the HF ingest across
crashes, touch grading, the oracle batch chain, the block search, the commitment payloads, the share blend). Each
model follows the branches, edge cases and constants of the source; the properties are proved for all inputs, all
runs or all reachable states.

`dafny verify dfyconfig.toml` checks everything.

## Layout

| files | what they hold |
|---|---|
| `Wrappers`, `Sums`, `Sorting` | shared definitions; finite sums over keys; stable sorting that does not depend on arrival order |
| `AgentBooks` | the replay of one book as a function: book, receipts, ticks, day and week boundaries |
| `BookAccounting`, `BookRules` | the accounting identity, caps, drawdown and high-water-mark laws over every run |
| `TickSimulation` | the simulation argument: which ticks a replay needs, and why the rest can go |
| `TickShards`, `TickThinning` | the published windows as a stream; both thinning stages as predicates that keep what is needed |
| `ThinPass`, `ThinRange`, `BookSlice` | the loops that thin a day, a range, and one book's slice |
| `BookFills`, `BookDays`, `BookIntake`, `BookTimeline` | what is filled and at which price; day and week rows; which receipts are taken; the order of events |
| `BookReplay`, `ThinnedReplay` | the replay loop over mutable objects; the whole pipeline |
| `ThinningLimits` | exactly when thinning is exact |
| `AgentReceipts`, `AgentReceiptIndex` | the batch loader of receipts and the incremental index |
| `Vault` | the ledger operations as functions of the tables |
| `VaultLaws`, `VaultBalances` | conservation, credits against arrivals, non-negative balances, operation by operation |
| `VaultRun`, `VaultSafety` | runs with their guards; what every reachable state keeps |
| `VaultSolvency`, `VaultCustody`, `VaultRelease`, `VaultEarly` | the solvency check; the custodian; never short, and exactly when |
| `VaultTerms` | requests, exits, reserve payments and payouts in the terms of settle rows, claims and nets |
| `VaultCover`, `VaultEmission` | what withdrawals and exits leave; emission credits against what was paid |
| `VaultSchedule`, `VaultReplay` | no deadlock and termination; storage order and split calls do not matter |
| `VaultCommute`, `VaultOrder`, `VaultRace` | exchanging a settlement and phase A; exactly when runs are determined; two runs that differ |
| `VaultTables` | the tables as an object, with the loops of the passes |
| `HfIngest`, `TouchGrader`, `OracleChain`, `BlockSearch`, `CommitmentCodec`, `Competitions` | one core each |

## Conventions

Money, prices, shares and weights are reals; times, blocks and sequence numbers are integers. The one rounding kept is
the vault's floor to a rao. Names that the source sorts (pairs, accounts, hotkeys, the number part of a claim key) are known by their
rank in that order. Prices are positive. A chain read is a function of a block, a file an append-only sequence, a table a map.
Signatures, address checksums, Merkle roots and link hashes are parameters.

## What the proofs found

Where a documented property does not hold as stated, the model follows the code, an example shows the failure, and
the exact condition is proved.

- Thinning is exact from a UTC midnight to the end of a tick window, and for no other pair of ends
  (`ThinningLimits.ExactIffAligned`). A window that straddles the end is read whole, and a tick after the end then
  hides the mark before it.
- Settlement waits for the checkpoints strictly before its close, not for phase A of the one that covers it. Two things
  of that span can make the order matter, which the note on determinism (sn89_signals/markets_vault.py:51-54) does not
  allow for: a deposit received by the close raises a balance that a payout looks at, and a release claim is dropped
  while the payout it names is not open. `VaultOrder.DeterminedIffOrderFree` says exactly when runs agree, in terms of
  the claims, the chain and the settlement rows; `VaultRace.SettlementRaces` is an instance where they do not. "Equally
  far" means the same checkpoint, before or after its phase A, with the same cycles settled. Runs that credit first
  always agree (`VaultOrder.CreditingRunsAgree`).
- A dropped release claim is never looked at again, so a transfer can leave the vault with no release on the books and
  the next check is short although the custodian paid what was approved and claimed it in time
  (`VaultEarly.EarlyReleaseIsShort`). A custodian is safe exactly under rules by which a claim waits until the checkpoint
  that covers the request's due time (the close of a payout's cycle, the checkpoint of a withdrawal) has passed
  (`VaultEarly.SolventIffClaimsWait`); as transfers are claimed by the next checkpoint, the transfer has to wait too.
- The guard of a bet works in whole seconds: a bet can be decided before an earlier deposit is credited exactly when it
  falls in the second that starts at a checkpoint, with room for the deposit before it
  (`VaultSchedule.ReadyForMissesOneSecond`).
- Two sweeps in one checkpoint span do not see each other and may credit the same emission twice
  (`VaultEmission.TwoSweepsOvercredit`).
- A sweep that arrives when nothing is owed credits nobody; the text at sn89_signals/markets_vault.py:33-40 says the
  reserve keeps what is above the owed amount, which holds only when something is owed
  (`VaultEmission.SweepInFull`, `VaultEmission.SweepOfNothingOwed`).
- After a restart the ingest has forgotten its sequence numbers, and a later restart keeps one call per number of each
  unsealed tail. A window loses nothing exactly when no restart before its seal finds a number twice in its tail
  (`HfIngest.NothingLostOrDoubled`, and `HfIngest.ReuseLosesACall` for an instance).
- The note on quiet windows (neurons/hf_ingest.py:813-815) says a window without calls is sealed too; the anchor loop
  seals only windows that hold one, and so does `HfIngest.Ingest.AnchorPass`.
- The block search answers 2, not 1, when block 1 is already at or after the time and is not the head
  (`BlockSearch.BlockAtOrAfter`).
- The chain check does not ask that batches follow each other on the grid; `OracleChain.Anchor.Sweep` shows that the
  service writes them so.

## Assumptions

`VaultRun.WellSet` asks for distinct claim keys, a first checkpoint on the grid, increasing cycle starts and bets
received before their market ends. Settlement rows, open bets and emission paid are functions of the cycle: the
markets code that computes them is not part of this model. `VaultCover.MarketOk` asks that cycles
start at unix times from 0 on and that the settle row read for a cycle is not of a later one.

Solvency asks that the share price is known and never falls (`VaultSolvency.PriceNeverFalls`), and of the custodian
(`VaultCustody.Moves`, `Files`, `PaysApproved`): what extrinsics can be credited for, as a deposit and as a sweep
together, is no more than what they brought in; the stake is worth at least the shares brought in less the shares sent
out; each transfer out pays one request of its own, for at most what that was approved; its release claims name that
request, and one of them, made after the request was due and received after the transfer, arrives by the next
checkpoint. Claims carry their signer's key.

`TickShards.WellSharded` asks of the published windows that a window's file holds only ticks of that window. The
ingest theorems ask that the clock does not go back.

## Model

| member | source | states |
|---|---|---|
| BookAccounting.TradeMovesCash | sn89_signals/agent_books.py:308-332 | An open, add, partial close, full close or flip moves realised less cost basis by exactly what was paid, the quantity by what was traded, the fees by the fee, and nothing else |
| BookAccounting.TradeAtMark | sn89_signals/agent_books.py:294-332 | A trade at the mark costs the fee and nothing else |
| BookAccounting.TradeRealises | sn89_signals/agent_books.py:308-332 | Opening or adding realises nothing and averages the entry; reducing or closing realises the closed units' move from the entry and keeps it; a flip realises the whole position's move and enters the rest at the price |
| BookAccounting.AccountingIdentity | sn89_signals/agent_books.py:283-332 | Over any sequence of trades, equity is the start less what was paid, fees and carry, plus net quantities at their marks |
| BookAccounting.EquityIsExplainedByFills | sn89_signals/agent_books.py:361-537 | Over any receipts, ticks and day ends, the equity of a surviving book is 1 less the cost of its recorded fills, fees and carry, plus the net filled quantities at their marks |
| BookAccounting.CloseAllCostsItsFees | sn89_signals/agent_books.py:405-410 | Closing every pair at its mark changes equity by exactly the fees charged and leaves nothing open |
| BookAccounting.CloseOutIsFlat | sn89_signals/agent_books.py:424-427 | After an elimination close the book is flat, balance equals equity, nothing is pending |
| BookAccounting.EliminationChargesOnlyFees | sn89_signals/agent_books.py:412-429 | From the day row that eliminates, equity drops by the closing fees only |
| BookAccounting.FrozenAfterElimination | sn89_signals/agent_books.py:446-485 | After elimination no receipt, tick or boundary makes a fill or moves equity |
| BookRules.DeclaredAlwaysWithinCaps | sn89_signals/agent_books.py:335-358 | On every run the declared targets meet the per-pair cap and the gross cap with its 1e-12 slack, on listed, non-excluded pairs |
| BookRules.ChangePastCapReduces | sn89_signals/agent_books.py:139-160 | Past the daily cap only a receipt from the exit-reserve date on that strictly lowers gross declared leverage is accepted |
| BookRules.ChangesPerDayCapped | sn89_signals/agent_books.py:446-469 | On every run the changing receipts of a UTC day never exceed the cap, plus the exit reserve after its date |
| BookRules.PaidNeverExceedsTheMark | sn89_signals/agent_books.py:430-444 | On both bases an active week of a live book pays exactly its rise of the high-water mark less its open loss, any other week nothing, and all that is ever paid is at most the final mark less 1 |
| BookRules.SurvivingDaysWithinDrawdown | sn89_signals/agent_books.py:420-429 | A recorded day end eliminates exactly when equity is below the running peak times one less the drawdown, less the guard, and it is then the last recorded day |
| BookRules.NothingPaidFromElimination | sn89_signals/agent_books.py:436-441 | A replay pays nothing for the elimination week or any later one |
| BookFills.Queues | sn89_signals/agent_books.py:464-488 | On every run the queue of a pair holds, in order, exactly the changes of its declared target that have met no tick since they were due |
| BookFills.EveryFillIsDue | sn89_signals/agent_books.py:477-510 | Every recorded fill was made at a tick of its pair for the last change of the target that was due and had met no tick; a buy paid the usable ask, a sale got the bid, else mid plus or minus half the spread; the size brings the pair to target times equity over mid; the fee is the class rate on what was traded |
| BookFills.DueChangesFill | sn89_signals/agent_books.py:484-499 | A tick that meets a due change records a fill, unless the pair already holds what the target asks for |
| BookTimeline.NothingIsSkipped | sn89_signals/agent_books.py:512-537 | A replay sees every receipt, tick and day end through the end, each once and in its own order |
| BookTimeline.SeenInTimeOrder | sn89_signals/agent_books.py:512-537 | Events are seen in time order; at one instant the day end, then receipts, then ticks |
| BookTimeline.ReplayFillsAreDue | sn89_signals/agent_books.py:361-537 | The law of fills, for every fill of a replay of sorted receipts and ticks |
| BookDays.MarkIsLastMid | sn89_signals/agent_books.py:477-482 | A pair's mark is the mid of its last tick |
| BookDays.EveryWeekRow | sn89_signals/agent_books.py:430-444 | Every week row was written at a Monday midnight with the balance and open profit of the book there; the mark becomes the larger of the one before and the value of the basis (balance, or balance plus open profit); gain, activity, elimination, partial flag and payment follow from it |
| BookDays.ActivityIsOfTheWeek | sn89_signals/agent_books.py:432-444 | A week row counts the distinct twelve-hour buckets of the fills of its own week, and is active exactly when they reach the minimum |
| BookDays.EveryDayRow | sn89_signals/agent_books.py:412-429 | Every day row was written on a live book for the equity after the carry of the held pairs at their notional; the book is eliminated exactly below the drawdown of the peak, which rises otherwise |
| BookDays.ResultIs | sn89_signals/agent_books.py:539-547 | A result reports the held pairs with quantity, entry and mark, the balance, the open profit and their sum, and the rows as recorded |
| BookDays.SeriesFollows | sn89_signals/agent_books.py:421-510 | The equity series gets one point for each fill and each day row, and no other |
| BookIntake.FirstBadIs | sn89_signals/agent_books.py:335-358 | The reason for bad targets is that of the first entry that breaks a rule, of its rules the first in order; there is none exactly when all entries are good |
| BookIntake.TakenIffAllowed | sn89_signals/agent_books.py:126-160 | A receipt moves the declared targets if and only if the book is alive, the number is new, the entries are good, the gross is within the cap, something changes and the day has room; they are then what it asks for |
| BookIntake.OutcomeOf | sn89_signals/agent_books.py:446-469 | A receipt that is not taken is refused for the first broken rule, or noted when it changes nothing; its number is used up exactly when its targets were good |
| BookReplay.LiveBook.Unrealised | sn89_signals/agent_books.py:297-303 | The loop over the held pairs computes the unrealised profit of the accounting laws |
| BookReplay.LiveBook.Equity | sn89_signals/agent_books.py:305-306 | Equity of the book the laws speak about |
| BookReplay.LiveBook.TradeOn | sn89_signals/agent_books.py:308-332 | The in-place trade is the trade of the accounting laws, on every field |
| BookReplay.CheckTargets | sn89_signals/agent_books.py:335-358 | The loop over a receipt's targets refuses with the first failing reason, or the gross cap over the merged targets |
| BookReplay.Replay.CloseAll | sn89_signals/agent_books.py:405-410 | Closes every held pair at its mark in name order and drops what is pending |
| BookReplay.Replay.ChargeCarry | sn89_signals/agent_books.py:415-419 | Charges the carry of each open pair at the day end |
| BookReplay.Replay.Eliminate | sn89_signals/agent_books.py:424-427 | Elimination: close-out, the time and the week it happened |
| BookReplay.Replay.EndDay | sn89_signals/agent_books.py:412-429 | The daily half of a boundary: carry, row, elimination or new peak |
| BookReplay.Replay.EndWeek | sn89_signals/agent_books.py:430-444 | The in-place weekly half of a boundary is the one the law of week rows is about |
| BookReplay.Replay.DayBoundary | sn89_signals/agent_books.py:412-444 | One UTC boundary is the boundary step that the rules are proved about |
| BookReplay.Replay.Decide | sn89_signals/agent_books.py:446-468 | Decides a receipt: eliminated, stale, bad targets, no change, over the daily cap, or taken |
| BookReplay.Replay.AcceptReceipt | sn89_signals/agent_books.py:446-475 | One receipt is the acceptance step that the caps are proved about |
| BookReplay.Replay.FillPending | sn89_signals/agent_books.py:489-508 | The in-place fill is the fill of the law of fills, on every field |
| BookReplay.Replay.OnTickAt | sn89_signals/agent_books.py:477-508 | One tick marks the pair and fills what is due |
| BookReplay.ReplayBook | sn89_signals/agent_books.py:361-547 | The loop over ticks, day ends and receipts computes the run over their time-ordered merge, for every receipt list and tick list |
| TickSimulation.BoundaryReadsHeld | sn89_signals/agent_books.py:405-444 | A boundary reads marks only of held pairs |
| TickSimulation.KeptTick | sn89_signals/agent_books.py:477-508 | A kept tick moves a run that lacks dropped ticks exactly as it moves the full run |
| TickSimulation.DroppedTick | sn89_signals/agent_books.py:477-488 | A dropped tick that fills nothing changes only marks of the full run |
| TickSimulation.Simulates | sn89_signals/agent_books.py:477-537 | From related states, with the needed ticks kept, the two runs end with the same result |
| TickSimulation.SubStreamIsExact | sn89_signals/agent_books_io.py:426-427 | Any sub-stream that keeps the needed ticks replays to the same fills, refusals, no-ops, rows, series and elimination as the full stream |
| TickThinning.TouchedKeepsNeeded | sn89_signals/agent_books_io.py:382-383 | Dropping pairs that no receipt touches keeps every needed tick |
| TickThinning.WantedKeepsNeeded | sn89_signals/agent_books_io.py:413-427 | The day thin keeps every tick that any account's replay reads |
| TickThinning.SelectedKeepsNeeded | sn89_signals/agent_books_io.py:546-566 | A book's slice keeps every tick its own replay reads |
| TickThinning.ThinnedReplayIsExact | sn89_signals/agent_books_io.py:525-581 | A book replayed over its slice of the union thin gives the full stream's result |
| TickShards.StreamHasEveryRow | sn89_signals/agent_books_io.py:449-474 | The full stream of a range has exactly the rows of its windows, three minutes apart |
| TickShards.FullStreamOrdered | sn89_signals/agent_books_io.py:449-474 | The windows of a range, sorted one by one, make one stream in (time, pair) order |
| ThinPass.RelevantRows | sn89_signals/agent_books_io.py:455-474 | The rows of a window: those of relevant pairs inside the day, in stable (time, pair) order |
| ThinPass.CollectEligible | sn89_signals/agent_books_io.py:432-440 | The eligible times of the day, per pair, sorted |
| ThinPass.ScanTick | sn89_signals/agent_books_io.py:483-493 | A tick is a fill candidate exactly when its pair is new or an eligible time meets its first tick here |
| ThinPass.ScanGroup | sn89_signals/agent_books_io.py:482-493 | A group of equal times is a candidate exactly when one of its ticks is |
| ThinPass.KeepLasts | sn89_signals/agent_books_io.py:499-500 | Keeps exactly the last earlier tick of every pair seen |
| ThinPass.AddGroup | sn89_signals/agent_books_io.py:481-505 | One group leaves the kept set, last ticks, seen pairs and positions right |
| ThinPass.Emit | sn89_signals/agent_books_io.py:508-510 | The kept ticks come out in stream order |
| ThinPass.ThinDay | sn89_signals/agent_books_io.py:410-510 | The streaming pass over a day keeps exactly the fill candidate groups, the marks before them and the last marks, and reports the missing windows |
| ThinRange.ThinConcat | sn89_signals/agent_books_io.py:632-650 | Thinning day by day is thinning the whole stream |
| ThinRange.RangeThinStep | sn89_signals/agent_books_io.py:634-648 | One day of the loop, with the receipts and pairs known by then, adds that day of the range thin |
| ThinRange.BisectLeft | sn89_signals/agent_books_io.py:637-637 | The number of leading entries below x |
| ThinRange.LoadThinRange | sn89_signals/agent_books_io.py:618-651 | The loop over days returns the wanted ticks of the touched pairs of the full stream, and the missing windows |
| BookSlice.PairIndex.constructor | sn89_signals/agent_books_io.py:516-522 | The index lists, per pair, the times and positions of its ticks |
| BookSlice.PairIndex.AddAt | sn89_signals/agent_books_io.py:534-538 | Selects exactly the pair's ticks at a time |
| BookSlice.PairIndex.AddBefore | sn89_signals/agent_books_io.py:540-544 | Selects exactly the pair's ticks at its last time before a time |
| BookSlice.FillTimes | sn89_signals/agent_books_io.py:546-554 | Exactly the times at which a receipt's pair first ticks at or after its eligible time |
| BookSlice.MarkFills | sn89_signals/agent_books_io.py:555-558 | Selects the ticks at and before every fill time |
| BookSlice.MarkDayEnds | sn89_signals/agent_books_io.py:559-565 | Selects the ticks before every day end |
| BookSlice.BookTicks | sn89_signals/agent_books_io.py:525-566 | The slice of one book: exactly the ticks at and before its fill times, before day ends and before the end |
| ThinnedReplay.ReplayAll | sn89_signals/agent_books_io.py:569-581 | Every account of the receipts, each replayed over its own slice |
| ThinnedReplay.AlignedIsExact | sn89_signals/agent_books_io.py:410-566 | From a UTC midnight to the end of a tick window, thin, slice and replay give the full stream's result for every account and every receipt set |
| ThinnedReplay.ReplayRange | tools/agent_books_weekly.py:167-173 | The published pipeline returns, for an aligned range, exactly the replay over the full stream |
| ThinningLimits.LateStartIsNotExact | sn89_signals/agent_books_io.py:631-637 | A start after midnight, with the stream it fails on: the first tick since the eligible time lies before the start |
| ThinningLimits.EarlyEndIsNotExact | sn89_signals/agent_books_io.py:448-474 | An end inside a tick window, with the stream it fails on: a later tick of the same window replaces the last mark |
| ThinningLimits.ExactIffAligned | sn89_signals/agent_books_io.py:410-427 | The thinned replay is exact on every stream and receipt set if and only if the start is a UTC midnight and the end is at the end of a tick window |
| AgentReceipts.VerifiedReceipts | sn89_signals/agent_books_io.py:136-155 | Each signed content of the verified lines once, in canonical order |
| AgentReceipts.DedupeReceipts | sn89_signals/agent_books_io.py:158-172 | Exactly the receipts whose account and sequence number no other content claims, in order |
| AgentReceipts.LoadReceipts | sn89_signals/agent_books_io.py:183-192 | Both stages: the undisputed signed contents of the lines, in order |
| AgentReceipts.LoadIgnoresOrderAndSignatures | sn89_signals/agent_books_io.py:136-192 | Permuting, repeating or re-signing lines changes nothing but signatures |
| AgentReceipts.EquivocationDropsAll | sn89_signals/agent_books_io.py:158-172 | A second version of an account and sequence number removes every version of it and no other receipt |
| AgentReceipts.ListedInOrder | sn89_signals/agent_books.py:196-197 | Receipts are listed by receipt time, account, sequence number and content |
| AgentReceipts.ReceiptWindowIsGrid | sn89_signals/hf.py:1054-1056 | A receipt's window starts at the multiple of 180 seconds at or before it |
| AgentReceiptIndex.Index.Refresh | sn89_signals/agent_books_io.py:206-235 | After a refresh every complete line of every file has been read |
| AgentReceiptIndex.Index.RefreshFile | sn89_signals/agent_books_io.py:212-235 | Reads on from the last offset up to the last newline; a torn line waits |
| AgentReceiptIndex.Index.FileLines | sn89_signals/agent_books_io.py:228-235 | Files each verified receipt under its window and signed content |
| AgentReceiptIndex.Index.WindowReceipts | sn89_signals/agent_books_io.py:237-239 | Exactly the receipts of the window among the lines read, in order |
| AgentReceiptIndex.Index.Prune | sn89_signals/agent_books_io.py:241-243 | Dropping old windows leaves the later ones exact |
| AgentReceiptIndex.AppendKeepsRead | sn89_signals/agent_books_io.py:195-219 | Appends, torn lines included, leave what was read as it is |
| AgentReceiptIndex.ValidAfterAppend | sn89_signals/agent_books_io.py:195-219 | The index stays valid while the files grow |
| AgentReceiptIndex.IndexAgreesWithBatch | sn89_signals/agent_books_io.py:195-239 | After any appends and refreshes the index gives, for a kept window, the batch loader's receipts over all complete lines, up to signatures |
| VaultTables.Tables.UnitsOf | sn89_signals/markets_vault.py:128-131 | The sum over the ledger rows of an entity up to a time |
| VaultTables.Tables.EmissionOutstanding | sn89_signals/markets_vault.py:256-268 | Paid less credited before the time, at least one rao |
| VaultTables.Tables.LockedOf | sn89_signals/markets_vault.py:145-162 | The amount that the laws of withdrawals and exits keep back |
| VaultTables.Tables.NextCheckpoint | sn89_signals/markets_vault.py:180-182 | The checkpoint after the last one checked, or the first |
| VaultTables.Tables.CreditDeposit | sn89_signals/markets_vault.py:369-384 | Credits a timely, unused deposit extrinsic at its receipt, at most for what it moved |
| VaultTables.Tables.ApplyRelease | sn89_signals/markets_vault.py:385-398 | Marks an approved request released by one transfer made after the approval |
| VaultTables.Tables.PhaseA | sn89_signals/markets_vault.py:365-398 | Phase A of the ledger laws, claim by claim in canonical order |
| VaultTables.Tables.CreditShares | sn89_signals/markets_vault.py:286-296 | Credits each owed entity its floored share and returns what is left |
| VaultTables.Tables.CreditSweep | sn89_signals/markets_vault.py:275-298 | One sweep of the emission laws |
| VaultTables.Tables.ApplyRequest | sn89_signals/markets_vault.py:419-454 | One withdrawal or exit of the coverage laws |
| VaultTables.Tables.TakeExit | sn89_signals/markets_vault.py:448-454 | The exit part of a request: the locked amount moves to the reserve, and the exit is recorded |
| VaultTables.Tables.CheckSolvency | sn89_signals/markets_vault.py:458-465 | Compares the chain stake with all balances and unreleased approvals |
| VaultTables.Tables.PhaseB | sn89_signals/markets_vault.py:413-467 | Phase B of the ledger laws: sweeps, requests, defaults, check |
| VaultTables.Tables.PayReserve | sn89_signals/markets_vault.py:471-497 | The loop pays what the law of reserve payments says |
| VaultTables.Tables.DebitPayouts | sn89_signals/markets_vault.py:301-328 | Debits players' net winnings up to the balance and opens the requests |
| VaultTables.Tables.VaultPass | sn89_signals/markets_vault.py:336-362 | One call advances checkpoint after checkpoint as the pass of the replay laws |
| VaultLaws.DepositCredits | sn89_signals/markets_vault.py:369-384 | A deposit is credited to its claimant at its receipt for the smaller of claimed and moved, unless used, untimely or empty |
| VaultLaws.NewDeposit | sn89_signals/markets_vault.py:369-384 | A credited deposit is the only one of its extrinsic and credits no more than the alpha it moved |
| VaultLaws.SweepOneAdds | sn89_signals/markets_vault.py:271-298 | A sweep posts only emission rows of its own extrinsic, worth no more than the alpha that arrived |
| VaultLaws.SweepKeepsCredits | sn89_signals/markets_vault.py:275-298 | A sweep extrinsic is credited at most once; credits never exceed arrivals |
| VaultBalances.PostSpend | sn89_signals/markets_vault.py:318-322 | A debit within the balance at its time, with no later debit posted, leaves every balance non-negative at every instant |
| VaultBalances.DepositKeepsWhole | sn89_signals/markets_vault.py:369-384 | A deposit keeps the ledger balanced, non-negative and its requests sound |
| VaultBalances.ReleaseKeepsWhole | sn89_signals/markets_vault.py:385-398 | A release keeps the ledger whole: one transfer releases at most one request |
| VaultBalances.RequestKeepsWhole | sn89_signals/markets_vault.py:419-454 | A withdrawal or exit keeps the ledger whole |
| VaultBalances.TransferKeepsWhole | sn89_signals/markets_vault.py:449-453 | A forfeit is zero-sum in units and covered by the balance |
| VaultBalances.ReservePaysWithin | sn89_signals/markets_vault.py:485-492 | The reserve never pays more than it holds |
| VaultBalances.ReservePaysNearlyAll | sn89_signals/markets_vault.py:482-492 | What the reserve pays falls short of its balance or the claims by less than a rao for each claimant |
| VaultBalances.OnlyOverdueDefault | sn89_signals/markets_vault.py:455-457 | After a checkpoint no approval is overdue, and only overdue ones were defaulted |
| VaultBalances.ReservePayKeepsWhole | sn89_signals/markets_vault.py:471-497 | Reserve payments are zero-sum in units and leave the reserve non-negative |
| VaultBalances.PayoutOneKeepsWhole | sn89_signals/markets_vault.py:314-327 | A payout debit never exceeds the balance and is recorded as a request |
| VaultTerms.LockedIsLoss | sn89_signals/markets_vault.py:145-162 | What is locked is how far the last settle row is below its mark, never negative; nothing without a row or once an exit covers its cycle |
| VaultTerms.WithdrawalLeavesLoss | sn89_signals/markets_vault.py:427-447 | A withdrawal is approved for the whole rao within what is asked and what the balance leaves after hwm less rcum and the open bets; exactly that is debited, from the claimant only |
| VaultTerms.ExitForfeitsLoss | sn89_signals/markets_vault.py:427-454 | An exit is approved for all that loss and open bets leave, in whole rao; the loss, as far as the balance reaches, moves to the reserve and is recorded with the cycle closed |
| VaultTerms.WithdrawalSeesSweeps | sn89_signals/markets_vault.py:413-447 | The only withdrawal of a checkpoint is judged by the balance the checkpoint leaves with what it took added back |
| VaultTerms.OutstandingIsOwed | sn89_signals/markets_vault.py:256-268 | An entity is owed what it was paid through the cycle less what earlier emission rows credited it, from one rao on |
| VaultTerms.SweepPaysWhatIsOwed | sn89_signals/markets_vault.py:271-298 | A timely, unused sweep credits each hotkey its own share of what it is owed, in whole rao, at the price of the sweep's block; the rest goes to the reserve when all that is owed, and something is, has arrived |
| VaultTerms.ReservePaysItsClaimants | sn89_signals/markets_vault.py:471-497 | When the reserve pays, each hotkey's units rise by its own positive claim times the smaller of one and have over total, in whole rao, and by nothing else; the reserve falls by the sum |
| VaultTerms.PayoutsTakeTheirNets | sn89_signals/markets_vault.py:301-328 | A payout takes from its own entity the whole rao of its net, or of its balance if less, and opens a request in its name |
| VaultTerms.PayoutsSpareOthers | sn89_signals/markets_vault.py:301-328 | Payouts move nobody else's balance |
| VaultTerms.SettlementPaysThenDebits | sn89_signals/markets_vault.py:301-328 | Nets are debited from the balances that the reserve's payments leave |
| VaultTerms.SpanClaimsInOrder | sn89_signals/markets_vault.py:211-219 | A checkpoint applies exactly the claims received after the one before it and by its own time, by window, receipt time and key |
| VaultRun.ClaimsOfSpan | sn89_signals/markets_vault.py:211-219 | The claims of a span: those received in it, each key once |
| VaultRun.PhaseAKeeps | sn89_signals/markets_vault.py:365-398 | Phase A keeps the ledger whole and posts only for claims of its span |
| VaultRun.PhaseBKeeps | sn89_signals/markets_vault.py:413-467 | Phase B keeps the ledger whole and posts only for claims of its span |
| VaultRun.SettleKeeps | sn89_signals/markets_vault.py:301-328 | Settlement after every earlier debit keeps the ledger whole |
| VaultSafety.GuardMeansNotEarly | sn89_signals/markets_vault.py:193-202 | The settlement guard holds exactly when the close is at or before the next checkpoint |
| VaultSafety.SettledMeansClosesLater | sn89_signals/markets_vault.py:401-407 | The phase B guard on cycles holds exactly when the next cycle closes after the checkpoint |
| VaultSafety.ReachableIsSafe | sn89_signals/markets_vault.py:336-410 | Every reachable state keeps the interlock: debits are in time order, checkpoints on the grid, cycles settled in step |
| VaultSafety.EveryRunIsWhole | sn89_signals/markets_vault.py:336-410 | On every run no balance is negative at any instant, units held and approved out equal units come in, which never exceed what arrived, and a transfer releases one request |
| VaultSolvency.DebitsCover | sn89_signals/markets_vault.py:461-464 | If the price has not fallen, debited units are worth what is still owed plus what was released |
| VaultSolvency.StakeCoversLiabilities | sn89_signals/markets_vault.py:458-464 | A stake of what arrived less honest releases covers balances, reserve and unreleased approvals |
| VaultSolvency.TotalIsAllBalances | sn89_signals/markets_vault.py:460-460 | The ledger total is the sum of every entity's balance and the reserve |
| VaultSolvency.ShortIffUncovered | sn89_signals/markets_vault.py:458-465 | A checkpoint is short exactly when the stake is below all balances, the reserve and unreleased approvals by more than the tolerance |
| VaultCustody.RunIsDated | sn89_signals/markets_vault.py:364-467 | On every run each credit is for a block by what has been credited, and each request is its key's payee's, open from its due time, and released only by a transfer that pays it |
| VaultRelease.ClaimFrees | sn89_signals/markets_vault.py:385-398 | A claim filed for a transfer releases the open, approved request the transfer pays, unless that is done |
| VaultRelease.RunFrees | sn89_signals/markets_vault.py:364-398 | When claims wait for the checkpoint, on every run each transfer claimed so far has released the request it pays |
| VaultRelease.NeverShort | sn89_signals/markets_vault.py:413-467 | With a price that never falls, outflows that pay approved requests for at most the approved amount and are claimed by the next checkpoint, and claims that wait for the checkpoint covering the request's due time, no checkpoint of any run is short |
| VaultEarly.EarlyReleaseIsShort | sn89_signals/markets_vault.py:193-202 | Any rule that lets one claim come by that checkpoint has an honest custodian and a run, phase A before settlement, that is found short |
| VaultEarly.SolventIffClaimsWait | sn89_signals/markets_vault.py:364-467 | A rule for release claims keeps every honest custodian solvent on every run if and only if it lets no claim come before the checkpoint covering the request's due time has passed |
| VaultCover.RequestTakesWhatItCan | sn89_signals/markets_vault.py:426-453 | A request is approved for all that is asked and free, rounded down to a rao, and debited exactly that, plus the locked part on exit |
| VaultCover.RequestKeepsCovered | sn89_signals/markets_vault.py:427-454 | A withdrawal leaves a covered entity covered; an exit leaves it its open amount to within a rao, with nothing locked |
| VaultCover.EveryPhaseBKeepsCovered | sn89_signals/markets_vault.py:413-455 | On every run phase B never uncovers a covered entity, and one that exits holds exactly its open amount to within a rao |
| VaultEmission.SweepOneCredits | sn89_signals/markets_vault.py:284-296 | A sweep credits a hotkey its floored share of what it is owed |
| VaultEmission.SpanWithinPaid | sn89_signals/markets_vault.py:256-298 | While the shares of a span's sweeps sum to at most one nobody is credited more than was paid; beyond one by more than the rounding, somebody is |
| VaultEmission.TwoSweepsOvercredit | sn89_signals/markets_vault.py:265-268 | Two sweeps in one span credit the same emission twice |
| VaultEmission.CreditNeverExceedsPaid | sn89_signals/markets_vault.py:256-298 | With at most one sweep to a span, on every run cumulative credit never exceeds cumulative paid |
| VaultEmission.SweepInFull | sn89_signals/markets_vault.py:285-298 | When at least what is owed arrives, all of it is credited, the rest to the reserve |
| VaultEmission.SweepOfNothingOwed | sn89_signals/markets_vault.py:285-298 | When nothing is owed a sweep credits nobody, not even the reserve |
| VaultSchedule.ReadyForMissesOneSecond | sn89_signals/markets_vault.py:185-190 | Some run lets a bet be decided while a deposit received before it is not credited exactly when the bet is in the second that starts at a checkpoint, more than a microsecond into it |
| VaultSchedule.DecidedBetSeesItsPast | sn89_signals/markets_vault.py:185-190 | On every run a bet is decided only after everything through the grid point of its second is applied; outside that second, everything received before it |
| VaultSchedule.GuardsInPlain | sn89_signals/markets_vault.py:185-202 | When each step may be taken: a check when all closed cycles are settled and all received bets decided, a settlement when its close is not past the next checkpoint and no open bet ends before it, a bet when its second is credited and settled |
| VaultSchedule.NoDeadlock | sn89_signals/markets_vault.py:336-410 | In every reachable state with a checkpoint left up to the horizon some step is enabled |
| VaultSchedule.RunsAreBounded | sn89_signals/markets_vault.py:336-362 | Each step lowers a measure of checkpoints, phases, cycles and undecided bets, so no run is longer than it |
| VaultSchedule.RunsFinish | sn89_signals/markets_vault.py:336-362 | A run that can go no further has done every checkpoint up to the horizon |
| VaultReplay.ClaimsAreCanonical | sn89_signals/markets_vault.py:211-219 | Claims stored in any order are applied in the same order |
| VaultReplay.RunIgnoresIngestionOrder | sn89_signals/markets_vault.py:51-54 | A run over claims ingested in another order is the same run |
| VaultReplay.PassesCompose | sn89_signals/markets_vault.py:336-362 | A call up to one time and another to a later one do what one call does |
| VaultReplay.PassIsARun | sn89_signals/markets_vault.py:336-362 | What a call does is a run of enabled phases |
| VaultCommute.LateDepositMovesPayout | sn89_signals/markets_vault.py:311-319 | A payout is the same with and without a late deposit exactly when the balance covers the net or the deposit does not reach the next rao |
| VaultCommute.OrdersAgreeIff | sn89_signals/markets_vault.py:301-398 | Settling a cycle and phase A, in either order, leave the same tables exactly when no deposit of the span by the close moves a payout and no release claim of the span would release one |
| VaultOrder.FreeIsDetermined | sn89_signals/markets_vault.py:51-54 | While no span touches a payout of a cycle that closes in it, runs equally far have the same tables, however phases, settlements and bets interleave |
| VaultOrder.DeterminedIffOrderFree | sn89_signals/markets_vault.py:51-54 | For every setup: any two runs equally far have the same tables if and only if, wherever a cycle may settle before or after phase A, no deposit and no release claim of that span touches its payouts |
| VaultOrder.CreditingRunsAgree | sn89_signals/markets_vault.py:185-202 | Runs that take phase A before the settlements of its span agree on every setup |
| VaultRace.SettlementRaces | sn89_signals/markets_vault.py:193-202 | Two runs over the same inputs, equally far, with different tables |
| HfIngest.RunIsConsistent | neurons/hf_ingest.py:724-843 | On every run the tail of a window is its accepted calls, sealed windows have ended and are out of memory, across crashes |
| HfIngest.IntactIffClean | neurons/hf_ingest.py:724-843 | A window is whole in memory or in its log as long as no restart before its seal found a number twice in its tail, and is short for good after the first that did |
| HfIngest.SealedLogsStay | neurons/hf_ingest.py:738-745 | No step of any run rewrites a sealed log |
| HfIngest.LogsHoldTheirWindow | neurons/hf_ingest.py:810-826 | A sealed log is the calls accepted in its window, in leaf order, exactly when no restart before the seal found a number twice in the tail |
| HfIngest.LogsHoldNoOther | neurons/hf_ingest.py:810-826 | On every run a log holds only calls accepted in its own window |
| HfIngest.ClosedWindowsAreSealed | neurons/hf_ingest.py:839-842 | After a pass of the anchor loop every closed window with a call is sealed |
| HfIngest.WindowIsGrid | sn89_signals/hf.py:1054-1056 | A window starts at the multiple of 180 seconds at or before the receipt |
| HfIngest.LogsAreInOrder | neurons/hf_ingest.py:810-826 | Every log is in the order of receipt times, hotkeys and sequence numbers |
| HfIngest.NothingLostOrDoubled | neurons/hf_ingest.py:672-843 | The log of a closed window has each accepted call of the window as often as it was accepted if and only if no restart before the seal found a number twice in the window's tail |
| HfIngest.FreshCallsAreKeptOnce | neurons/hf_ingest.py:672-843 | Where no number comes back in its window, an accepted call ends in the log of its window exactly once and in no other |
| HfIngest.SeqsIncrease | neurons/hf_ingest.py:597-598 | Within a process accepted sequence numbers strictly increase per hotkey |
| HfIngest.AcceptedIffNew | neurons/hf_ingest.py:597-598 | A process accepts a call exactly when its number is not negative and larger than all it has accepted of the hotkey |
| HfIngest.ReusedNumberIsAccepted | neurons/hf_ingest.py:597-598 | After a restart a used sequence number is accepted again |
| HfIngest.ReuseLosesACall | neurons/hf_ingest.py:768-778 | The second call under a reused number is lost at the next restart |
| HfIngest.Ingest.Handle | neurons/hf_ingest.py:672-715 | Accepts a call with a new sequence number into memory and the tail |
| HfIngest.Ingest.SealWindow | neurons/hf_ingest.py:810-826 | Writes the window's log in leaf order and forgets the window |
| HfIngest.Ingest.AnchorPass | neurons/hf_ingest.py:839-842 | Seals every window in memory that has ended |
| HfIngest.ReadTail | neurons/hf_ingest.py:757-799 | The rows of a tail, the first of each call |
| HfIngest.Ingest.RehydrateWindows | neurons/hf_ingest.py:724-807 | Refills memory from the tail for every window without a sealed log |
| HfIngest.Ingest.RestartProcess | neurons/hf_ingest.py:724-807 | A crash and restart is the restart step of the runs |
| TouchGrader.GradePriced | sn89_signals/grader.py:127-160 | WON or LOST exactly when a tick completes that level before the other is complete, at that tick; otherwise washed or pending by the clock and the missing windows |
| TouchGrader.GradeFetched | sn89_signals/grader.py:92-126 | On the fetched path nothing is pending past the abandon deadline, priced or not |
| TouchGrader.DecidedByTouches | sn89_signals/grader.py:133-148 | A level decides at a tick exactly when the tick is in the call's life, its signed move reaches the band, it is the needed-th to do so, and the other level has fewer |
| TouchGrader.EntryIsLastBefore | sn89_signals/grader.py:101-104 | The entry is the price of the last tick at or before the commit time |
| TouchGrader.MarkIsLastInLife | sn89_signals/grader.py:133-139 | The mark of a washed call is the last tick after the commit time and by the horizon |
| TouchGrader.DecidesOnce | sn89_signals/grader.py:133-148 | At most one tick and one level decide |
| TouchGrader.LaterTicksChangeNothing | sn89_signals/grader.py:133-148 | Later ticks never change which tick decided |
| TouchGrader.DroppingNeverDecides | sn89_signals/grader.py:151-156 | Dropping ticks never decides an undecided call |
| TouchGrader.TouchIsSignedMove | sn89_signals/grader.py:58-79 | A tick takes the profit or the stop exactly when the signed move in basis points reaches that band |
| TouchGrader.FlipTouches | sn89_signals/grader.py:58-79 | With equal bands a price that takes one direction's profit is the other's stop |
| TouchGrader.FlipSwaps | sn89_signals/grader.py:58-79 | With equal bands the opposite call is lost exactly when and where this one is won |
| OracleChain.Anchor.FirstWindow | neurons/markets_oracle_anchor.py:80-82 | The earliest sealed window |
| OracleChain.Anchor.SealOverdue | neurons/markets_oracle_anchor.py:97-105 | Seals only overdue windows, empty; says whether the batch is complete |
| OracleChain.Anchor.Append | neurons/markets_oracle_anchor.py:106-114 | The appended batch keeps the file a valid chain |
| OracleChain.Anchor.Sweep | neurons/markets_oracle_anchor.py:84-115 | After any sweep the file is contiguous on the grid, linked from genesis, every root recomputes, nothing published or sealed changed, and the next batch is not ready |
| OracleChain.VerifyChain | sn89_signals/oracle.py:96-112 | Accepts exactly the batches that, in window order, link from genesis |
| OracleChain.AnchoredVerifies | sn89_signals/oracle.py:96-112 | What the service writes verifies, in whatever order its lines are read |
| OracleChain.HeadPinsHistory | scripts/verify_markets_oracle.py:8-12 | With injective links that never give genesis, two valid chains with the same newest link are identical |
| OracleChain.CommitmentPinsPrefix | scripts/verify_markets_oracle.py:8-12 | A committed link found in the published chain pins every batch up to it |
| BlockSearch.BlockAtOrAfter | sn89_signals/chain.py:610-627 | Refuses exactly the times after the head; returns the first block at or after the time exactly when block 1 is before it or is the head |
| CommitmentCodec.SplitOfJoin | sn89_signals/chain.py:41-101 | Fields without colons split back out of their record |
| CommitmentCodec.ShowRoundTrip | sn89_signals/chain.py:108-146 | A number reads back from its decimal digits |
| CommitmentCodec.EncodingIs | sn89_signals/chain.py:41-101 | The text of each kind: prefix, version one, and its fields in order |
| CommitmentCodec.KindsAreDisjoint | sn89_signals/chain.py:245-279 | No payload is of two kinds |
| CommitmentCodec.AnyDecoderWins | sn89_signals/chain.py:245-279 | The trial order does not matter |
| CommitmentCodec.OwnDecoderReads | sn89_signals/chain.py:108-242 | The decoder of a record's own kind reads it back |
| CommitmentCodec.DecodedIsWellFormed | sn89_signals/chain.py:112-242 | Whatever a decoder accepts has well-formed fields |
| CommitmentCodec.RoundTrip | sn89_signals/chain.py:108-279 | Decoding an encoded record gives exactly that record if and only if its fields are well formed |
| Competitions.Normalize | sn89_signals/competitions.py:65-76 | Each uid gets its positive entry over the sum of the positive entries, nothing when it has none; there is no vector without a positive entry |
| Competitions.NormalizedSumsToOne | sn89_signals/competitions.py:65-76 | A normalized vector is non-negative and sums to one; there is none exactly when no entry is positive |
| Competitions.Combine | sn89_signals/competitions.py:79-106 | Each uid gets what the competitions give it over what was granted; weights are non-negative and sum to one |
| Competitions.OneCompetition | sn89_signals/competitions.py:79-106 | With one competition granted the weights are its positive entries over their sum; without a positive entry all burns |
| Competitions.OutageIsNeutral | sn89_signals/competitions.py:22-26 | When competitions fail every uid but the burn one is given less by exactly what they gave it |
| Competitions.OutageBurns | sn89_signals/competitions.py:22-26 | In the blend that is returned each other uid loses exactly the weight the failed competitions gave it, and the burn uid gains exactly the sum of what the others lost |
| Competitions.WeeklyWeights | sn89_signals/agent_books.py:569-591 | Shares are proportional to eligible accounts' positive paid gains and sum to one |
| Competitions.AgentbookVector | sn89_signals/agent_books_io.py:843-862 | Each uid gets the positive shares that resolve to it; the total is conserved |

## Left out

- The thin cache files, the JSON parsing of tick lines and the prefix test that skips foreign lines: a window is a
  list of parsed rows.
- The `half_spread_bps` overrides, the bodies of `carry_fn` (carry is any function of pair, notional and day end), and
  the as-of lookup of rules, which are a parameter.
- Binary floating point and decimal-context rounding: reals are exact, so sums do not depend on their order.
- The checks of receipt shape and signature, and the counts of drop reasons: a line parses to a receipt or is dropped.
- `filter_anchored` and the index URLs, which select lines before the stages modelled here.
- AgentReceiptIndex.Index.WindowReceipts: says nothing of windows that were pruned.
- AgentReceiptIndex.IndexAgreesWithBatch: agreement is up to signatures; the index keeps the last signature of a
  content, the batch loader the first.
- SQL, schemas and commits: each vault operation is atomic on the tables.
- Reading extrinsics for transfers and moves, and whose owner a hotkey has: functions of the extrinsic and the entity.
- VaultRelease.NeverShort: outflows other than releases are not modelled; the stake may grow beyond what was credited.
- VaultEmission.SpanWithinPaid: the two directions leave a gap of one rao for each sweep, which is the rounding.
- VaultTables.Tables.EmissionOutstanding: walks the paid entities and sums each one's credits, where the source makes
  two passes over rows; the result is the same map.
- `collateral_at`, `short_at` and the decision on a bet itself: a bet is only decided or not.
- VaultSchedule.NoDeadlock: a bet waits only for the guards on the ledger and the cycles; rates, snapshots, fills and
  the order among one entity's bets are outside, and the chain is taken to know the block of the next checkpoint.
- The settlement arithmetic of markets.py, its grading, and the limit of 64 rounds of its loop.
- Ingest: signature, registration, clock and rate checks come before the modelled step; pruning of old tails is not
  modelled, nor are failed or torn appends to the tail.
- HfIngest.NothingLostOrDoubled: a sealed log is written in one step, and the clock does not go back.
- The close-of-minute grading used before 2026-07-25.
- TouchGrader.GradePriced: the ticks are given; fetching them and reporting missing windows is not modelled.
- OracleChain.Anchor.Sweep: a recorder that seals a window again after it was sealed empty, and the chain commitment.
- The first guess of the block search is kept, but re-reading a zero time from an archive is not.
- CommitmentCodec.RoundTrip: digits and spaces are ASCII; the hash that makes a url tag is not modelled.
- Competitions.Combine: uids are already integers, so no two keys collapse into one.
- `parse_shares`, the entity registry and bonds, live views, trade lists, exporters, the miner and validator loops.
