# A verified model of the grin-lws scanner and its store

grin-lws keeps, for every registered view credential (`rewind_hash`), the outputs that credential opens.
The store is a cache over the chain's unspent-output set, kept up to date by a background scanner that pages
the set in insertion order. What it must agree with is the simple thing it speeds up: the on-demand scan that
walks the whole unspent set and rewinds every output. This project models the scanner, the store, the node
answers they rely on, the proof-message parser and the balance reads, and proves that agreement.

## How the model is built

- `Text`, `Rewind`: decimal and hex columns, the 20-byte proof message, and the abstract rewind of an output.
- `Chains`, `Nodes`: a chain is a list of block hashes, leaves in insertion order and spend heights; a node is
  a record of answers, any of which may fail, and `Serves` says that the successful ones describe one chain.
  `Nodes.SnapshotNode` is a concrete node for every valid chain, so the contract is satisfiable.
- `Tables`, `Stores`: the three tables as a value, and the class whose methods change them in place. `Yield`
  stands for every wait: any number of registrations land there, and the next statement may fail.
- `Protocol`, `Consistency`, `Safety`: the scanner as a state machine with one transition per database action.
  `Protocol.Enabled` says what may happen, `Protocol.Harmless` which of the things outside the scanner's control
  take nothing from a given account, and `World.harmed` which accounts lost something and were not backfilled since.
  The invariant `Inv` has two parts: true rows, spend flags, checkpoint and bounded scan heights hold in any case
  (`GroundInv`), completeness for each account that is not harmed (`WholeIn`). `World.chain` is the snapshot the
  stored rows describe, the one the last writing tick read.
- `Outcomes`, `Paging`, `Scanner`, `Ticks`: the scanner's methods with their loops. If a method completes, the
  database it leaves is given by a function (`TickOutcome`, `ReorgOutcome`), registrations aside, for any truthful
  node; if moreover the chain it meets is one the state machine allows, the method is an execution of the state
  machine, whatever fails and whoever registers meanwhile.
- `Registration`, `Convergence`, `Retries`, `Reorgs`, `Balances`: what registrations, completed ticks, retried ticks, repairs and reads achieve.
- `Limits`: where the code does not give these guarantees: the exact condition, for all inputs, a guard that is
  enough, and a history in which the condition fails.

The central difficulty is how the cursor index, the cursor tip height, the accounts' scan heights and the row
heights fit together. For each account, `Honest` (nothing strictly between birthday and scan height is missing) and
`Complete` (once caught up, it misses nothing the cursor has passed) are kept together with `ScanBounded` and
`CursorTrue`; none of them is inductive alone.

## What the environment is assumed to do

- All answers of the node during one tick describe one chain (`Serves`).
- Between ticks the chain may change in any way that keeps the block recorded by the cursor, or lose that block
  and keep all blocks up to 100 below its new tip. What a stopped tick stored above the recorded block must still
  be true if that block stays (`AboveStillTrue`); `Reorgs.FollowIff` and `Limits.UnseenReorgIff` show that this is
  exactly what is needed. After a completed tick or a repair nothing is stored above it, so an ordinary short
  reorganization right after a repair, back to the old branch included, is among the runs.
- A commitment is created at most once on one chain, and an output opens for at most one credential.
- For an account's completeness, but not for the truth of rows and flags and not for other accounts: an output spent
  before it was ever listed is not stored, so a chain that makes it unspent again inside the account's scanned range
  harms the account. `Reorgs.RepairIff` and `Reorgs.FollowIff` show that this is exactly what harms it.
- Likewise, a rescan harms its account unless it is strictly backwards, or the account is pending, or nothing needed is
  deleted (`Limits.RescanSafeIff`). A repair that stopped between its rollback and its clamp harms an account if what
  follows, a later repair or none, trusts its scan height where rows are gone (`Limits.UnclampedRepairIff`,
  `Limits.UnclampedFollowIff`).
- A harmed account is whole again once it is backfilled, for instance after a backwards rescan
  (`Safety.BackfillCures`, `Convergence.RescanRestores`).
- Completeness is about heights strictly above an account's `start_height`.

## Where the code and its documentation differ

README.md:126-129 of grin-lws says that a rescan to a height at or above the scan height is rejected as a no-op.
`rescan_account` (src/db.rs:140-157), which the handler calls without a check (src/api.rs:258-270), deletes the
rows at or above the height in any case and only then compares heights. The model follows the code;
`Limits.RescanAtScanHeightLoses` is a history in which an output is lost this way.

## Model

| member | source | states |
|---|---|---|
| Safety.WholeRunCompleteness | src/scanner.rs:59-123 | In every state reached through growth, chain changes above the checkpoint, bounded reorgs, registrations, any rescans, completed and aborted ticks and stopped repairs, an account that lost nothing itself, or was backfilled since, and has its scan height at or above the cursor tip has a truthful, unspent row for each owned unspent output above its birthday with index at most the cursor's, whatever happened to other accounts |
| Safety.ScanHeightNeverLies | src/scanner.rs:113-120 | For such an account, caught up or not, each owned unspent output strictly between birthday and scan height has its row; between a rollback and the clamp that belongs to it, each one below the height to which the rollback left scan heights trustworthy |
| Safety.WholeRunRowTruth | src/scanner.rs:160-191 | In every reachable state, whatever was revived, rescanned or left half repaired, each row's height, index, coinbase flag, lock height, owner, value and identifier are those of the single output of that commitment; its value is not zero and its `key_id` spells a path of depth 1 to 4 ending in `n_child` |
| Safety.WholeRunSpendFlags | src/scanner.rs:194-210 | In every reachable state, harmful events included, a row flagged spent was really spent, at or below the recorded height, and no row is flagged while the chain holds its output unspent |
| Safety.ScanAdvancesOnlyWhenCovered | src/scanner.rs:106-115 | Whatever transition raises an account's scan height raises it to the tip just scanned, which is the checkpoint; unless the account is still harmed afterwards, it then misses nothing at all |
| Safety.OnlyTheseRaise | src/db.rs:114-125 | Only the advance of a served account and the end of its backfill raise a scan height, and to the tip |
| Safety.RegistrationIsSafeAnywhere | src/db.rs:78-88 | A registration at a birthday may land in any reachable state, adds the account with exactly that birthday and scan height, and leads to a reachable state; the newcomer is whole from the start in every phase, and every account that was whole stays so |
| Safety.EventKeeps | src/scanner.rs:59-123 | Every possible action of the scanner and its surroundings keeps the invariant |
| Safety.EventKeepsWhole | src/scanner.rs:59-123 | An account that lost nothing stays whole through every action harmless to it, however harmful to others |
| Safety.HarmedAfter | src/scanner.rs:212-215 | The harmed accounts grow only by those an action harms and shrink by the one whose backfill completes |
| Safety.BackfillCures | src/scanner.rs:212-243 | Whatever an account had lost before, when its backfill completes it has everything and is no longer harmed |
| Safety.RowsAppearOnlyWhereScanned | src/scanner.rs:160-191 | In any single step a row appears only for an unspent output above the cursor of an account the forward scan serves, or at or above the birthday of the account being backfilled |
| Safety.RowsDisappearOnly | src/db.rs:140-157 | A row disappears only in a rollback, from more than 100 blocks below the new tip upwards, or in a rescan of its account, at or above the target |
| Safety.SpendsAreRecordedAtTheTip | src/scanner.rs:194-210 | A row becomes flagged only when the snapshot lacks its output, with the snapshot's tip as spent height and every other column unchanged |
| Safety.BirthdayIsPermanent | src/db.rs:75-88 | Along any run an account keeps the birthday it was registered with |
| Registration.Register | src/api.rs:133-161 | The requested birthday, or the tip, becomes both heights of a new account, nothing else changes, an existing account is untouched, and the answer reports the stored scan height and whether the account is new |
| Registration.NewcomerIsServed | src/api.rs:131-161 | In every later state in which it was not harmed and is caught up, a newcomer has a live row for each output it owns above the birthday its request named and below the cursor |
| Registration.BirthdayFrom | src/api.rs:139-150 | In every later state the newcomer is there with the birthday its request named |
| Safety.ReachesKeeps | src/scanner.rs:21-24 | The invariant holds after any number of steps from a state in which it holds |
| Safety.ReachableStays | src/scanner.rs:43-56 | Reachability composes: the state a tick ends in, from a reachable one, is reachable |
| Consistency.EventKeepsGround | src/scanner.rs:59-123 | Rows, spend flags, checkpoint and bounded scan heights stay true through every possible action: revivals, any rescan, a repair stopped anywhere |
| Consistency.FollowKeepsGround | src/scanner.rs:63-77 | A chain that passes Phase 0 by keeping the checkpoint, and what was stored above it, keeps rows, flags and checkpoint true |
| Consistency.FollowKeepsWhole | src/scanner.rs:63-77 | Such a chain, grown or reorganized above the checkpoint, keeps an account whole that it revives nothing of |
| Consistency.InsertKeepsRows | src/db.rs:163-181 | Storing a match, or finding its commitment already stored, keeps every row true |
| Consistency.RowEventKeeps | src/db.rs:163-191 | Storing a match or marking a spend takes nothing from any account |
| Consistency.MarkKeepsRows | src/db.rs:184-191 | Marking an absent output spent at the tip keeps every row and flag true |
| Consistency.MoveCursorKeeps | src/scanner.rs:103-105 | Moving the cursor after discovery and reconcile keeps each account whole: who is not advanced next is pending |
| Consistency.SetScanMakesWhole | src/db.rs:118-125 | Raising an account to the tip makes it whole once it misses nothing, whatever its scan height claimed before |
| Consistency.EndBackfillCures | src/scanner.rs:240 | The end of a backfill leaves its account whole and with nothing missing, whatever it had lost |
| Consistency.RescanKeeps | src/db.rs:140-157 | A rescan keeps an account whole if it is another's, strictly backwards, of a pending account, or deletes nothing needed |
| Consistency.RescanKeepsHonest | src/db.rs:140-157 | Any rescan leaves every scan height honest: what it deletes is no longer claimed |
| Consistency.RollBackKeepsRows | src/db.rs:408-422 | After a rollback rows and flags are true and nothing is recorded above the fork |
| Consistency.RollBackKeepsHonest | src/db.rs:408-422 | After a rollback an account's scan height can be trusted up to one above the fork |
| Consistency.ClampKeeps | src/db.rs:129-135 | Clamping no higher than trusted, and below the checkpoint, leaves the account whole |
| Consistency.RollBackIsReady | src/scanner.rs:254-257 | After rollback and clamp an account's scan height is honest about the new branch |
| Consistency.HonestBelowFork | src/scanner.rs:254-257 | An output the new branch holds unspent below the fork and the account's scan height has a row that the rollback keeps |
| Consistency.SeatCursorKeeps | src/scanner.rs:258-261 | Seating the cursor just below the fork's first index leaves a whole account whole on the new branch |
| Consistency.ArriveKeeps | src/db.rs:78-88 | Registrations keep each account whole in every phase, between rollback and clamp included |
| Consistency.NewcomerIsWhole | src/db.rs:78-88 | In every phase a new account is whole from the start |
| Ticks.Tick | src/scanner.rs:59-123 | For every truthful node a completed pass leaves exactly the tick's or the repair's outcome; on any chain the state machine allows, a pass aborted anywhere and with registrations landing anywhere is an execution of it that harms only the accounts the chain harms, and a completed one cures the account it backfilled; with a healthy node and no fault it completes |
| Ticks.CheckReorg | src/scanner.rs:63-77 | Phase 0 answers exactly whether the checkpoint is above the tip or its hash no longer canonical, probing the header only when the chain is long enough |
| Ticks.ListingSplits | src/scanner.rs:83-88 | The caught-up accounts and the one to backfill are the right ones for any order of the listing |
| Outcomes.FirstBehindIsFirst | src/scanner.rs:118 | Every account listed before the one to backfill is caught up |
| Ticks.DiscoverAndReconcile | src/scanner.rs:97-101 | Phases 1 and 2 leave all matches above the cursor stored, absences marked, and the new index at the larger of the size of the unspent-output tree and the old index |
| Ticks.Checkpoint | src/scanner.rs:103-115 | Phase 3 writes the cursor first and then advances exactly the accounts the forward scan served |
| Ticks.BackfillOne | src/scanner.rs:117-120 | Phase 4 backfills the first listed account that was behind, or nothing |
| Ticks.ScanPhases | src/scanner.rs:79-122 | From the listing on, a completed pass leaves exactly the tick's outcome for that listing, registrations aside |
| Paging.StoreFirstMatch | src/scanner.rs:160-191 | The first account in order that opens the output gets its row, unless the commitment is stored already |
| Outcomes.FirstMatchIsFirst | src/scanner.rs:165-190 | No account listed before the one that gets the row opens the output |
| Paging.StorePage | src/scanner.rs:141-146 | A page is offered output by output, in order, to all accounts |
| Paging.ScanPage | src/scanner.rs:139-146 | One request stores every match on the page it returns, and the page is truthful about its range |
| Outcomes.OfferedIsStored | src/scanner.rs:160-191 | An owned unspent output inside the offered range is stored, whatever the database held before |
| Paging.ForwardScan | src/scanner.rs:129-156 | Terminates without overflow for every sequence of node replies; against a truthful node offers exactly the unspent outputs from the given index to the tip, in order, and returns a bound on their indices |
| Chains.RangeMembers | src/grin.rs:108-113 | The walked range holds exactly the unspent outputs with indices in it |
| Chains.RangeAscends | src/grin.rs:108-113 | Outputs are walked in strictly increasing index order, so each is visited once |
| Chains.RangeSplit | src/scanner.rs:147-152 | Pages that join at `last_retrieved_index + 1` walk the same outputs as one page |
| Paging.PageJoins | src/scanner.rs:147-152 | A truthful page extends what was offered so far without gap or overlap, and a page without progress means nothing was left |
| Scanner.ReconcileSpends | src/scanner.rs:194-210 | Afterwards a row that was unspent is flagged, with the tip as spent height and no other column changed, if and only if the chain lacks its output; every other row is untouched |
| Outcomes.SettleExactly | src/scanner.rs:204-208 | Reconciling gives exactly the unspent rows of absent outputs the flag and the tip |
| Nodes.OutputsPresent | src/grin.rs:139-155 | The requests are the commitments in order, 500 at a time; nothing reported is absent from the unspent set, and every queried unspent one is reported |
| Outcomes.SettleEvery | src/scanner.rs:204-208 | Checking each unspent row once, in any order and with repetitions, marks the same rows as checking all at once |
| Scanner.BackfillScan | src/scanner.rs:226-239 | For any upper index the page loop terminates on all replies but the one that overflows its index; against a truthful node it offers exactly the unspent outputs from the first index up to it, to this account alone |
| Scanner.ServesNoOverflow | src/scanner.rs:234-238 | No truthful node gives the reply that overflows |
| Scanner.BackfillAccount | src/scanner.rs:216-243 | On completion exactly the owned unspent outputs from the birthday block's first index on are stored, other rows are as before, and the account is set to the tip; every row stored on the way lies at or above the birthday |
| Convergence.BackfillAddsOnly | src/scanner.rs:223-233 | Whatever a backfill adds is an unspent output of its account created at or above the birthday |
| Convergence.TickAddsOnly | src/scanner.rs:79-120 | A row a tick adds lies above the old cursor index and belongs to an account that was caught up, or belongs to the account backfilled and lies at or above its birthday |
| Scanner.BackfillCovers | src/scanner.rs:223-239 | Walking from the birthday block's first index stores every owned unspent output at or above the birthday, so nothing above it is missing |
| Convergence.BackfillStoresFromBirthday | src/scanner.rs:216-243 | After a backfill each owned unspent output at or above the birthday has a truthful, unspent row of that account |
| Chains.FirstIndexCuts | src/grin.rs:157-164 | The first index of a height separates the leaves strictly below it from the others |
| Scanner.RollBackAndClamp | src/scanner.rs:254-257 | Rolls back and clamps to the fork with registrations landing before and between, whatever the database holds; stopped between the two, it leaves the state machine in its unclamped state |
| Scanner.HandleReorg | src/scanner.rs:249-263 | For every truthful node and any database, a completed repair leaves exactly the repair's outcome, registrations aside, and no scan height above the fork but that of an account registered above it; a reorg within depth makes it an execution of the state machine |
| Scanner.AdvanceAccounts | src/scanner.rs:113-115 | Sets exactly the named accounts to the tip; an account registered meanwhile keeps its own height |
| Outcomes.StoreAllMembers | src/scanner.rs:141-145 | A pass keeps every row, adds a row exactly for the commitments that match, and builds it from the matching output |
| Outcomes.CaughtUpNamesMembers | src/scanner.rs:84-88 | The forward scan serves exactly the listed accounts at or above the previous tip |
| Convergence.TickRefinesScan | README.md:26-30 | After a completed tick on a chain that kept the checkpoint, an account that was behind, or had lost nothing, is behind or has exactly the outputs above its birthday that the stateless scan finds, with equal totals, whatever other accounts lost |
| Convergence.CompletedTickAgrees | src/scanner.rs:79-120 | The same for a tick as executed, with registrations landing in it, for the new accounts too |
| Convergence.UndisturbedTick | src/scanner.rs:59-123 | A tick in which nobody registered leaves exactly the outcome for one listing of the accounts |
| Convergence.FullyStoredAgrees | README.md:26-30 | An account that misses nothing, with spends settled, has the same outputs and the same sum as the stateless scan |
| Convergence.TickKeeps | src/scanner.rs:79-120 | After a completed tick an account that was behind, or had lost nothing, is behind or misses nothing |
| Convergence.ServedIsStored | src/scanner.rs:97 | The forward scan leaves a caught-up account that missed nothing below the cursor with nothing to miss at all |
| Convergence.ChosenIsStored | src/scanner.rs:117-120 | The account a tick backfills misses nothing afterwards, whatever it missed before |
| Convergence.TickGrounds | src/scanner.rs:79-120 | Whatever happened before, a completed tick leaves true rows, settled flags, bounded scan heights and the cursor at the tip |
| Convergence.TickSettles | src/scanner.rs:194-210 | From any true rows, after a completed tick a row is flagged spent if and only if the chain does not hold its output unspent |
| Convergence.TickKeepsRows | src/scanner.rs:79-120 | True rows and flags stay true through a completed tick, whatever the accounts |
| Convergence.TickLeavesRow | src/db.rs:163-191 | A tick leaves each stored row as it is or marks it spent; it never corrects one |
| Convergence.TickRecordsTip | src/scanner.rs:204-208 | A spend a tick finds is recorded at its tip with every other column unchanged; earlier spends keep their height |
| Convergence.TickAccount | src/scanner.rs:113-120 | A tick sets exactly the accounts it served and the one it backfilled to the tip |
| Convergence.FirstTick | src/scanner.rs:79-88 | Without a cursor a tick serves every account, and from the first output of the chain on |
| Convergence.TickCatchesOne | src/scanner.rs:117-120 | Each tick brings exactly the first listed pending account up to date, and no account falls behind |
| Convergence.Converges | src/scanner.rs:84-120 | The number of pending accounts falls by one per quiet tick to zero; an account behind or whole at the start, whatever it or others had lost otherwise, agrees with the stateless scan by then and from then on |
| Convergence.RescanRestores | src/db.rs:137-157 | Whatever was missing before, and whatever was wrong in the account's rows at or above the target, a stale height or a stuck flag included, a backwards rescan and one quiet tick per pending account bring the account exactly to the chain's view, with every row true and every flag exact |
| Retries.AbortThenRetry | src/scanner.rs:21-24 | However far a tick got before the cursor write, and whoever registered meanwhile, running it again on the same snapshot ends in exactly the state of one undisturbed tick that started with those registrations |
| Retries.ReorgRetry | src/scanner.rs:249-263 | A repair stopped after its clamp and run again is the repair run once |
| Retries.AbortAfterCursor | src/scanner.rs:103-120 | Stopped after the cursor write, every account that lost nothing and counts as caught up misses nothing; the others are pending |
| Retries.RerunOutputs | src/scanner.rs:97-101 | Discovery and reconcile over a half-done result give the full result |
| Reorgs.RepairIff | src/scanner.rs:249-263 | For any fork within depth, the repair makes an account with an honest scan height whole on the new branch if and only if the branch revives no never-stored output of it inside its scanned range |
| Reorgs.RepairGrounds | src/scanner.rs:249-263 | Whatever happened before, a repair within depth leaves rows, flags, checkpoint and scan heights true of the branch |
| Reorgs.RepairIsReseat | src/scanner.rs:249-263 | An account with an honest scan height, of which the branch revives no such output, is whole after the repair |
| Reorgs.FirstIndexStable | src/grin.rs:157-164 | Growth leaves the first index of an existing block where it was |
| Reorgs.RepairedFlags | src/db.rs:415-419 | After the repair every row is true of the new branch and none is flagged spent that the branch holds unspent, without any condition on revived outputs |
| Reorgs.RepairedAccounts | src/db.rs:127-135 | After the repair such an account is complete below the new cursor or pending, also if it becomes caught up only through the clamp |
| Reorgs.RepairExactly | src/scanner.rs:249-263 | Table by table: rows up to 100 blocks below the tip stay, spends recorded above are undone, scan heights are lowered to the fork, birthdays stay, and the cursor is the fork block with the index below its first output |
| Reorgs.FoundSpendSurvives | src/db.rs:415-419 | A spend that a tick found with its tip at or below the fork stays flagged, at that height, through the repair |
| Reorgs.NothingAboveFork | src/scanner.rs:249-263 | No row height, recorded spend, scan height or checkpoint lies above the fork after a repair |
| Reorgs.RepairDoesNotLoop | src/scanner.rs:254-261 | If the chain then grows, Phase 0 passes and the next scan re-pages exactly the unspent outputs of the fork block and above |
| Reorgs.PhaseZeroDecides | src/scanner.rs:63-77 | When hashes identify blocks, Phase 0 fails if and only if the chain up to the checkpoint changed |
| Reorgs.CheckpointDecides | src/scanner.rs:11-12 | With the checkpoint at the tip last read, Phase 0 is exactly the test whether the chain only grew |
| Reorgs.GrowthFollows | src/scanner.rs:63-77 | Growth keeps the checkpoint and all rows, and revives nothing of any account |
| Reorgs.FollowIff | src/scanner.rs:63-77 | On a chain that keeps the checkpoint, rows stay true if and only if what was stored above the checkpoint is still true, and an account stays whole if and only if none of its unstored outputs is revived inside its scanned range |
| Reorgs.AfterRepairFollows | src/scanner.rs:254-261 | After a repair any chain that keeps the fork block is followed without another repair, the old branch included |
| Stores.Store.constructor | src/db.rs:296-308 | The tables start empty and without a cursor |
| Stores.Store.RegisterAccount | src/db.rs:78-88 | A new account gets the given birthday in both columns, an existing one and all others are untouched, and the result says which |
| Tables.RegisterExactly | src/db.rs:78-88 | A registration adds exactly one account, at the named birthday and scanned up to it |
| Stores.Store.ListAccounts | src/db.rs:100-112 | Every account once with its present heights, in some order |
| Stores.Store.SetAccountScanHeight | src/db.rs:118-125 | Changes the scan height of that account, if registered, and nothing else |
| Stores.Store.ClampAccountScanHeights | src/db.rs:129-135 | Lowers exactly the scan heights above the fork, to it |
| Stores.Store.RescanAccount | src/db.rs:140-157 | Deletes all of the account's rows at or above the height and no other, keeps the rest unchanged, and lowers the scan height to it if it is higher |
| Tables.RescanExactly | src/db.rs:140-157 | The same over the tables, whatever the scan height |
| Stores.Store.InsertOutput | src/db.rs:163-181 | A stored commitment keeps its first row |
| Stores.Store.SpendOutput | src/db.rs:184-191 | Flags that row with exactly the given height, changes no other column and no other row |
| Stores.Store.AllUnspentCommits | src/db.rs:208-213 | Exactly the commitments not flagged spent, over all accounts |
| Stores.Store.RollbackTo | src/db.rs:408-422 | Removes rows above the fork, undoes spends recorded above it, keeps everything else |
| Stores.Store.GetCursor | src/db.rs:299-308 | The stored checkpoint, if any |
| Stores.Store.SetCursor | src/db.rs:313-329 | Replaces the checkpoint and leaves accounts and outputs alone |
| Stores.Store.Yield | src/scanner.rs:106-112 | While the scanner waits only registrations happen |
| Nodes.SnapshotNodeHealthy | src/grin.rs:108-132 | The contract assumed of the node is met, for every valid chain and page size, by a node that walks the leaves |
| Nodes.PageIsTrue | src/grin.rs:53-62 | A page that stops after the requested number of unspent leaves is truthful about its range and its last index |
| Nodes.UsablePrinted | src/grin.rs:265-276 | Unspent entries with proof and height all survive the filtering, unchanged and in order |
| Nodes.UsableExactly | src/grin.rs:262-276 | Exactly the entries that are unspent and carry a proof and a creation height are kept, with every field unchanged |
| Chains.AppendExtends | src/scanner.rs:3-8 | Chains are built by blocks: a block that spends live outputs and creates fresh ones keeps a chain valid and extends it |
| Rewind.ParseV3Message | src/rewind.rs:132-171 | The parser, with its two buffers and its chunk loop, accepts exactly 20 bytes with two leading zeros, switch at most 1, depth 1 to 4 and nonzero value, and recovers what the specification reads |
| Rewind.RecoverReads | src/rewind.rs:156-170 | `key_id` is the message from its depth byte on in lower-case hex, and `n_child` the big-endian word at the depth |
| Rewind.ReadPath | src/rewind.rs:160-164 | The chunk loop fills the array with the four big-endian path elements |
| Rewind.MessageRoundTrip | src/rewind.rs:132-171 | Every well-formed message is accepted; decoding its `key_id` gives back depth and path, and `n_child` is the last path element in use |
| Rewind.AcceptsExactlyMessages | src/rewind.rs:132-155 | For nonzero values the accepted messages are exactly those with switch 0 or 1, depth 1 to 4 and a path of four words |
| Rewind.SameKeyIdIff | src/rewind.rs:156-169 | Two accepted messages share a `key_id` if and only if they differ at most in the switch byte |
| Rewind.RewindOutputViewOnly | src/rewind.rs:115-125 | The scanner's rewind opens the proof and runs the parser; a proof that does not open, or holds an implausible message, is no match |
| Rewind.FoundIsSpendable | src/rewind.rs:132-171 | Whatever bytes a proof holds, a match has a nonzero value and an identifier of depth 1 to 4 whose last element in use is `n_child` |
| Text.HexArrayRoundTrip | src/grin.rs:383-385 | Fixed-length decoding inverts encoding exactly when the length is right |
| Text.HexDecodeAccepts | src/grin.rs:383-385 | Exactly the strings of an even number of hexadecimal digits decode, to half as many bytes |
| Text.HexChars | src/rewind.rs:168 | Each byte is written as two lower-case hexadecimal digits, high half first |
| Text.AmountRoundTrip | src/db.rs:228-239 | Every 64-bit amount survives its decimal-text column |
| Text.DecimalPlaces | src/db.rs:171 | The text is base ten, most significant digit first, without leading zeros |
| Tables.NChildRoundTripsIff | src/db.rs:288-292 | The child number survives its signed 32-bit column if and only if it is below 2^31 |
| Balances.BalanceAndListingAgree | src/api.rs:164-211 | Over any database, total and count are the sum and the length of the listing, and unlocked is its spendable-only sum, sums clamped to 64 bits, each for the read that found the listed outputs |
| Balances.GetBalance | src/api.rs:164-183 | Each figure is exact for the database its own statement found, no transaction spanning them; an unknown account reads as zero |
| Balances.BalanceIsExact | src/db.rs:228-238 | Sums below 2^64 are served exactly, larger ones as the largest 64-bit number, over exactly the unspent, or unspent and mature, rows of the account |
| Balances.UnlockedAcrossReads | src/api.rs:169-175 | Whatever happens between the two amount reads, unlocked exceeds total by at most what the account gained in between, and not at all if it gained nothing |
| Balances.UnlockedWithinTotalIff | src/api.rs:169-175 | Unlocked is within total at every tip if and only if the account's clamped total at the second read is at most that at the first |
| Balances.GainsComeFrom | src/api.rs:169-175 | Over any number of actions between the reads, an account gains nothing unless a match of its own is stored or a rollback undoes spends |
| Balances.UnlockedMayExceedTotal | src/api.rs:169-175 | A match stored between the reads shows more unlocked than total |
| Balances.GetUnspentOuts | src/api.rs:186-211 | Returns a listing of the account's unspent rows, lowest height first |
| Balances.ListingShows | src/api.rs:193-206 | A listing has each unspent row of the account once, in height order, and shows value, height, index, coinbase flag, lock height and `key_id` as stored, `n_child` as stored below 2^31, and spendable exactly when the lock height is at or below the tip |
| Balances.ListingIsTrue | README.md:37-39 | In every reachable state each served column is that of the chain's output at the served index, and `key_id` spells a path ending in the served `n_child` if that is below 2^31 |
| Balances.SumOfEnumeration | src/db.rs:232-238 | Summing the text column over the rows in any order gives the exact sum and the number of rows |
| Balances.SelectAmounts | src/db.rs:241-246 | The selected text column, in any row order, adds up to the exact total, one entry per row |
| Balances.AccountTotals | src/db.rs:241-247 | Clamped sum and number of the account's unspent rows |
| Balances.AccountUnlockedTotals | src/db.rs:253-267 | Clamped sum and number of the unspent rows with lock height at or below the tip |
| Balances.UnlockedBounds | src/db.rs:249-267 | With both amounts read from one database, unlocked never exceeds total and never falls as the tip rises |
| Balances.UnlockedIsMature | src/scanner.rs:167-171 | In every reachable state an unspent coinbase output is unlocked if and only if 1440 blocks lie between its block and the tip, any other if and only if its block is at or below the tip |
| Limits.RescanSafeIff | src/db.rs:140-157 | A rescan keeps its account whole if and only if it is strictly backwards, or the account is pending, or no needed row lies at or above the height; it never harms another account |
| Limits.RescanLosesNeeded | src/db.rs:140-157 | A caught-up account rescanned at or above its scan height, with a needed row in range, is left incomplete below the cursor |
| Limits.RescanAtScanHeightLoses | src/api.rs:258-270 | A rescan at the scan height deletes an output that the next tick does not restore |
| Limits.RevivedOutputIsMissed | src/scanner.rs:254-261 | A repair within depth after which a caught-up account misses an unspent output the cursor has passed |
| Limits.LateRepairIff | src/scanner.rs:254-256 | For chains that agree up to any height, a repair leaves true rows and flags if and only if each kept row from above that height, and each kept flag of a spend above it, is true of the new chain |
| Limits.RepairDeepEnough | src/scanner.rs:254-256 | It is enough that the fork is no higher than the last common block |
| Limits.LateShallowReorgLosesUnspend | src/scanner.rs:254-256 | A one-block reorg noticed more than 100 blocks late leaves an output flagged spent that the chain holds unspent, the next reconcile included |
| Limits.UnclampedRepairIff | src/scanner.rs:256-257 | After a rollback without its clamp, a later repair makes an account whole if and only if none of its live rows above its birthday lies above the first fork and below both its scan height and the later fork |
| Limits.UnclampedSafe | src/scanner.rs:256-257 | It is enough that the later fork, or the account's scan height, is at most one block above the first fork |
| Limits.UnclampedFollowIff | src/scanner.rs:63-77 | If instead the next pass finds the checkpoint in place and no repair follows, an account stays whole if and only if no live row of it above its birthday was deleted that lies below its scan height or, for a caught-up account, at or below the cursor index |
| Limits.UnclampedFollowSafe | src/scanner.rs:63-77 | It is enough that the account is pending and scanned at most one block above the fork, or has not progressed past its birthday |
| Limits.UnclampedCatchUpLosesOutput | src/scanner.rs:63-77 | A node one block behind, a failure between rollback and clamp, and the node catching up: Phase 0 passes and a caught-up account misses an output below the cursor |
| Limits.UnclampedRollbackLosesOutput | src/scanner.rs:256-257 | A failure between rollback and clamp, followed by two blocks, loses an output; the same repair without the failure keeps every guarantee |
| Limits.UnseenReorgIff | src/scanner.rs:63-120 | A completed tick on a chain that kept the checkpoint leaves true rows and flags if and only if what was stored above the checkpoint was already true of that chain |
| Limits.NothingAboveIsSafe | src/scanner.rs:63-120 | It is enough that nothing is stored above the checkpoint |
| Limits.UnseenReorgKeepsStaleHeight | src/scanner.rs:63-77 | A reorg above the checkpoint after an aborted tick goes unnoticed and leaves a row with the height of a block that is gone |
| Limits.NextStartOverflowsIff | src/scanner.rs:234-238 | The forward scan's next index never overflows; the backfill's does exactly when a reply claims the largest index as last and a highest index below the upper bound |

## Left out

- Bulletproof rewinding, keyed BLAKE2b and the secp256k1 calls: an output's proof is given by the value and message it reveals to each credential.
- JSON-RPC, the HTTP client with its size cap, the axum router, bearer check, configuration, secrets and logging.
- The SQL dialect and driver: each statement is its effect on a table, the two explicit transactions are atomic, and a failing statement has no effect.
- Signed 64-bit column casts: indices and heights of valid chains are below 2^63; the signed 32-bit column of `n_child` is modelled by `Tables.NChildRoundTripsIff`, while rows keep the number itself.
- Reorganizations deeper than `REORG_DEPTH`: the code declares them unrepaired.
- A node that changes its chain in the middle of a tick, and rescans in the middle of a tick.
- Block contents below outputs, inputs and hashes, and the same commitment created twice on one chain.
- Hex validation of credentials, the restore-depth limit, health endpoints, transaction relay and the unused `mark_unspent`.
- Ticks.Tick: completion is stated for accounts whose birthday is not above the tip, since a node may refuse to locate a block that does not exist yet.
- Scanner.BackfillScan: replies that overflow the index (`Limits.NextStartOverflowsIff`) are excluded; what happens on overflow is not modelled.
