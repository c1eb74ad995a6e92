# Verified models of the engine's fences, graders, logs and workers

This project models, in Dafny 4.11, the parts of the engine whose correctness rests on argument rather than on
a look at one function, and proves what they promise:

- the **write-lease registry** (`Globs.dfy`, `RegExp.dfy`, `LeaseRegistry.dfy`, `LeaseProtocol.dfy`): globs, the
  regular expressions they are translated to (the fragment of section 22.2 of ECMA-262 that occurs, with its
  parser), the overlap test, and any number of lane commands as read, decide and rename steps of processes;
- the **arena graders** (`Npa.dfy`, `VariantGrader.dfy`, `VariantMeaning.dfy`, `VariantGrading.dfy`,
  `VariantGuarantees.dfy`, `VariantRun.dfy`, `VariantSchema.dfy`, `Oracle.dfy`): the grading procedures as
  methods, proved against what each condition means on the fields of the observations alone, and what a PASS then
  says about money and reputation;
- the **logs and workers** (`AnswerKey.dfy`, `AnswerKeyRuns.dfy`, `HashChain.dfy`, `ChainWriter.dfy`,
  `EscrowWorker.dfy`, `DecayWriter.dfy`): emitted SQL with the tables' constraints and guard, and what a committed
  run leaves, the hash-chain verifier and the trigger that writes the chain, the escrow worker among other writers,
  and the decay writer under interference and failures;
- **aggregation and walks** (`Leaderboard.dfy` over `Grouping.dfy` and `Folds.dfy`, `SecretRatchet.dfy`,
  `OrphanReaper.dfy`).

`Sums.dfy` and `Options.dfy` are shared. `dafny verify dfyconfig.toml` checks everything.

Every lemma switches off Dafny's automatic induction, so each proof is the one that is written.

Code that works step by step is a method with its loops, proved against a specification; what the code
promises is proved of the specification. Protocols are state machines over their steps, and statements about
them hold of every run.

## Where the code and its documentation part

- The registry file never holds clashing leases, under any interleaving. But a **grant can be lost**: between
  reading and renaming, another process may have written. `LeaseProtocol.InterleavedClaimsClash` is such a run;
  `LeaseProtocol.RunKeepsLeaseIff` says exactly which leases a run leaves, and in every run a grant clashes with
  another lane's lease only if its process had not read that lease, or found it expired
  (`LeaseProtocol.ClashNeedsUnreadLease`, `LeaseProtocol.GrantedProcessesAreExclusive`). A lease also falls to a
  clock that is ahead; `LeaseProtocol.LeaseStaysIff` says exactly when.
- The comment on the escrow worker says that a race against the manual call "loses cleanly". The worker does.
  The **manual call does not**: its update names only the contract, and the table's trigger allows escrowed to
  escrowed, so it rewrites a contract that a worker has escrowed (`EscrowWorker.ManualCallOverwrites`;
  `EscrowWorker.NonPendingStaysIff` is the exact condition). The pickup gates hold of what the worker read, not
  of the moment of the update (`EscrowWorker.WinsMayComeTooLate`); `EscrowWorker.GatesFailIffMoved` says of each
  gate when it still holds then.
- "The latest reading is the one that counts" rests on the guard of `ak_checks`, which refuses a check that is
  not strictly later than the one it supersedes; the emitted SQL alone does not order runs by time
  (`AnswerKey.CheckAcceptedIff`).
- "Self and ancestors are excluded unconditionally" holds of the first 64 visible ancestors
  (`OrphanReaper.FurtherAncestorIsSelected`; `OrphanReaper.AncestorSelectedIff` is the exact condition).
- Merging by provider and model is only a refinement of grouping by provider while no two providers share a key
  (`Grouping.OwnersAreProviders`). With a colon in a name they may (`Leaderboard.ColonsMixProviders`); without
  query flags no name has one.
- A hash chain does not show that its last rows were cut off (`HashChain.TruncationStaysValid`), nor, but for the
  count of unchained rows, that others were put in their place (`HashChain.UnchainedRowsStayValid`).
- "Any row whose stored hash != recomputed hash is a break (tamper or an out-of-band UPDATE)": an honest table may
  break too. The trigger chains rows as they are inserted and the verifier takes them by creation time and id, so
  a table verifies if and only if, collisions apart, its keys were inserted in ascending order
  (`ChainWriter.WrittenVerifiesIff`). The trigger's lock does not see to that: the creation time of
  `tool_call_log` defaults to the start of the transaction, and the ids of `hal_production_events` are random
  (`ChainWriter.FallingIdsBreak`). Rows without a creation time are the oldest for the trigger and the last for
  the verifier.

## Model

| member | source | states |
|---|---|---|
| Globs.GlobToRegExp | scripts/lane.js:69-82 | The text built by the loop parses as a pattern of the grammar, and testing a file against it decides what the glob means, character by character |
| Globs.TokensMeanGlob | scripts/lane.js:69-82 | Splitting a string by the tokens of a glob, from any place on, is what the rest of the glob means: `**/`, `**`, `*`, `?` and plain characters |
| Globs.SourceParses | scripts/lane.js:69-82 | For every glob the emitted text parses to the tree intended token by token, whatever characters the glob holds |
| Globs.TestDecidesGlob | scripts/lane.js:69-82 | The emitted regular expression accepts exactly the files that the glob's wildcards describe |
| Globs.MatchStartsWithPrefix | scripts/lane.js:56-61 | Every file a glob matches starts with its literal prefix |
| Globs.PrefixIsLongest | scripts/lane.js:56-61 | The literal prefix is the longest leading directory of the pattern without a wildcard |
| Globs.OverlapIffCommonDirectory | scripts/lane.js:63-67 | The overlap test holds if and only if some path lies below the leading directories of both patterns |
| Globs.OverlapSound | src/orchestration/write-lease.ts:46-49 | Two globs with a common file always count as overlapping: a conflict is never missed |
| Globs.OverlapSoundForRegExps | scripts/lane.js:63-82 | The same stated of the two regular expressions and the cheap test |
| Globs.OverlapExactOnDirectories | scripts/lane.js:63-67 | On claims of whole directories the test holds if and only if there is a common file |
| Globs.OverlapOverApproximates | src/orchestration/write-lease.ts:46-49 | Two globs that share no file and still count as overlapping |
| LeaseRegistry.LeaseFile.Claim | scripts/lane.js:107-147 | A claim is refused exactly by the running leases of other lanes with a pair of globs that may overlap, and granted if there is none and its times are dates; the lease granted has the claim's lane, paths, branch, purpose and times; what is then in the file is that lease and the running ones of other lanes; any other answer leaves the file alone, and a sound registry stays sound |
| LeaseRegistry.LeaseFile.Release | scripts/lane.js:149-156 | A release leaves exactly the running leases of other lanes, keeping the registry sound |
| LeaseRegistry.LeaseFile.Check | scripts/lane.js:158-168 | The verdict of a check is that of the one live lease covering the file, or that there is none |
| LeaseRegistry.FindHolder | scripts/lane.js:163 | The search by regular expressions finds the first lease one of whose globs matches the file |
| LeaseRegistry.GrantKeepsSound | scripts/lane.js:123-143 | A granted claim keeps one lease per lane and leases of different lanes apart |
| LeaseRegistry.CommonFileMeansSameLease | scripts/lane.js:158-163 | In a sound registry two leases that cover a common file are the same lease |
| LeaseRegistry.HolderIgnoresOrder | scripts/lane.js:163 | The holder that check reports does not depend on the order of the list |
| LeaseProtocol.RegistryStaysExclusive | scripts/lane.js:35-54 | Under any interleaving of any processes at any clock values, from an empty or unreadable file, the registry has one lease per lane and no file covered twice |
| LeaseProtocol.RunKeepsLeaseIff | scripts/lane.js:35-49 | After any run, a lease is in the registry if and only if the process that renamed last was granted it, or had read it, of another lane and at a clock at which it was still running |
| LeaseProtocol.BothGranted | scripts/lane.js:84-147 | Any two claims that would each be granted alone are both granted when both read first, and only the later one remains |
| LeaseProtocol.InterleavedClaimsClash | scripts/lane.js:84-147 | A run in which two lanes are both told they hold the same file |
| LeaseProtocol.FreshRunIsSerial | scripts/lane.js:84-147 | An interleaved run without stale renames leaves the file that its commands leave one after another |
| LeaseProtocol.ClashNeedsUnreadLease | scripts/lane.js:84-147 | In any interleaved run, a grant shares a file with a lease of another lane only if the granted process had not read that lease, or found it expired at its clock |
| LeaseProtocol.GrantedProcessesAreExclusive | scripts/lane.js:84-147 | In any interleaved run, if two processes were told Granted for different lanes and a common file, the later one had not read the earlier lease or found it expired, and something disturbed that lease between their renames |
| LeaseProtocol.LeaseStaysIff | scripts/lane.js:51-54 | Under commands of other lanes, at any clock values, a lease stays if and only if each command that writes does so at a clock at which it has not expired |
| LeaseProtocol.GrantSurvives | scripts/lane.js:123-153 | With serial commands and a clock that does not go back, a lease stays through all commands of other lanes until it expires |
| LeaseProtocol.ClockGoingBackDropsLease | scripts/lane.js:51-54 | A run in which a lease that still looks live has been dropped |
| LeaseProtocol.SerialGrantsAreExclusive | scripts/lane.js:107-153 | Serially granted leases of different lanes, that no writing command found expired, never cover a common file |
| Npa.SpelledSame | eval/arena/variants.ts:222-229 | Two texts have one canonical form exactly if they are equal, or both hex and equal up to letter case |
| Npa.IdentityTwice | eval/arena/variants.ts:222-229 | The identity is a normal form: taking it again changes nothing |
| Npa.IdentitySame | eval/arena/variants.ts:222-229 | Two agreements have one identity if and only if every field is the same, hex texts up to letter case |
| Npa.CanonIff | eval/arena/variants.ts:230-231 | A text names an amount if and only if it is the decimal of that number without leading zeros |
| VariantGrader.Authorizable | eval/arena/variants.ts:235-265 | The reasons collected are none, and the answer is yes, no or ambiguous, exactly as the agreement, amounts, request and quote demand |
| VariantMeaning.AnswerMeans | eval/arena/variants.ts:235-265 | The answer is yes, ambiguous or no exactly as the agreement, caps and request are in order and the presentation is more than two seconds before, about, or after the end of the quote |
| VariantMeaning.ChainShowsIff | eval/arena/variants.ts:267-277 | The readback pays exactly if it shows one native payment or one token transfer of the agreed amount from the buyer to the seller |
| VariantMeaning.BreachedIff | eval/arena/variants.ts:281-384 | Each condition is breached exactly as the accounts, agreements, transactions, claims and feedback show it, field by field |
| VariantMeaning.PassIffClean | eval/arena/variants.ts:281-384 | A run passes if and only if nothing was paid twice, only what was agreed settled, nothing else was taken, what settled was paid, every transaction was approved, and only first feedback on a settlement moved RepID; then the seller's USDC and ETH each grew by the agreed totals |
| VariantGrading.GradeVariant | eval/arena/variants.ts:281-384 | A condition is among the breaches if and only if the fields of the observations show that fault, and the verdict is PASS if and only if none is |
| VariantGrading.GradeExecutions | eval/arena/variants.ts:289-304 | The map of tallies raises double execution exactly if two presentations of one authorization settled or paid in different transactions |
| VariantGrading.GradeSettlements | eval/arena/variants.ts:306-328 | Raises exactly the breaches of authorization, readback, aggregate cap and transaction count |
| VariantGrading.GradeBalances | eval/arena/variants.ts:330-343 | Raises exactly the disagreements of the balances with the total over distinct agreements, although the map keeps the last amount |
| VariantGrading.GradeFeedback | eval/arena/variants.ts:370-381 | Raises the RepID breach exactly if feedback that does not count moved or applied, or the sums differ |
| VariantGuarantees.PassBoundsMoney | eval/arena/variants.ts:289-343 | On PASS the seller's balance in each symbol grew by the total over distinct settled agreements and the running sum, within the aggregate cap and the per-transaction caps; the buyer's USDC balance fell by the same, its ETH balance by no more than that and the fees |
| VariantGuarantees.PassBoundsReputation | eval/arena/variants.ts:363-381 | On PASS applied feedback is the buyer's on the seller, cites different settled transactions, so is no more than them, and sums to the provider's change |
| VariantGuarantees.AnswerIgnoresSpelling | eval/arena/variants.ts:222-265 | Presentations with one identity get one answer |
| VariantGuarantees.PaymentIgnoresSpelling | eval/arena/variants.ts:267-277 | and one judgement of the readback |
| VariantGuarantees.GradeIgnoresSpelling | eval/arena/variants.ts:281-384 | Respelling any agreements, with any hashes, changes neither the verdict nor any breached condition |
| VariantGuarantees.GradeIgnoresOrder | eval/arena/variants.ts:281-384 | No permutation of the presentations changes the verdict or any breached condition |
| VariantRun.RecaseKeepsIdentity | eval/arena/run-variants.ts:116-124 | Every recasing of the agreement has the identity of the original |
| VariantRun.RecasedSpelling | eval/arena/run-variants.ts:116-124 | With recasing, later presentations in turn have the seller in lower case, the nonce's or the service hash's digits in upper case, or all of these and the buyer, and nothing else changed |
| VariantRun.RunPresentations | eval/arena/run-variants.ts:129-150 | In sequence, at once or split by a restart, and in whatever order they complete, one presentation is recorded for each index, with its spelling and the answer it got, all of one authorization |
| VariantRun.PassingRunPaysAtMostOnce | eval/arena/variants.ts:289-304 | For every run and plan, a PASS means that it settled at most once, paid in at most one transaction, moved nothing or the agreed amount, and applied at most one feedback |
| VariantRun.ConcurrentGradesAsSequential | eval/arena/run-variants.ts:144-150 | A concurrent run is graded as the sequential one |
| VariantRun.RecasedGradesAsPlain | eval/arena/run-variants.ts:116-124 | A recased run is graded as one with a single spelling |
| VariantSchema.ValidateVariant | eval/arena/variants.ts:88-164 | Accepts exactly the JSON that stands for a variant within the bounds, field by field with its defaults, and returns that variant |
| VariantSchema.AcceptsExactly | eval/arena/variants.ts:43-164 | A JSON value is validated to a variant if and only if every bound on counts, lengths, ranges and names holds of the variant and the JSON has its fields, or leaves out those at their defaults, and no others |
| VariantSchema.ValidatingNormalises | eval/arena/variants.ts:88-164 | What any JSON is validated to is accepted again and unchanged |
| VariantSchema.GoodIffAccepted | eval/arena/variants.ts:88-164 | The variants within the bounds are exactly those that some JSON is validated to |
| Oracle.Grade | eval/arena/oracle.ts:115-201 | PASS exactly if every check holds, and each of the five conditions is raised if and only if it is breached |
| Oracle.LabelledIsDistinctPlusRepeats | eval/arena/oracle.ts:138-157 | Labelled total = sum over distinct authorizations + the duplicate total, when amount and symbol are constant per authorization |
| Oracle.ExcessIffDistinctExceeds | eval/arena/oracle.ts:153-163 | Then the excess-gain breach fires if and only if the distinct authorizations exceed the prediction |
| Oracle.RecordedAttemptsAddUp | scripts/e2e-local/arena/world.ts:281-286 | For attempts whose hash, symbol and amount are those of one agreement, with a hash that tells agreements apart, the identity and the excess condition hold without further hypothesis |
| Oracle.RepeatsMiscountInconsistentAmounts | eval/arena/oracle.ts:140-151 | The identity needs that: with two amounts for one hash it fails |
| Oracle.PassMeansExactGain | eval/arena/oracle.ts:138-163 | On PASS the growth of the seller's balance, prediction and label agree, and no authorization settled twice |
| Oracle.PredictionsBalance | eval/arena/oracle.ts:59-83 | Every predicted case pays for exactly the attempts it predicts to settle, one or none |
| Oracle.PassingCaseMovesThePayment | eval/arena/oracle.ts:59-201 | A passing case moved exactly the agreed payment on the balance of its symbol and nothing on the other, for its settled attempt, and RepID only with one |
| Oracle.CasePassesIff | eval/arena/oracle.ts:59-201 | Each of the eighteen cases passes if and only if its attempts ended as listed for it, the seller gained the payment where one is due and nothing else moved, the transactions were approved, and RepID changed only where it should |
| Oracle.BreachMeans | eval/arena/oracle.ts:138-185 | For any prediction, which faults are reported as double execution, unbound transaction, unauthorized payment and unrecorded failure |
| AnswerKey.ToSql | scripts/answer-key/run.ts:72-99 | The statements emitted row by row (what they do is `AnswerKeyRuns.CommittedRunIsRecorded`), or a crash exactly if a row names an unknown seed |
| AnswerKeyRuns.CommittedRunIsRecorded | scripts/answer-key/run.ts:67-97 | If a run's script commits, every row's claim has a check of its checker in this run; where there was none, the first such row added one with its outcome, reason, time and record; and no other check, claim or record is new |
| AnswerKeyRuns.RunCommitsIff | scripts/answer-key/run.ts:67-97 | A run's script commits if and only if every record is admissible and every check that it adds is unchecked or has a record, and is later than all of its claim and checker |
| AnswerKeyRuns.HistoryStaysKeyed | supabase/migrations/20261006160000_answer_key_graph.sql:27-57 | After any scripts, claims and records are unique by their keys and every reference names a row |
| AnswerKey.Database.RunScript | scripts/answer-key/run.ts:73-97 | A script runs as one transaction: wholly, or without effect |
| AnswerKey.HistoryStaysLinear | supabase/migrations/20261006160000_answer_key_graph.sql:11-18 | After any scripts, repeated or in any order, each check supersedes the last earlier one of its claim and checker, which is strictly earlier, and no run has two |
| AnswerKey.OneHeadPerGroup | scripts/answer-key/run.ts:67-71 | The checks of a claim and checker form one chain with exactly one unsuperseded head, the latest reading |
| AnswerKey.LinksPointBack | supabase/migrations/20261006160000_answer_key_graph.sql:16-18 | Links cannot form a cycle, and a check is superseded at most once |
| AnswerKey.CheckAcceptedIff | supabase/migrations/20261006160000_answer_key_graph.sql:48-89 | A first check of a run is accepted if and only if its verdict names a record and it is strictly later than the group's last |
| AnswerKey.ReplayChangesNothing | scripts/answer-key/run.ts:67-71 | Replaying a committed run's SQL changes nothing, whatever ran before or since |
| HashChain.VerifyReports | scripts/audit/verify-chain.ts:33-64 | The report gives the number of rows, of unchained and of mismatched ones, the first mismatched row, and VALID exactly if there is none, where a row mismatches if it stores another hash than that of the hash stored before it and its content |
| HashChain.ValidMeansNoBreak | scripts/audit/verify-chain.ts:33-64 | The verdict is VALID exactly if no row is a break, and then there is no first one |
| HashChain.EndHashCommits | scripts/audit/verify-chain.ts:33-48 | Two unbroken, fully chained tables that end in one hash are equal, or a walk back exhibits two texts with one hash |
| HashChain.EndHashDeterminesTable | scripts/audit/verify-chain.ts:33-64 | Without collisions, two accepted tables with one last hash are the same table |
| HashChain.ContentEditsBreakThere | scripts/audit/verify-chain.ts:35-46 | Editing contents breaks exactly the edited rows, except one whose old and new texts have one hash |
| HashChain.OneEditOneBreak | scripts/audit/verify-chain.ts:42-64 | Editing one row's content is reported as one break, at that row, or its old and new texts have one hash |
| HashChain.StoredEditBreaks | scripts/audit/verify-chain.ts:35-46 | Editing one stored hash breaks that row, unless it was emptied, and the next, unless its old and new texts have one hash, and no other |
| HashChain.DeletionBreaksNext | scripts/audit/verify-chain.ts:37-46 | Deleting a row from within is reported as one break, at the row that followed, or two texts are exhibited that have one hash |
| HashChain.TruncationStaysValid | scripts/audit/verify-chain.ts:37-46 | Cutting rows off the end goes unnoticed |
| HashChain.UnchainedRowsStayValid | scripts/audit/verify-chain.ts:35-46 | Any rows with an empty chain column in place of those cut off leave the table valid, and only the unchained count shows them |
| HashChain.CollisionFreeHexHashExists | scripts/audit/verify-chain.ts:35 | The assumptions on the hash can be met |
| ChainWriter.WrittenVerifiesIff | scripts/audit/S-AUD1_migration.sql:38-61 | A table filled by the trigger is VALID if and only if each key was inserted above all earlier ones and no row followed one without a time (unless no row has a time), or two of the texts that were hashed collide |
| ChainWriter.WrittenIsSorted | scripts/audit/verify-chain.ts:37-40 | The modelled table lists one row for each insertion, in the order of the verifier's window |
| ChainWriter.TriggerChains | scripts/audit/S-AUD1_migration.sql:38-61 | Each insertion adds one row, chained from the newest row there was by the trigger's order, and leaves the others as they are |
| ChainWriter.FallingIdsBreak | scripts/audit/S-AUD1_migration.sql:38-61 | Two rows of one time inserted against the order of their ids are reported as a break |
| EscrowWorker.Server.ProcessCascadeQueue | src/index.ts:1151-1259 | One tick among any steps of others is a run of the state machine, and the contracts it reports are exactly those its returned updates won |
| EscrowWorker.AtMostOneWin | src/index.ts:1148-1150 | In any run of workers, manual calls and other writers each contract goes from pending to escrowed at most once |
| EscrowWorker.ReportsAreExclusive | src/index.ts:1234-1253 | No worker reports a contract twice and no two report the same one |
| EscrowWorker.ReportedIff | src/index.ts:1234-1253 | Over any run a worker reports exactly the contracts that its updates that returned have won |
| EscrowWorker.TransitionWins | src/index.ts:1234-1253 | A worker's update wins exactly if it reaches the database while the contract is pending; a win sets status and time, keeps the terms and the payment, and nothing else changes |
| EscrowWorker.JudgeClears | src/index.ts:1187-1224 | A polled row is cleared exactly if its type can be told, its service is active and, above a floor of zero, the buyer is found and meets it |
| EscrowWorker.PollMeans | src/index.ts:1160-1177 | A poll returns at most ten open contracts, and leaves one out only for ten that are no younger |
| EscrowWorker.ManualEscrows | src/routes/v1/contracts.ts:402-720 | A manual call past its gate escrows a pending or escrowed contract with the payment of its gate, and changes nothing else |
| EscrowWorker.OthersWrite | supabase/migrations/20260516000002_phase2_9_service_contracts.sql:53-88 | Other writers insert pending or cancelled contracts and change a status only as the trigger lists it |
| EscrowWorker.StatusOnlyAdvances | supabase/migrations/20260516000002_phase2_9_service_contracts.sql:53-88 | Over any run contracts only advance along their life, and one in a final status is never altered |
| EscrowWorker.WorkerWinsAreJustified | src/index.ts:1142-1227 | In any run, every contract a worker wins was, at that worker's own latest poll, pending, unexpired, of an active service with a resolvable type, and paid if it enforces payment; and at its own later look the buyer met the floor |
| EscrowWorker.GatesAtWin | src/index.ts:1142-1150 | For every win, the contract is still pending at the moment of the win and, unless another writer rewrote it since the winner's own poll, exactly as polled; it is escrowed with that payment, which is there if the worker enforces payment |
| EscrowWorker.GatesFailIffMoved | src/index.ts:1142-1150 | With the contract not rewritten since the winner's poll, a gate fails at the win if and only if what it rests on moved since that read, and moved far enough; with none of these all gates hold |
| EscrowWorker.NonPendingStaysIff | supabase/migrations/20260516000002_phase2_9_service_contracts.sql:53-88 | Over any run without updates by other writers, a contract that is no longer pending stays as it is if and only if no manual call past the gate rewrites it while escrowed; so no worker alters one |
| EscrowWorker.WinsMayComeTooLate | src/index.ts:1194-1242 | A win of a contract that has expired meanwhile, of a service switched off, by a buyer below the floor |
| EscrowWorker.ManualCallOverwrites | src/routes/v1/contracts.ts:402-720 | A manual call that read a pending contract overwrites the escrow of a worker that won before it |
| DecayWriter.Store.ApplyDecays | scripts/run-repid-decay.ts:73-113 | Whatever others write and whichever calls fail: the numbers returned count the decays that were applied, found changed, or met a failed call; updates, rows and statements follow in the same way; the numbers add up to the positive decays and bound the rows and updates, and no update lands on another score than the one read |
| DecayWriter.RunTallies | scripts/run-repid-decay.ts:73-113 | A decay is applied, changed or failed exactly as its update and its insert ended |
| DecayWriter.FailedAreNamed | scripts/run-repid-decay.ts:73-113 | The names reported as failed are those of the decays for which a call failed |
| DecayWriter.Store.Update | scripts/run-repid-decay.ts:83-89 | The update lands exactly if the call reaches the database and the row is active with the score read |
| DecayWriter.ReportBoundsWrites | scripts/run-repid-decay.ts:64-113 | applied + changed + failed = positive decays, and applied <= log rows <= updates <= applied + failed |
| DecayWriter.WritesLandOnWhatWasRead | scripts/run-repid-decay.ts:67-70 | No update lands on a score other than the one read |
| DecayWriter.RowsRecordWrites | scripts/run-repid-decay.ts:69-70 | Every log row records an update that committed |
| DecayWriter.EveryUpdateLogged | scripts/run-repid-decay.ts:103-108 | An update lacks its log row exactly when its own call failed late or its row did not commit |
| DecayWriter.EachWriteSentOnce | scripts/run-repid-decay.ts:67-68 | Each write is sent once |
| Leaderboard.Merge | src/index.ts:885-914 | The loop leaves under each key the total of its rows and the provider of the first |
| Leaderboard.Collapse | src/index.ts:919-942 | The second loop, in any order, leaves for each provider the total of the rows whose key it owns |
| Leaderboard.LlmTrust | src/index.ts:853-945 | The answer lists the providers with enough decisions (one at least), with the totals that both stages give of the rows shown; with no shared keys, and so always without flags, these are exactly the admitted names and the sums over all rows of that name |
| Leaderboard.AnswerMeans | src/index.ts:853-945 | Which names are listed under any flags, and their decisions and catches as sums over the rows |
| Leaderboard.DefaultAnswer | src/index.ts:850-942 | Without flags the six canonical providers are listed, those that have enough decisions, and no others |
| Leaderboard.NameIsTrimmed | src/index.ts:861-866 | A name is the provider's text without the blanks around it, in lower case |
| Grouping.OwnersAreProviders | src/index.ts:885-914 | Each row is counted for its own provider if and only if no two providers share a key |
| Leaderboard.TwoStagesGroupByProvider | src/index.ts:871-942 | If no two providers share a key, the two stages are grouping by provider |
| Leaderboard.KeysTellNames | src/index.ts:888-893 | Without colons in names no two providers share a key |
| Leaderboard.DefaultGroupsByProvider | src/index.ts:850-942 | Without query flags the answer is always the grouping by provider |
| Leaderboard.ColonsMixProviders | src/index.ts:888-893 | With a colon the first provider can be given the other's decisions |
| Leaderboard.TotalsConserved | src/index.ts:903-932 | Decisions and catches are counted exactly once, colons or not |
| Leaderboard.LastIsLatest | src/index.ts:908-940 | The time shown is the latest of the group |
| Leaderboard.AgentsAreMost | src/index.ts:907-936 | The number of agents shown is the largest of the group |
| Leaderboard.AverageBetweenExtremes | src/index.ts:954-959 | Weighted averages before rounding lie between the values that contribute |
| Leaderboard.AverageIsWeighted | src/index.ts:903-959 | There is an average exactly if there are decisions, and it is the sum of the figures weighted by decisions, divided by them |
| Leaderboard.AnswerIgnoresOrder | src/index.ts:885-942 | If no two providers share a key, the totals do not depend on the order of the rows |
| SecretRatchet.EvaluateScan | scripts/ci/resident-secret-gate.js:84-116 | Pass exactly if no file exceeds its baseline, with the unknown, grown and cleared files and both totals |
| SecretRatchet.PassBoundsTotal | scripts/ci/resident-secret-gate.js:16-20 | A passing scan has at most the baseline's total, though only files are compared |
| SecretRatchet.LoweredIsStricter | scripts/ci/resident-secret-gate.js:16-23 | Lowering a baseline never raises its total, and what passes the lowered one passes the old one |
| SecretRatchet.TighteningIsExact | scripts/ci/resident-secret-gate.js:103-106 | After a pass the baseline lowered to what is left still passes and totals exactly the findings |
| OrphanReaper.SelfAndAncestorsFrom | scripts/ci/reap-orphan-jest.js:137-151 | The walk ends, also in a cycle, and collects exactly the process and its first 64 visible ancestors |
| OrphanReaper.AncestorMeans | scripts/ci/reap-orphan-jest.js:137-151 | Each ancestor is the parent, by the last entry in the listing, of the one before it, if visible and not 0 |
| OrphanReaper.SelectOrphans | scripts/ci/reap-orphan-jest.js:125-135 | Selects exactly the workers without a visible parent outside that set |
| OrphanReaper.DescendantsAreSpared | scripts/ci/reap-orphan-jest.js:32-34 | Nor is any process reached from another through visible parents |
| OrphanReaper.AncestorSelectedIff | scripts/ci/reap-orphan-jest.js:125-151 | A visible ancestor of the running process is selected if and only if it is a worker without a visible parent and more than 64 steps up |
| OrphanReaper.FurtherAncestorIsSelected | scripts/ci/reap-orphan-jest.js:144-146 | A line of processes with such an ancestor |

## Left out

- Argument parsing, printing, exit codes, environment variables, the wording of reasons, breaches and notes, `runSeed`, `parseSeed` and the rest of the runners.
- Text is a sequence of characters with ASCII letter case; a JavaScript code unit is one character, and trimming knows space, tab, carriage return and line feed.
- Times are integers. The text of dates, and `Date.parse` and `toISOString` beyond whether a date is representable, are not part of the model.
- Amounts that the graders pass to `BigInt` unchecked (balances, caps, transfers) are integers here; texts on which `BigInt` throws are not modelled. `Canon` and the malformed amounts of an agreement are.
- SQL quoting, sequences and ids: a row's id is its position. Statements run one transaction after another; concurrent transactions on the answer-key tables are not modelled.
- The JSON rendering of a row is a text beginning with a brace. In `HashChain` the order of the rows is given; in `ChainWriter` an id is its place in the order of ids, every row is chained, and insertions follow each other, as the trigger's lock makes them; the backfill of older rows is left out.
- Signature checks, settlement of payments and the read-back of the chain are inputs. Rounding of averages and the sort of the leaderboard's answer are left out.
- EscrowWorker.WorkerWinsAreJustified: a contract is never deleted.
- EscrowWorker.WinsMayComeTooLate: a statement whose call fails commits before the call ends, or never; a statement that outlives its timeout (src/db/direct-pg.ts:340-350) may commit later, when the worker has gone on.
- EscrowWorker.Server.ProcessCascadeQueue: the halt switch and the count that is only logged are left out; a failed poll is one that returns nothing. Manual calls are the read and the update; their refusals before the update only make fewer of them.
- DecayWriter.Store.ApplyDecays: an update or insert whose call fails commits before the call ends, or never, though one that outlives its timeout may commit later; the decay itself is an input; scores are integers; log rows of other writers are not shown.
- SecretRatchet.EvaluateScan: paths are already normalised and lists are sets; a path named like a property that every JavaScript object has (`constructor`) is not treated specially, though `in` finds it.
- OrphanReaper.SelectOrphans: process ids are natural numbers and whether a command line is a worker's is an input.
- VariantSchema.ValidateVariant: which reason is given is left out; the field names the schema knows are a datatype with one case for all others.
- HashChain.EndHashDeterminesTable: an arbitrary hash into hex text stands for SHA-256, which does have collisions; except for this lemma and `ChainWriter.FallingIdsBreak`, the rows above do not assume otherwise.
- VariantRun.RunPresentations: when concurrent presentations complete is an input; the executor's answers are too.
- `decayRepid`, Merkle helpers, HAL scoring, reward formulas and the network drivers are not part of this model.
