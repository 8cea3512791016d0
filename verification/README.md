# Verified model of the dashboard agent's store, URIs and schema guards

This project models four parts of the repository in Dafny and proves what they promise:

1. **The dashboard agent's transcript and investigation store**
   (`internal-packages/dashboard-agent-db/src/queries.ts`, with `watch-queries.ts`, `maintenance.ts`,
   `investigation-sweep.ts` and `blocks.ts`). `TranscriptStore.Store` is the database: one map
   field per table, methods that update them in place, and transactions that commit or restore
   every table. Each method is proved equal to a function of the old state (`StoreState`); the
   theorems are about those functions and about runs of them (`StoreRuns`): gap-free transcripts,
   durable messages, what deletion freezes and ends, revision counts, row-and-card atomicity,
   idempotent redelivery. `PositionAllocator` takes the writers apart into check, reserve and
   insert steps in any interleaving, and `AllocatorRefinement` shows that the atomic writes are
   its uninterrupted runs. `StoreColumns`, `RetentionScope` and `SweepScope` say in the columns of
   the tables which rows a statement, a retention pass and a sweep may touch; `SettlementCard` and
   `SettledCards` say what a closing card shows.
   `Retention` and `Sweep` are the two background passes that drive the store; `SweepFairness`
   bounds how long a stale row can wait.
2. **The `trigger://` URI grammar** (`trigger-uri.ts`): parser, printer, percent-encoding over
   UTF-8 (RFC 3629, section 3; RFC 3986, section 2.1; ECMA-262, section 19.2.6), and the numbers a
   `?line=` can hold as IEEE 754 doubles, so rounding and the exponent form are part of the model.
3. **The two schema guards** (`runOpsLegacyGuard.ts`, `fkCascadeIndexGuard.ts`): the type walk with
   its shared visited set, the alias and transaction-origin walk, the seam derivation, the selection
   walk, and the scanner that joins physical lines into logical ones.
4. **Small arithmetic and string cores**: replication versions (`taskRuns.ts`), UTF-16
   well-formedness (`well-formed.ts`), watch identities (`watch.ts`, `watch-wording.ts`).

Clocks, generated ids, the text the database prints for a headline that is no string, and the
database's refusals are parameters. Strings are sequences of UTF-16 units.

Where a property does not hold for every input, the model keeps the code as it is, states the exact
condition under which the property holds, and gives a concrete input where it fails:

| exact condition | concrete input |
|---|---|
| `WellFormed.CutEndsOnAHighSurrogateExactly` | `CutsThatEndOnAHighSurrogate` |
| `TriggerUriRoundTrip.FormatThenParse` | `ALineOf10To21IsNotReadBack` |
| `TriggerUriCanonical.ParseThenFormat` | `EscapedSlashHasNoCanonicalSpelling` |
| `Investigation.SettlePathsAgreeExactly` | `ATrailingSpaceSplitsTheSettlePaths` |
| `DeletedChat.SettlesWithoutItsCardExactly` | `AnAbandonedRowIsSettledSilently` |
| `TurnSettlement.TurnClosesItsCardsExactly` | `DeletedChat.ATurnSettlesSilently` |
| `TurnReplay.ReplayedTurnIsQuietExactly` | `DeletedChat.AReplayedTurnSettlesAgain` |
| `PositionAllocator.GapsAreHeldOrLost` | `ALostRaceLeavesAGap` |
| `RetentionBatches.UnorderedDrainIsOldestFirstExactly` | `ADrainMayKeepTheOlderSubmission` |
| `NewlineForSpace.NewlineForSpaceIsExact` | `BreaksThatShow` |
| `TaskRunVersion.VersionsOrderLexicographically` | `PositionsPastTheMaskWrap` |
| `WatchIdentity.SubjectIsRecoveredExactly` | `EmptyQueueNameIsLost` |

## Where the code and its comments differ

- `sliceWellFormed` is described as never ending on a high surrogate, "already lone" ones included.
  It returns a string within the bound as it is, and a slice that ends with two high surrogates
  still ends with one (`CutEndsOnAHighSurrogateExactly`, `CutsThatEndOnAHighSurrogate`).
- The settle paths are described as never leaving a terminal row without its card. The sweep's path
  and `persistTurn` do exactly that when the chat is deleted (`SettlesWithoutItsCardExactly`,
  `AnAbandonedRowIsSettledSilently`, `TurnClosesItsCardsExactly`, `ATurnSettlesSilently`). Only
  `settleInvestigationStateAndCloseCard` checks the chat first.
- The retention pass is described as "oldest first". The statements for watch submissions and for
  terminal watches have no order, so a drain of theirs is sure to go oldest first exactly when it
  takes everything due, nothing, or rows of one age (`UnorderedDrainIsOldestFirstExactly`,
  `ADrainMayKeepTheOlderSubmission`).
- `settleInvestigationAsInconclusive` is described as mirroring `forceSettledInvestigationState`. The
  two differ on a headline with white space around it, because `btrim` removes plain spaces only and
  the headline is not trimmed before the note is added (`SettlePathsAgreeExactly`,
  `ATrailingSpaceSplitsTheSettlePaths`).

## Model

| member | source | states |
|---|---|---|
| WellFormed.SliceIsLongestWellFormedPrefix | internal-packages/dashboard-agent-contracts/src/well-formed.ts:3-9 | on well-formed input the cut is the longest well-formed prefix within the bound, negative bounds included |
| WellFormed.CutEndsOnAHighSurrogateExactly | internal-packages/dashboard-agent-contracts/src/well-formed.ts:3-9 | for every string and bound, the result ends on a high surrogate exactly when the whole string fits and ends on one, or two of them end the slice |
| WellFormed.CutsThatEndOnAHighSurrogate | internal-packages/dashboard-agent-contracts/src/well-formed.ts:3-9 | a concrete string for each of the two ways |
| WellFormed.ToWellFormedRepairs | internal-packages/dashboard-agent-contracts/src/well-formed.ts:16-18 | repair always gives a well-formed string and changes exactly the ill-formed ones |
| WellFormed.RepairsExactlyTheLone | internal-packages/dashboard-agent-contracts/src/well-formed.ts:16-18 | position by position, exactly the surrogates without their other half become U+FFFD |
| WellFormed.DeepRepairsEverything | internal-packages/dashboard-agent-contracts/src/well-formed.ts:30-53 | after the deep repair every string and every key is well-formed |
| WellFormed.DeepKeepsTheWellFormed | internal-packages/dashboard-agent-contracts/src/well-formed.ts:30-53 | a value without lone surrogates comes back as it was |
| WellFormed.DeepIsIdempotent | internal-packages/dashboard-agent-contracts/src/well-formed.ts:30-53 | repairing twice is repairing once |
| WellFormed.ToWellFormedDeep | internal-packages/dashboard-agent-contracts/src/well-formed.ts:30-53 | the loop with its changed flag computes the plain recursive map, and reports a change exactly when something was ill-formed |
| WellFormed.RepairItems | internal-packages/dashboard-agent-contracts/src/well-formed.ts:32-40 | the array loop repairs every item, and its flag says whether any item needed it |
| WellFormed.RepairFields | internal-packages/dashboard-agent-contracts/src/well-formed.ts:41-51 | the object loop writes every repaired key and value in order, and its flag says whether any needed it |
| UriCodec.Utf8RoundTrip | internal-packages/dashboard-agent-contracts/src/trigger-uri.ts:263-269 | decoding the UTF-8 octets of any scalar value gives it back |
| UriCodec.DecodesExactlyUtf8 | internal-packages/dashboard-agent-contracts/src/trigger-uri.ts:86-97 | octets decode exactly if they are the encoding of a scalar value: no overlong form, no surrogate, nothing out of range |
| UriCodec.HexDigitsExactly | internal-packages/dashboard-agent-contracts/src/trigger-uri.ts:86-97 | exactly the hexadecimal digits are read, in both cases |
| UriCodec.DecodeUndoesEncode | internal-packages/dashboard-agent-contracts/src/trigger-uri.ts:263-269 | percent-decoding undoes percent-encoding on every well-formed string |
| UriCodec.EncodeIsUriSafe | internal-packages/dashboard-agent-contracts/src/trigger-uri.ts:263-269 | an encoded segment holds only unreserved characters and escapes, and is empty only for the empty string |
| Numbers.RoundIsIdempotent | internal-packages/dashboard-agent-contracts/src/trigger-uri.ts:279-300 | reading a digit string lands on a double and leaves everything below 2^53 alone |
| Numbers.RoundIsNearest | internal-packages/dashboard-agent-contracts/src/trigger-uri.ts:279-300 | a digit string is read as the nearest of all doubles |
| Numbers.TiesGoToEven | internal-packages/dashboard-agent-contracts/src/trigger-uri.ts:279-300 | half way between two doubles it is read as the one with the even significand |
| Numbers.ShortestIsShortest | internal-packages/dashboard-agent-contracts/src/trigger-uri.ts:226-235 | no number that reads as the printed double has more trailing zeros, up to the cap, than the one printed |
| Numbers.PrintedNumberReadsBack | internal-packages/dashboard-agent-contracts/src/trigger-uri.ts:226-235 | a printed double is all digits exactly below 10^21, and then reads back as itself |
| Numbers.ToTextIsInjective | internal-packages/dashboard-agent-contracts/src/trigger-uri.ts:226-235 | different doubles print differently, in digits and in exponent form |
| TriggerUri.DecodeSegments | internal-packages/dashboard-agent-contracts/src/trigger-uri.ts:86-102 | the decoding loop gives every segment decoded, or the first failure |
| TriggerUri.ParseLineParam | internal-packages/dashboard-agent-contracts/src/trigger-uri.ts:279-300 | the query loop keeps the last line, and fails on the first bad pair |
| TriggerUri.SafeParseTriggerUri | internal-packages/dashboard-agent-contracts/src/trigger-uri.ts:61-181 | the parser follows its specification, branches and errors in their order, for every input |
| TriggerUriAcceptance.AcceptsExactly | internal-packages/dashboard-agent-contracts/src/trigger-uri.ts:61-300 | from the text alone: exactly which inputs are accepted, and as which value; components, arity of each kind, queries on sources only, every pair a positive line, the last one counting, no fragment |
| TriggerUriRoundTrip.FormatSucceedsExactly | internal-packages/dashboard-agent-contracts/src/trigger-uri.ts:197-241 | printing succeeds exactly on non-empty well-formed fields without empty path components and a positive whole line |
| TriggerUriRoundTrip.FormatThenParse | internal-packages/dashboard-agent-contracts/src/trigger-uri.ts:61-300 | parsing what was printed gives the same value, for all nine kinds, exactly when also the line is below 10^21; otherwise the line is refused |
| TriggerUriRoundTrip.ALineOf10To21IsNotReadBack | internal-packages/dashboard-agent-contracts/src/trigger-uri.ts:226-300 | a concrete value that is printed and then refused |
| TriggerUriRoundTrip.FormatIsInjective | internal-packages/dashboard-agent-contracts/src/trigger-uri.ts:197-241 | two values that print alike are the same value, also where the line is printed with an exponent and the text is not read back |
| TriggerUriCanonical.ParseThenFormat | internal-packages/dashboard-agent-contracts/src/trigger-uri.ts:61-241 | an accepted input's value prints and parses back exactly when it has no lone surrogate, no empty path component and a line below 10^21 |
| TriggerUriCanonical.WellFormedInputHasWellFormedFields | internal-packages/dashboard-agent-contracts/src/trigger-uri.ts:61-181 | parsing never creates a lone surrogate out of a well-formed input |
| TriggerUriCanonical.CanonicalFormIsStable | internal-packages/dashboard-agent-contracts/src/trigger-uri.ts:61-241 | for well-formed accepted inputs, format-after-parse keeps the value and is idempotent, exactly under that condition |
| TriggerUriCanonical.EscapedSlashHasNoCanonicalSpelling | internal-packages/dashboard-agent-contracts/src/trigger-uri.ts:162-177 | a source path that is an escaped slash is accepted but cannot be printed |
| Investigation.SettlementMessage | internal-packages/dashboard-agent-db/src/queries.ts:1001-1031 | a closing card is built exactly for a schema-valid state |
| SettlementCard.CardShowsItsState | internal-packages/dashboard-agent-db/src/queries.ts:1001-1031 | the card is one view part under the message id; its output block has the id, the revision, the block version, and every schema member of the state, list by list |
| SettlementCard.ParsedStateShowsItsState | internal-packages/dashboard-agent-contracts/src/blocks.ts:413-465 | parsing a state drops what the schema does not name, and nothing else |
| SettlementCard.CardsKeepTheRules | internal-packages/dashboard-agent-contracts/src/blocks.ts:374-482 | a state that becomes a card offers a fix only when concluded, things to check only when inconclusive, backs every validated hypothesis and cites by URIs of the stated kind |
| SettledCards.SweepCardShowsItsRow | internal-packages/dashboard-agent-db/src/queries.ts:1198-1220 | a card the sweep stores shows the row's new revision, outcome and headline |
| SettledCards.SettleStateCardShowsItsRow | internal-packages/dashboard-agent-db/src/queries.ts:1263-1354 | so does the card of the caller's settle |
| SettledCards.TurnCardShowsItsRow | internal-packages/dashboard-agent-db/src/queries.ts:675-721 | and the card of a turn's last settlement of a row, unless the turn or the chat already has a message of that id |
| Investigation.SettledStateIsValidExactly | internal-packages/dashboard-agent-contracts/src/blocks.ts:410-512 | a settled state is schema-valid, inconclusive and without progress or fix exactly when the members settling leaves alone are valid |
| Investigation.SweptHeadline | internal-packages/dashboard-agent-db/src/queries.ts:1155-1183 | the merged headline: the note alone where there was none, else the old text without leading spaces, one space, and the note |
| Investigation.SettlingAValidStateAlwaysRenders | internal-packages/dashboard-agent-contracts/src/blocks.ts:503-512 | settling a valid state on either path never gives a state the card builder refuses |
| Investigation.SettlePathsAgreeExactly | internal-packages/dashboard-agent-db/src/queries.ts:1155-1183 | the SQL merge equals the TypeScript settle exactly when past leading spaces the headline has no white space at its ends |
| Investigation.ATrailingSpaceSplitsTheSettlePaths | internal-packages/dashboard-agent-db/src/queries.ts:1155-1183 | a concrete valid state whose headline ends with one space is settled differently by the two |
| Investigation.SettlePathsAgreeOnTrimmedHeadlines | internal-packages/dashboard-agent-db/src/queries.ts:1155-1183 | the two settles agree on every headline without surrounding white space |
| Investigation.SettlementMessageIdIsInjective | internal-packages/dashboard-agent-db/src/queries.ts:985-991 | distinct investigations or revisions never share a closing message id |
| TranscriptStore.Store.ReserveMessagePositions | internal-packages/dashboard-agent-db/src/queries.ts:410-427 | a live chat gives out the positions from its counter on and moves the counter past them; any other chat gives out none |
| TranscriptStore.Store.FinalizeChatMessage | internal-packages/dashboard-agent-db/src/queries.ts:520-551 | the in-place rewrite and its four refusals, as the specification function says |
| TranscriptStore.Store.Dedupe | internal-packages/dashboard-agent-db/src/queries.ts:451-459 | the batch is accepted in order, or refused for its first message without an id or with a repeated one |
| TranscriptStore.Store.DropStored | internal-packages/dashboard-agent-db/src/queries.ts:472-490 | whatever order the stored ids come in, what is left is the missing messages in batch order and the rewrites are those allowed |
| TranscriptStore.Store.InsertMessages | internal-packages/dashboard-agent-db/src/queries.ts:496-507 | the missing messages go in at consecutive positions, and no insert meets a taken position |
| TranscriptStore.Store.StoreChatMessages | internal-packages/dashboard-agent-db/src/queries.ts:446-508 | the whole batch store refines its specification |
| TranscriptStore.Store.PersistMessages | internal-packages/dashboard-agent-db/src/queries.ts:554-559 | the batch commits or leaves every table as it was, and keeps the invariant |
| TranscriptStore.Store.AppendOneMessage | internal-packages/dashboard-agent-db/src/queries.ts:569-600 | reserve and insert as one statement, never meeting a taken position, and keeping the invariant |
| StoreColumns.AppendWritesExactly | internal-packages/dashboard-agent-db/src/queries.ts:569-628 | in columns: an append writes exactly into its owner's live chat and under a new id, one row at the counter, the counter by one, both clocks to now; otherwise nothing |
| StoreColumns.StrangersAppendNothing | internal-packages/dashboard-agent-db/src/queries.ts:601-628 | another user's append, or one for another organization, commits false and changes nothing |
| TranscriptStore.Store.CreateChatRow | internal-packages/dashboard-agent-db/src/queries.ts:243-263 | a new chat starts gap-free with its counter at 1; an existing one is left alone |
| StoreColumns.ANewChatIsItsCreators | internal-packages/dashboard-agent-db/src/queries.ts:243-263 | a new chat is live and empty, and its creator may append to it and delete it |
| TranscriptStore.Store.SoftDeleteOne | internal-packages/dashboard-agent-db/src/queries.ts:335-370 | only the owner's live chat is marked; in the same transaction its active watches are cancelled and returned, and the wakes its finished ones owe are settled |
| TranscriptStore.Store.SoftDeleteChatsForOrganization | internal-packages/dashboard-agent-db/src/queries.ts:831-845 | exactly the organization's live chats stop being live, and they are counted; the wakes its finished watches owe are settled, and its active ones stay |
| TranscriptStore.Store.DeleteChatsByIds | internal-packages/dashboard-agent-db/src/queries.ts:781-793 | every chat-keyed table loses exactly the rows of those chats, and the chats found are returned |
| TranscriptStore.Store.UpsertInvestigationRevision | internal-packages/dashboard-agent-db/src/queries.ts:861-915 | open, revise or refuse, as the specification says |
| StoreColumns.UpsertWritesExactly | internal-packages/dashboard-agent-db/src/queries.ts:861-915 | in columns: revised exactly from its own chat, project and environment, by one; each refusal with its reason and no change; opened at revision 0 |
| TranscriptStore.Store.SeedInvestigation | internal-packages/dashboard-agent-db/src/queries.ts:928-974 | insert-only opening under a chosen id |
| StoreColumns.SeedWritesExactly | internal-packages/dashboard-agent-db/src/queries.ts:928-974 | in columns: writes only where the id is free, and finds a row only in its own context |
| TranscriptStore.Store.RecordInvestigationSweepAttempt | internal-packages/dashboard-agent-db/src/queries.ts:1126-1145 | counts an attempt on an open row and leaves its update time |
| TranscriptStore.Store.SettleInvestigationAsInconclusive | internal-packages/dashboard-agent-db/src/queries.ts:1155-1183 | settles a row only while it is in progress |
| TranscriptStore.Store.SettleInvestigationAndCloseCard | internal-packages/dashboard-agent-db/src/queries.ts:1198-1220 | row and card commit together or every table is restored |
| TranscriptStore.Store.SettleInvestigationStateAndCloseCard | internal-packages/dashboard-agent-db/src/queries.ts:1263-1354 | refused, already there, or closed with one new revision; every failure restores every table |
| TranscriptStore.Store.SettleAllPending | internal-packages/dashboard-agent-db/src/queries.ts:675-699 | the settlement loop gives the rows and the owed cards in order, or the first failure |
| TranscriptStore.Store.PersistWholeTurn | internal-packages/dashboard-agent-db/src/queries.ts:656-743 | settlements, transcript and session commit together or not at all |
| StoreColumns.TurnsRewriteNoCard | internal-packages/dashboard-agent-db/src/queries.ts:711-722 | a committed turn leaves every stored message under an `investigation-settlement:` id as it was, whatever it names |
| StoreColumns.ClosingIdsAreCardIds | internal-packages/dashboard-agent-db/src/queries.ts:985-991 | every closing card is stored under such an id |
| StoreColumns.NewCardsExactly | internal-packages/dashboard-agent-db/src/queries.ts:701-709 | a turn adds exactly the cards its own messages do not already carry, in their order |
| StoreColumns.TurnStoresItsSession | internal-packages/dashboard-agent-db/src/queries.ts:723-739 | a committed turn stores its session under its chat, and no other session changes |
| StoreReach.MissedChatIsUntouched | internal-packages/dashboard-agent-db/src/queries.ts:446-600 | a call aimed elsewhere, or at a chat that takes no more messages, leaves that chat's row and its transcript as they were |
| StoreLifecycle.SoftDeletedChatIsFrozen | internal-packages/dashboard-agent-db/src/queries.ts:335-600 | after a soft delete, over every later run without a hard delete, the chat stays deleted, no message comes or goes, and a body changes only where a call finalises it |
| StoreLifecycle.OnlyItsOwnersDeleteAChat | internal-packages/dashboard-agent-db/src/queries.ts:335-357 | over every run a live chat keeps its owner, and is deleted at the end exactly if its owner or its organization deleted it |
| StoreLifecycle.HardDeletedChatStaysEmpty | internal-packages/dashboard-agent-db/src/queries.ts:723-793 | after a hard delete no run but a new creation brings back the chat or a message, and a session row comes back exactly with a committed turn |
| StoreLifecycle.FinalisingIgnoresDeletion | internal-packages/dashboard-agent-db/src/queries.ts:520-551 | whether a rewrite goes through depends on the message rows alone, not on the chat's deletion |
| StoreLifecycle.SoftDeleteQuietsTheWatches | internal-packages/dashboard-agent-db/src/watch-queries.ts:766-812 | after the owner's delete the chat's active watches are cancelled, the others owe no wake, and no other chat's watch changed |
| StoreLifecycle.OrganizationDeleteCancelsNoWatch | internal-packages/dashboard-agent-db/src/watch-queries.ts:814-833 | the organization's delete takes the owed wakes off exactly its watches that are not active, and changes no status |
| StoreRepeats.AppendedAtMostOnce | internal-packages/dashboard-agent-db/src/queries.ts:561-600 | in every run that spares the chat an id is appended at most once: each later append of it changes nothing, and the row keeps the position the chat's counter had |
| StoreRepeats.LastFinalisationStands | internal-packages/dashboard-agent-db/src/queries.ts:520-551 | over every run the body at the end is what the last finalisation naming the message wrote, and its role the expected one |
| StoreRepeats.OpenedAtMostOnce | internal-packages/dashboard-agent-db/src/queries.ts:928-974 | of two openings under one id the first opens the row, and every later one finds it and changes nothing |
| StoreRepeats.StrangersNeverTouchARow | internal-packages/dashboard-agent-db/src/queries.ts:861-974 | a run in which a row is named only from other chats, projects or environments leaves it exactly as it was |
| StoreInvariant.BatchIsAcceptedExactly | internal-packages/dashboard-agent-db/src/queries.ts:451-459 | a batch is accepted exactly when every message has an id and no id repeats |
| StoreInvariant.StoreMessagesKeepsValid | internal-packages/dashboard-agent-db/src/queries.ts:446-508 | a batch store keeps transcripts gap-free and rows matching their bodies |
| StoreInvariant.AppendKeepsValid | internal-packages/dashboard-agent-db/src/queries.ts:569-600 | so does an append |
| StoreInvariant.FinalizeKeepsValid | internal-packages/dashboard-agent-db/src/queries.ts:520-551 | so does a finalisation |
| StoreInvariant.DeleteChatsKeepsValid | internal-packages/dashboard-agent-db/src/queries.ts:781-793 | so does a hard delete |
| StoreRuns.ReachableIsValid | internal-packages/dashboard-agent-db/src/queries.ts:382-600 | over every run of the fourteen operations, each chat's positions are exactly 1 to next minus 1, one message each, rows match their bodies and belong to a chat |
| StoreRuns.EveryTranscriptIsGapFree | internal-packages/dashboard-agent-db/src/queries.ts:382-600 | so in particular after any run of a store that began empty |
| StoreRuns.FailedCallsLeaveNoTrace | internal-packages/dashboard-agent-db/src/queries.ts:554-743 | failed calls leave no trace: the run without them ends in the same store, and none of its calls fails |
| StoreBatches.RepeatedBatchChangesNothing | internal-packages/dashboard-agent-db/src/queries.ts:429-508 | storing a batch again, even after other writes to other state, changes no row, counter or timestamp |
| TurnReplay.ReplayedTurnIsQuietExactly | internal-packages/dashboard-agent-db/src/queries.ts:656-743 | a replayed turn leaves the store as it was exactly when every settlement of the replay is refused by then; otherwise the investigations move again |
| TurnReplay.NothingSettledExactly | internal-packages/dashboard-agent-db/src/queries.ts:675-699 | a turn settles nothing exactly when every settlement names a row that is missing or belongs elsewhere |
| StoreBatches.StoringIsIncremental | internal-packages/dashboard-agent-db/src/queries.ts:446-508 | storing a and then a followed by b gives the same ids, positions, bodies and counter as storing both at once |
| StoreBatches.InsertOnlyCommitsExactly | internal-packages/dashboard-agent-db/src/queries.ts:446-508 | an insert-only batch commits exactly when ids are distinct and what it adds has roles |
| StoreBatches.NewMessagesKeepIncomingOrder | internal-packages/dashboard-agent-db/src/queries.ts:441-507 | new messages stand in batch order from the chat's next position on |
| StoreDurability.StepIsDurable | internal-packages/dashboard-agent-db/src/queries.ts:480-551 | one call other than a hard delete moves no stored message and changes bodies only where a finalisation names them |
| StoreDurability.MessagesAreDurable | internal-packages/dashboard-agent-db/src/queries.ts:480-551 | over every run, until its chat is hard-deleted, a message keeps id, position and role, and its body unless some call names it |
| StoreDurability.RewrittenBodiesStillMatch | internal-packages/dashboard-agent-db/src/queries.ts:520-551 | a rewritten body still carries the row's id and role |
| StoreDurability.RevisionCountsCommits | internal-packages/dashboard-agent-db/src/queries.ts:861-915 | over every run that does not hard-delete its chat, a revision grows by exactly the commits reported for it, and its chat, project and environment never change |
| StoreDurability.RevisionIsItsCommitCount | internal-packages/dashboard-agent-db/src/queries.ts:861-915 | from an empty store, over every run that does not hard-delete the row's chat, the revision is that count |
| StoreSettlement.SweepSettleClosesExactly | internal-packages/dashboard-agent-db/src/queries.ts:1185-1220 | a committed sweep settle moves the row to inconclusive at its next revision, with the card stored exactly when the chat is live or already has it |
| StoreSettlement.SweepSettleCommitsExactly | internal-packages/dashboard-agent-db/src/queries.ts:1198-1220 | the sweep can settle an open row exactly when the members settling leaves alone are valid |
| StoreSettlement.SettleStateClosesOrChangesNothing | internal-packages/dashboard-agent-db/src/queries.ts:1263-1354 | the caller's settle stores its card in a live chat together with the new revision, or changes nothing |
| StoreSettlement.RedeliveryClosesAtMostOnce | internal-packages/dashboard-agent-db/src/queries.ts:1250-1354 | of any deliveries under one message id, with any operations between that spare the chat, at most one closes a card |
| StoreSettlement.OtherDeliveriesChangeNothing | internal-packages/dashboard-agent-db/src/queries.ts:1305-1318 | every other delivery leaves the whole store as it was |
| DeletedChat.SettlesWithoutItsCardExactly | internal-packages/dashboard-agent-db/src/queries.ts:1198-1220 | the sweep commits without a stored card exactly for a renderable row whose chat is gone and never held the card |
| DeletedChat.AnAbandonedRowIsSettledSilently | internal-packages/dashboard-agent-db/src/queries.ts:1198-1220 | a concrete store where that happens |
| DeletedChat.OneSettlementOnADeadChat | internal-packages/dashboard-agent-db/src/queries.ts:656-721 | on any chat that is not live, a turn with one valid settlement in context commits, moves the row by one revision and stores no message |
| DeletedChat.ATurnSettlesSilently | internal-packages/dashboard-agent-db/src/queries.ts:656-721 | a concrete store and turn where that happens |
| DeletedChat.AReplayedTurnSettlesAgain | internal-packages/dashboard-agent-db/src/queries.ts:656-743 | and where the same turn, delivered again, settles the row again |
| TurnSettlement.TurnClosesItsCardsExactly | internal-packages/dashboard-agent-db/src/queries.ts:675-721 | a committed turn stores every settlement's card when its chat is live and no message when it is not, while the rows move either way |
| TurnSettlement.TurnWithoutSettlementsMovesNoInvestigation | internal-packages/dashboard-agent-db/src/queries.ts:656-743 | a turn without settlements leaves the investigations alone |
| SettledRuns.RunIsAccounted | internal-packages/dashboard-agent-db/src/queries.ts:675-1354 | over every run that settles into live chats and sweeps rows into their own chat, hard deletes included, each row that is not open was closed at its present revision by a call that stored its card |
| SettledRuns.NoSettledRowWithoutItsCard | internal-packages/dashboard-agent-db/src/queries.ts:1185-1220 | no such run from an empty store ends with a settled row whose card is in no transcript; a hard delete takes row and card together |
| PositionAllocator.EveryInterleavingBalances | internal-packages/dashboard-agent-db/src/queries.ts:403-600 | in every interleaving of checks, reservations and inserts, each position below the counter is one row's, one writer's, or lost to an id conflict |
| PositionAllocator.PositionsNeverClash | internal-packages/dashboard-agent-db/src/queries.ts:569-600 | stored positions are distinct, below the counter, and never on a position another writer holds |
| PositionAllocator.ReservationsAreDisjoint | internal-packages/dashboard-agent-db/src/queries.ts:403-427 | two writers never hold the same position |
| PositionAllocator.UniqueConstraintNeverFires | internal-packages/dashboard-agent-db/src/schema.ts:64-82 | a writer's next insert always finds its position free |
| PositionAllocator.GapsAreHeldOrLost | internal-packages/dashboard-agent-db/src/queries.ts:561-600 | a handed-out position has no row exactly while a writer holds it or once an id conflict lost it |
| PositionAllocator.ALostRaceLeavesAGap | internal-packages/dashboard-agent-db/src/queries.ts:569-600 | two racing appends of one id store it once and leave a gap |
| PositionAllocator.LockedRunsLoseOnlyAppends | internal-packages/dashboard-agent-db/src/queries.ts:461-469 | when batches lock the chat before checking and appends before reserving, only appends lose positions |
| PositionAllocator.LockedBatchesAreGapFree | internal-packages/dashboard-agent-db/src/queries.ts:461-507 | with that lock, batches alone leave positions exactly 1 to next minus 1 |
| AllocatorRefinement.UninterruptedAppend | internal-packages/dashboard-agent-db/src/queries.ts:569-600 | the atomic append is the three steps with nothing in between |
| AllocatorRefinement.UninterruptedBatch | internal-packages/dashboard-agent-db/src/queries.ts:446-508 | the atomic batch store is its check, its reservation and its inserts with nothing in between |
| RetentionBatches.DrainIsOneDelete | internal-packages/dashboard-agent/src/maintenance.ts:83-109 | a backlog that fits the caps is gone to the last row, as one unbounded delete would leave it |
| RetentionBatches.DrainLeavesTheNewest | internal-packages/dashboard-agent/src/maintenance.ts:83-109 | a larger backlog shrinks by exactly what fits, and in the two ordered tables no remaining row is older than a deleted one |
| RetentionBatches.UnorderedDrainIsOldestFirstExactly | internal-packages/dashboard-agent/src/maintenance.ts:83-109 | a drain whose statement has no order is sure to go oldest first exactly when everything due fits, nothing is taken, or all due rows have one age |
| RetentionBatches.ADrainMayKeepTheOlderSubmission | internal-packages/dashboard-agent-db/src/watch-queries.ts:362-378 | a concrete drain that deletes the newer submission and keeps the older one |
| RetentionScope.ChatPurgeIsExact | internal-packages/dashboard-agent-db/src/queries.ts:800-824 | in columns: only chats soft-deleted at or before the cutoff go, earliest first, as many as fit, each with all its rows and no others |
| RetentionScope.WatchPurgeIsExact | internal-packages/dashboard-agent-db/src/watch-queries.ts:1053-1077 | in columns: only fired, expired or cancelled watches with no wake owed or on its way and no event after the cutoff go, as many as fit |
| RetentionScope.EvalPurgeIsExact | internal-packages/dashboard-agent-db/src/queries.ts:754-772 | in columns: only judged turns at or before the cutoff go, earliest first, as many as fit |
| RetentionScope.SubmissionPurgeIsExact | internal-packages/dashboard-agent-db/src/watch-queries.ts:362-378 | in columns: only submissions at or before the cutoff go, as many as fit |
| RetentionScope.PassSparesChats | internal-packages/dashboard-agent/src/maintenance.ts:23-36 | over a whole pass, whatever fails, a chat goes only thirty days after its soft delete, and a transcript, session or investigation only with its chat |
| RetentionScope.PassSparesLedgers | internal-packages/dashboard-agent/src/maintenance.ts:16-36 | and a kept chat loses a judged turn only after thirty days, a watch or submission only after seven |
| RetentionBatches.GoneChatsLeaveNothing | internal-packages/dashboard-agent-db/src/queries.ts:774-824 | a hard-deleted chat leaves no row in any table, a kept one keeps its whole transcript |
| Retention.DeleteTurnEvalsOlderThan | internal-packages/dashboard-agent-db/src/queries.ts:754-772 | deletes the oldest due rows up to the limit, ties broken either way, and counts them |
| Retention.HardDeleteChatsSoftDeletedBefore | internal-packages/dashboard-agent-db/src/queries.ts:800-824 | the same for soft-deleted chats, with everything that hangs off them |
| Retention.DeleteTerminalWatchesOlderThan | internal-packages/dashboard-agent-db/src/watch-queries.ts:1053-1077 | deletes due terminal watches with a settled delivery up to the limit, in no order |
| Retention.DeleteWatchSubmissionsOlderThan | internal-packages/dashboard-agent-db/src/watch-queries.ts:362-378 | deletes due submissions up to the limit, in no order |
| Retention.Drain | internal-packages/dashboard-agent/src/maintenance.ts:85-101 | deletes exactly the oldest min(backlog, limit times batches) due rows, counts them even when a statement fails, and reports exactly whether it came to the failing one |
| Retention.RunDashboardAgentRetention | internal-packages/dashboard-agent/src/maintenance.ts:64-117 | all four drains run whatever failed before them; each purges its table from the state the previous one left, and the pass fails exactly with the drains that failed, in order |
| Retention.DrainsAreIndependent | internal-packages/dashboard-agent/src/maintenance.ts:60-63 | a drain leaves another table's backlog alone, a deleted chat's own rows aside |
| Retention.PassEmptiesEveryWindow | internal-packages/dashboard-agent/src/maintenance.ts:103-115 | when the backlogs fit and nothing fails, nothing past its window is left among turn evaluations, soft-deleted chats, terminal watches and submissions |
| Sweep.ListStaleOpenInvestigations | internal-packages/dashboard-agent-db/src/queries.ts:1090-1118 | the first rows of the sweep order among the open stale rows of live chats, up to the limit |
| SweepScope.ListingIsExact | internal-packages/dashboard-agent-db/src/queries.ts:1090-1118 | in columns: only in-progress rows of chats that are there and not deleted, updated no later than the cutoff; in order; and left out only of a full listing whose rows all come no later |
| Sweep.SweepRow | internal-packages/dashboard-agent/src/investigation-sweep.ts:102-165 | one row's settle, and on failure its recorded attempt and force-abandon |
| Sweep.SweepDashboardAgentInvestigations | internal-packages/dashboard-agent/src/investigation-sweep.ts:79-173 | the rows of one listing handled each on its own, with the counters of what became of them, failing exactly if a row failed |
| SweepScope.SweepSparesOtherRows | internal-packages/dashboard-agent/src/investigation-sweep.ts:24-28 | a row that is not in progress, of a deleted chat, or updated within the last half hour is the same after a sweep, whatever fails |
| SweepScope.SweepSettlesListedRow | internal-packages/dashboard-agent/src/investigation-sweep.ts:79-173 | a listed row that can be rendered and whose settle is answered ends the sweep inconclusive at its next revision with its card in its own chat, whatever happens to the others |
| Sweep.EveryRowIsCountedOnce | internal-packages/dashboard-agent/src/investigation-sweep.ts:38-50 | every listed row is counted under exactly one outcome |
| Sweep.ListedRowOutcome | internal-packages/dashboard-agent/src/investigation-sweep.ts:102-165 | with the database up, a listed row is settled with its card exactly if it can be rendered; else it is counted as attempted, and given up on at the fifth attempt without a card |
| SweepFairness.CallKeepsAhead | internal-packages/dashboard-agent-db/src/queries.ts:1090-1118 | no later operation puts a row ahead of a row that already waits |
| SweepFairness.HandledRowLeavesExactly | internal-packages/dashboard-agent/src/investigation-sweep.ts:102-165 | handling a row puts none ahead of the rows never attempted, and leaves it ahead exactly if it was, its settle failed and its attempt could not be recorded |
| SweepFairness.RoundMakesRoom | internal-packages/dashboard-agent-db/src/queries.ts:1090-1118 | a sweep that passes a waiting row by takes a full batch of rows out of its way |
| SweepFairness.ReachedWithinTheBound | internal-packages/dashboard-agent-db/src/queries.ts:1090-1145 | with k never-attempted rows ahead, a waiting row is on one of the next floor(k/limit)+1 listings, however many rows fail, with any traffic between and during sweeps |
| ClientKinds.Walk.CollectKinds | apps/webapp/scripts/runOpsLegacyGuard.ts:363-380 | one call of the walk explores exactly new types it can reach, closes them, and returns their clients, on any cyclic graph |
| ClientKinds.WalkIsExact | apps/webapp/scripts/runOpsLegacyGuard.ts:363-380 | from an empty visited set the result is exactly the clients of all reachable types |
| ClientKinds.ClassifyType | apps/webapp/scripts/runOpsLegacyGuard.ts:353-361 | a type is control-plane exactly if some reachable type is, and run-ops exactly if one is and none is control-plane |
| LegacyHandle.LegacyWalk.ReceiverIsLegacyHandle | apps/webapp/scripts/runOpsLegacyGuard.ts:385-415 | true exactly if the chain of aliases and transaction origins ends at a legacy handle, cycles included |
| LegacyHandle.LegacyWalk.TxParamOriginIsLegacy | apps/webapp/scripts/runOpsLegacyGuard.ts:419-438 | a callback parameter is legacy exactly if its transaction call's first argument is |
| LegacyHandle.IsLegacy | apps/webapp/scripts/runOpsLegacyGuard.ts:382-415 | the walk from a clean start decides the property outright |
| LegacyHandle.CyclesHaveNoHandle | apps/webapp/scripts/runOpsLegacyGuard.ts:390-391 | a chain that returns to a visited node never reaches a handle, so cutting it there loses nothing |
| LegacyHandle.NamesDecide | apps/webapp/scripts/runOpsLegacyGuard.ts:385-400 | exactly the two handle names are handles by themselves |
| LegacyHandle.AliasesAreTransparent | apps/webapp/scripts/runOpsLegacyGuard.ts:400-408 | an alias is what its initializer is |
| LegacyHandle.WrappersAreTransparent | apps/webapp/scripts/runOpsLegacyGuard.ts:392-396 | parentheses, casts and non-null marks do not matter |
| LegacyHandle.TransactionParametersFollowTheirClient | apps/webapp/scripts/runOpsLegacyGuard.ts:419-438 | a callback parameter is what the call's first argument is, exactly for the two transaction functions, through any parentheses |
| LegacyHandle.OtherParametersAreNoHandles | apps/webapp/scripts/runOpsLegacyGuard.ts:419-438 | a parameter of any other function is no handle |
| Seam.DeriveRelations | apps/webapp/scripts/runOpsLegacyGuard.ts:195-218 | the loops give every model its relations and the crossing ones among them |
| Seam.RelationsOf | apps/webapp/scripts/runOpsLegacyGuard.ts:201-215 | one model's relations: the last field of a name decides its target, any crossing field marks it |
| Seam.CrossingIsExact | apps/webapp/scripts/runOpsLegacyGuard.ts:206-211 | with distinct field names a relation crosses exactly when one of its two ends is in the run graph |
| Selection.Collector.WalkSelectionMap | apps/webapp/scripts/runOpsLegacyGuard.ts:650-672 | the mutually recursive walk appends exactly the specified hits |
| Selection.Collector.WalkRelationArgs | apps/webapp/scripts/runOpsLegacyGuard.ts:674-687 | so does its other half |
| Selection.CollectCrossSeamHits | apps/webapp/scripts/runOpsLegacyGuard.ts:689-705 | the hits are exactly the select and include paths whose last relation crosses, each reported once |
| Selection.HitsAreExact | apps/webapp/scripts/runOpsLegacyGuard.ts:650-705 | sound and complete: a path is reported exactly if reading along it ends at a crossing relation |
| Selection.FirstStepsExactly | apps/webapp/scripts/runOpsLegacyGuard.ts:650-705 | reading a path, step by step: only `select` and `include` open a selection, only through parentheses, casts and constants, and only a property with a value goes on |
| Selection.HitsCrossTheSeam | apps/webapp/scripts/runOpsLegacyGuard.ts:195-705 | from the schema to the report: a path is reported exactly when it ends at a field of a schema model with one end of its relation in the run graph and one outside |
| Selection.CollectFromSchema | apps/webapp/scripts/runOpsLegacyGuard.ts:195-705 | derivation and walk together report exactly those paths, each once |
| LogicalLines.ScrubLine | apps/webapp/scripts/fkCascadeIndexGuard.ts:81-107 | the code is the line up to its first two slashes with an even number of string delimiters before them, an escaped quote being none; the mask is the code with strings and quotes blanked out |
| LogicalLines.DepthIsTheLargestSurplus | apps/webapp/scripts/fkCascadeIndexGuard.ts:119-123 | the clamped depth is the largest surplus of opening over closing round and square brackets of any tail, or the old depth with that of the whole line |
| LogicalLines.ToLogicalLines | apps/webapp/scripts/fkCascadeIndexGuard.ts:109-129 | the line loop computes the joining function |
| LogicalLineGroups.LogicalLinesPartitionTheCode | apps/webapp/scripts/fkCascadeIndexGuard.ts:109-129 | the logical lines are the lines with code on them, in order, in groups that close exactly at their last line, the last group perhaps open |
| LogicalLineGroups.GroupingIsUnique | apps/webapp/scripts/fkCascadeIndexGuard.ts:109-129 | only one grouping has that property |
| NewlineForSpace.NewlineForSpaceIsExact | apps/webapp/scripts/fkCascadeIndexGuard.ts:81-129 | breaking a line at a space between code leaves the logical lines unchanged exactly when a bracket is open there and the space stands alone |
| NewlineForSpace.BreaksThatShow | apps/webapp/scripts/fkCascadeIndexGuard.ts:81-129 | a concrete break outside brackets and one between two spaces that do change the lines |
| TaskRunVersion.ComposedValue | internal-packages/clickhouse/src/taskRuns.ts:225-236 | shift, mask and or give generation times 2^56 plus the position modulo 2^56, below 2^64, for any integer position |
| TaskRunVersion.VersionsOrderLexicographically | internal-packages/clickhouse/src/taskRuns.ts:212-236 | versions order exactly as generation and then position modulo 2^56 |
| TaskRunVersion.VersionsAreInjective | internal-packages/clickhouse/src/taskRuns.ts:212-236 | no two pairs in range share a version |
| TaskRunVersion.PositionsPastTheMaskWrap | internal-packages/clickhouse/src/taskRuns.ts:233-235 | the first position past 56 bits sorts before the one before it |
| TaskRunVersion.SurvivorIgnoresOrderAndRepeats | internal-packages/clickhouse/src/taskRuns.ts:212-224 | every interleaving and repetition of the producers' rows lets the same row survive |
| WatchIdentity.IdentitiesAreEqualExactly | internal-packages/dashboard-agent-contracts/src/watch.ts:150-184 | identities are equal exactly for equal kind, subject and threshold |
| WatchIdentity.SameIdentityExactly | internal-packages/dashboard-agent-contracts/src/watch.ts:150-184 | kind by kind: the subject counts always, the threshold for three kinds, ticks and windows never |
| WatchIdentity.SubjectIsRecoveredExactly | internal-packages/dashboard-agent-contracts/src/watch-wording.ts:54-67 | the subject is read back, colons and all, exactly unless it is the empty queue name of a threshold kind |
| WatchIdentity.EmptyQueueNameIsLost | internal-packages/dashboard-agent-contracts/src/watch-wording.ts:60-67 | the concrete failing case |

## Left out

- Investigation.SqlSettled: how the database prints a headline that is not a string is a parameter, because the text of a JSON number or object is PostgreSQL's.
- WellFormed.ToWellFormedDeep: numbers are numerals, so the flag a NaN would set (it is never equal to itself) is not modelled; the value returned is the same.
- PositionAllocator.EveryInterleavingBalances: ranges over appends, batch stores, chat creation and soft deletes; a hard delete between a reservation and its insert is excluded by the row lock and is not a step.
- Sweep.ListStaleOpenInvestigations: picks the rows one after the other, where the source leaves ordering and limit to the query.
- SettledRuns.NoSettledRowWithoutItsCard: covers runs without force-abandons, in which rows are opened in progress, settled by the settle paths while their chat is live, and swept into their own chat; the force-abandon leaves no card on purpose.
- Selection.CollectCrossSeamHits: takes finite literals with names already resolved; a constant that contains itself has no finite literal.
- Seam.DeriveRelations: leaves out the sorted list of names that is only printed.
- Values with their own prototype (dates, class instances) are opaque, and own `__proto__` keys and object identity are not modelled.
- PostgreSQL's locks, isolation levels and its refusal of some JSON are not modelled; a transaction is one atomic method, and `PositionAllocator` models the steps where interleaving matters.
- Error texts of the parser and the schemas are reduced to which error it is; a throwing printer is `None`.
- Watches: only what deleting a chat and retention read and write; cancel reasons, claim ids and the statements that create, fire and deliver them are left out.
- Batch chains, chat titles, pins, usage counters and other queries: independent single-row updates.
- The TypeScript compiler, file reading and Prisma schema parsing in the guards: the models start from a type graph, a numbered syntax tree, a list of models and a text.
- Watch wording, durations, ClickHouse SQL and task scheduling: finite lookups and plumbing.
