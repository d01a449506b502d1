# ScroogeDLP: a verified model of its protocols and codecs

ScroogeDLP is a data-loss-prevention system: a manager stores policies in PostgreSQL and pushes them
to agents over gRPC streams, agents queue events in SQLite and upload them, and a dashboard edits
policies through a form. This project models the parts whose correctness spans several functions and
proves what they promise:

- **Policy distribution** (`PolicyTables`, `PolicyPush`, `PolicyOrder`, `PolicySession`, `PolicyRound`,
  `PolicyRaces`, `PolicyCurrency`, `PolicyVersions`, `CurrencyRuns`, `PushHandlers`): two unserialised
  push tasks, FIFO streams, an agent that writes files and acknowledges them, lost acks and broken
  streams, as a step system with proofs over every run.
- **Policy store** (`PolicyStore`, `PolicyHistory`, `PolicyEdits`, `PolicyWorld`): create, update, delete
  and rollback on the policy and history tables, and the store and the protocol as one system.
- **Event pipeline** (`EventTables`, `EventPipeline`, `EventCopies`, `EventUploader`): the persistent
  queue, the abortable take/send/mark cycle, and the de-duplicating insert.
- **Policy editor codec** (`PolicyModel`, `FormState`, `FormTree`, `FormEmit`, `FormLayout`,
  `FormLegibility`, `YamlScalar`, `YamlText`, `YamlTree`, `FileSize`, `PolicyReader`, `EditorItems`,
  `EditorRules`, `EditorText`, `EditorRoundTrip`, `EditorReprint`): policy to form to YAML text and back,
  down to single characters.
- **Classifiers** (`Iban`, `Luhn`, `WeightedDigits`, `ClassifierScan`): check-digit algorithms against
  their standards, with exact error-detection results.
- **Tokens and backoff** (`EnrollmentTokens`, `RefreshTokens`, `Backoff`).

Objects that the program updates in place are classes whose methods are proved against functions on
values; the theorems are about those functions and about all runs of the step systems. `Prelude` holds
the shared vocabulary. Release builds have overflow checks off, so `i32 + 1`, `u32` sums and the `u64`
size product wrap in the model.

Where code and documentation disagree the model follows the code:

- creating a policy whose name exists is documented as status 409 (policies.rs:240-250); the code
  answers with a bad request;
- saving is said to preserve unsupported YAML sections (yamlToForm.js:46-48); the generator ignores
  them, and `EditorRoundTrip.KeepsAllExactly` says exactly when something is lost;
- an IBAN is documented as redacted to `PL...XXXX` (iban.rs:18); the code writes `PL**...XXXX`.

Results that are false as one would first state them come with a failing input and the exact condition:

- the manager can believe in a file the agent does not have (`PolicyRaces.OvertakenPushIsLost`,
  `PolicyRaces.RecreatedPolicyIsLost`). A policy stays pending or current under everything the manager
  does if and only if the agent's file is current or every claim for the policy is below the table's
  version (`PolicyCurrency.NeverStaleExactly`); so a create must exceed every claim still around, and in
  the re-creation run it must exceed version 5. No claim exceeds the versions in the history of its name,
  which survives deletion, so a create above all of these is safe (`PolicyWorld.CreateAboveHistoryIsSafe`);
  over a whole run the policy stays pending or current if and only if each create, edit and successful
  write meets its condition (`CurrencyRuns.AlwaysSureExactly`), and only the writes can fail to when every
  create exceeds its history and no edit wraps (`PolicyWorld.OnlyWritesDecide`);
- a rollback after a deletion and a re-creation can restore either of two documents
  (`PolicyHistory.RecreatedRollbackIsAmbiguous`); it is determined if and only if all the history rows it
  can find hold one document (`PolicyHistory.DeterminedExactly`), and there is at most one such row when
  versions ascend, which is when every create exceeded its history and no edit wrapped
  (`PolicyHistory.VersionsAscendExactly`, `PolicyHistory.RollbackFindsOneRow`);
- an event without a UUID is stored as often as delivered batches carry it, and every event is stored
  once if and only if none of these was delivered twice (`EventCopies.OnceExactlyWhenNotResent`);
- an emitted document can be refused or change meaning: a value that is a lone dash, an overlong tag
  key, a bare number or boolean in a list of a source or destination, an optional string that is a bare
  `null` (`EditorRoundTrip.RoundTrip`, `EditorReprint.SecondEmissionIsTheSameExactly`). A policy without a
  rule emits a document that is always refused (`EditorRoundTrip.NoRuleIsRefused`);
- a lookup of a refresh token leaves all continuations free of forked sessions if and only if no other
  exchange of it has yet to revoke it (`RefreshTokens.LookupIsSafeExactly`);
- overlapping enrollments exceed `max_uses` by a known amount (`EnrollmentTokens.LimitIsReached`).

## Model

| member | source | states |
|---|---|---|
| PolicyTables.LoadPending | crates/scrooge-manager-bin/src/grpc.rs:266-296 | exactly the pending policies, each once, by descending priority and, at equal priority, by ascending name, the order being stated on the rows' priorities and the first difference of the names |
| PolicyTables.PendingInColumns | crates/scrooge-manager-bin/src/grpc.rs:266-296 | in the columns of the two tables: which policies the query lists (enabled, and never acknowledged or acknowledged at an older version), and the version, bytes and priority it sends of each |
| PolicyPush.AckedNeverAhead | crates/scrooge-manager-bin/src/grpc.rs:266-338 | in every run that keeps the policy and applies its versions in order, lost acks, failed writes and overlapping streams included: acked version <= version in the agent's file <= table version, and a policy that is not pending is on the agent with its current content |
| PolicyPush.RunKeepsInv | crates/scrooge-agent-bin/src/stream.rs:215-275 | what every step of the protocol keeps: no message, file or ack in flight runs ahead of the table, and equal versions mean equal content |
| PolicySession.FileIsReplay | crates/scrooge-agent-bin/src/stream.rs:187-275 | in one session, under any interleaving of pushes, broadcasts, edits and failed writes, replaying the applied acks still in flight over the acknowledged version gives exactly the version in the agent's file |
| PolicySession.ReplayAppend | crates/scrooge-manager-bin/src/grpc.rs:321-340 | because the acknowledged version is overwritten unconditionally, an ack appended to the channel decides the replay |
| PolicyRound.RoundDeliversEverything | crates/scrooge-manager-bin/src/grpc.rs:492-530 | one undisturbed round of load, mark, send, apply, ack and process is a run; afterwards nothing is pending, every pushed file holds its policy's content and no other file changed |
| PolicyRound.RoundBringsAllCurrent | crates/scrooge-manager-bin/src/grpc.rs:492-530 | from every state that an in-order run reaches, one round on an idle session leaves every enabled policy on the agent with its current content |
| PolicyRound.RoundIsInQueryOrder | crates/scrooge-manager-bin/src/grpc.rs:266-296 | the message of a round lists the pending policies by descending priority and then name; after any number of apply steps exactly the first ones of it are written and acknowledged, in that order, and the others wait |
| PolicyRound.AckAllSettles | crates/scrooge-manager-bin/src/grpc.rs:570-599 | processing the acks of a push settles exactly the pushed policies |
| PolicyRaces.SettlesExactly | crates/scrooge-manager-bin/src/grpc.rs:321-340 | whatever acks are processed in whatever order, the acknowledged version stays within the file's version if and only if no claim in flight or recorded exceeds it |
| PolicyRaces.WriteIsSafeExactlyWhen | crates/scrooge-agent-bin/src/stream.rs:234-270 | a write keeps that safety if and only if its version is at least every version already claimed |
| PolicyRaces.OvertakenPushIsLost | crates/scrooge-manager-bin/src/grpc.rs:151-184 | a concrete run in which the initial push is overtaken by the broadcast: the agent keeps version 1, the manager has recorded version 2, and the policy is no longer pending |
| PolicyRaces.RecreatedPolicyIsLost | migrations/20260101000004_policies.sql:54-60 | a concrete run in which an ack of a deleted policy settles its re-created namesake, which the agent never receives |
| PolicyCurrency.NeverStaleExactly | crates/scrooge-manager-bin/src/grpc.rs:266-340 | an enabled policy stays pending or current under every load, mark, send, processed ack and closed stream, if and only if the agent's file is already current or every applied claim for it, recorded or in an open stream, is below the table's version |
| PolicyCurrency.AcksNeverStaleExactly | crates/scrooge-manager-bin/src/grpc.rs:570-599 | for a policy with an assignment row, the processing of acks alone decides the same condition |
| PolicyCurrency.CreateIsSafeExactly | crates/scrooge-manager-api/src/handlers/policies.rs:281-302 | a create is safe if and only if its version exceeds every claim still around or the agent already holds its content |
| PolicyCurrency.EditIsSafeExactly | crates/scrooge-manager-api/src/handlers/policies.rs:379-402 | the same for an update or rollback and the version it bumps to |
| PolicyCurrency.WriteIsCurrentExactly | crates/scrooge-agent-bin/src/stream.rs:234-270 | a write of other content is safe if and only if no claim, its own ack included, reaches the table's version |
| PolicyCurrency.RecreatedSafeAbove5 | migrations/20260101000004_policies.sql:54-60 | in the re-creation run exactly the creates above version 5, or of the old content, are safe |
| PolicyCurrency.OvertakenWriteIsUnsafe | crates/scrooge-manager-bin/src/grpc.rs:151-184 | in the overtaking run the late write of version 1 is not safe |
| CurrencyRuns.StepSureExactly | crates/scrooge-manager-bin/src/grpc.rs:266-340 | a step from a state in which the policy is pending or current for good leads to another such state if and only if it meets what it owes: a create, edit or successful write its condition, every other step nothing |
| CurrencyRuns.AlwaysSureExactly | crates/scrooge-manager-bin/src/grpc.rs:266-340 | composed over runs: every state of a run is such a state if and only if each create, edit and successful write in it meets its condition |
| PolicyVersions.StepKeepsWithin | crates/scrooge-manager-bin/src/grpc.rs:266-340 | no protocol step, deletions and writes out of order included, raises any version of a policy, in the tables, in a push, in flight or acknowledged, above a bound that its edits respect |
| PolicyWorld.RunOfSteps | crates/scrooge-manager-api/src/handlers/policies.rs:254-579 | a run of handler calls and protocol steps over both tables is a run of the protocol on the handlers' table |
| PolicyWorld.ClaimsWithinHistory | migrations/20260101000004_policies.sql:38-60 | in every run, deletions and writes out of order included, each claim for a policy is at most the largest version in the history of its name |
| PolicyWorld.CreateAboveHistoryIsSafe | crates/scrooge-manager-api/src/handlers/policies.rs:281-314 | a create above every version in the history of its name is safe, a condition the handler can check |
| PolicyWorld.OnlyWritesDecide | crates/scrooge-manager-api/src/handlers/policies.rs:254-579 | if every create of a name exceeds its history and no edit wraps, every state of the run is safe for the policy if and only if each successful write of the agent meets its condition |
| PolicyOrder.SerialPushesAreSafe | crates/scrooge-manager-bin/src/grpc.rs:139-186 | with at most one push between its load and its send, over any number of streams, every run delivers in order, so the bounds of AckedNeverAhead hold with no assumption on the agent |
| PushHandlers.Manager.PushTo | crates/scrooge-manager-bin/src/grpc.rs:494-530 | load, mark every pending policy of this agent, queue one message unless there is nothing to send; a failing load ends the push, a failing mark leaves that row unmarked and a closed channel drops the message; other agents' rows are untouched |
| PushHandlers.Manager.Broadcast | crates/scrooge-manager-bin/src/grpc.rs:139-186 | every agent still registered at its turn is served once, in whatever order, each from its own rows and whatever fails for the others |
| PushHandlers.PushIsTaskSteps | crates/scrooge-manager-bin/src/grpc.rs:494-530 | a push whose load succeeds is a run of load, mark and send steps of the protocol with the same failing marks and the same channel |
| PushHandlers.Manager.ProcessPolicyAck | crates/scrooge-manager-bin/src/grpc.rs:570-599 | only an applied ack is recorded, only on an existing row of this agent, and not when the update fails |
| PushHandlers.Agent.HandlePolicyUpdate | crates/scrooge-agent-bin/src/stream.rs:215-275 | files and acks after one update, with failed writes, a failed directory and a closed session |
| PushHandlers.AcksOfHandling | crates/scrooge-agent-bin/src/stream.rs:215-275 | one ack for each policy, in order, until the session refuses one: status 1 for a written file, 3 for a failed write |
| PushHandlers.HandlingIsApplySteps | crates/scrooge-agent-bin/src/stream.rs:215-275 | handling one update is a run of apply steps of the protocol, with the same files and acks |
| PolicyStore.StoreIsConsistent | crates/scrooge-manager-api/src/handlers/policies.rs:254-579 | after any sequence of handlers, with 32-bit versions: each live row agrees with the newest history entry of its name, its compiled bytes decode to the parse of its YAML, its versions since its last create are consecutive, and no history entry holds another policy's document |
| PolicyStore.RollbackIsSafe | crates/scrooge-manager-api/src/handlers/policies.rs:518-579 | rollback, which compares no names, succeeds exactly when the version and the policy exist, never meets an unparsable document, never stores a foreign one and leaves every other row as it is |
| PolicyStore.VersionsCountUpExactly | crates/scrooge-manager-api/src/handlers/policies.rs:379-387 | versions since creation count up by one if and only if they fit 32 bits |
| PolicyStore.Store.CreatePolicy | crates/scrooge-manager-api/src/handlers/policies.rs:254-322 | fails, changing nothing, exactly on an unparsable document or a name that exists; otherwise the columns of the new row, enabled and with the version of the document if it fits, and one history entry |
| PolicyStore.Store.UpdatePolicy | crates/scrooge-manager-api/src/handlers/policies.rs:357-430 | a bad request exactly on an unparsable document or another name, before a missing policy is looked for; otherwise the columns of the new row, with the version above the last one whatever the document says, and one history entry |
| PolicyStore.Store.DeletePolicy | crates/scrooge-manager-api/src/handlers/policies.rs:445-465 | the row goes, the history and every other row stay; only a missing policy is an error |
| PolicyStore.Store.RollbackPolicy | crates/scrooge-manager-api/src/handlers/policies.rs:518-597 | not found exactly when the policy or every such history entry is missing; otherwise any of the history rows with this name and version is restored, as a new version |
| PolicyHistory.VersionsAscendExactly | crates/scrooge-manager-api/src/handlers/policies.rs:281-314 | after any sequence of handlers, each version of a name exceeds all earlier ones, across deletions, if and only if each create exceeded the name's history and no edit wrapped |
| PolicyHistory.DeterminedExactly | crates/scrooge-manager-api/src/handlers/policies.rs:518-525 | whichever row the unordered query returns, a rollback has the same outcome if and only if all rows with this name and version hold one document |
| PolicyHistory.RollbackFindsOneRow | crates/scrooge-manager-api/src/handlers/policies.rs:518-525 | if every create of the name exceeded its history and no edit wrapped, at most one row has this name and version |
| PolicyHistory.RecreatedRollbackIsAmbiguous | migrations/20260101000004_policies.sql:38-46 | create, delete and create again at the same version, for any two documents: a rollback may restore either |
| PolicyEdits.HandlersAreEdits | crates/scrooge-manager-api/src/handlers/policies.rs:254-579 | a successful handler is exactly one edit step of the distribution protocol, a failed one changes nothing |
| EventTables.EventQueue.Enqueue | crates/scrooge-agent-core/src/queue.rs:96-109 | a new unsent row with the next id |
| EventTables.EventQueue.TakeBatch | crates/scrooge-agent-core/src/queue.rs:112-131 | the first `limit` unsent rows in id order; the queue is unchanged |
| EventTables.BatchIsFirstUnsent | crates/scrooge-agent-core/src/queue.rs:112-131 | in the columns: at most `limit` unsent rows by ascending id, and an unsent row is left out only when the batch is full of smaller ids |
| EventTables.EventQueue.MarkSent | crates/scrooge-agent-core/src/queue.rs:134-153 | exactly the named rows get the sent time, every other column and row is as before |
| EventTables.EventQueue.PurgeSentOlderThan | crates/scrooge-agent-core/src/queue.rs:156-168 | a row remains if and only if it was there and is unsent or was sent at the cutoff or later; the result counts the rows sent before the cutoff |
| EventTables.EventQueue.PendingCount | crates/scrooge-agent-core/src/queue.rs:171-179 | the number of unsent rows |
| EventTables.UnsentIsOrderedSelection | crates/scrooge-agent-core/src/queue.rs:112-131 | the query returns exactly the unsent rows, in ascending id order |
| EventTables.KeptIsSelection | crates/scrooge-agent-core/src/queue.rs:156-168 | a purge keeps order, and exactly the rows that are unsent or were sent at the cutoff or later |
| EventTables.SameKeyExactly | migrations/20260101000005_events.sql:24-40 | two events with UUIDs are one row exactly when the UUIDs agree and the times lie in one microsecond |
| EventTables.EventStore.InsertEventBatch | crates/scrooge-manager-bin/src/grpc.rs:687-751 | the batch is inserted row by row, skipping known keys, and the count is the growth of the table |
| EventTables.InsertAllAddsKeys | migrations/20260101000005_events.sql:24-40 | a batch with UUIDs adds exactly its own keys, of UUID and microsecond, and overwrites nothing |
| EventPipeline.QueueConserves | crates/scrooge-agent-core/src/queue.rs:96-179 | in every run of enqueue, take, send, mark, abort and purge: sent rows precede pending ones, nothing is marked before it was in a batch, enqueued = stored + purged, and the unsent rows are exactly the events not yet marked |
| EventPipeline.BatchesFormPrefix | crates/scrooge-agent-bin/src/event_uploader.rs:65-91 | every batch is the next run of at most 50 events from where the last one began or ended; with repeats dropped the batches are a prefix of the enqueue order |
| EventPipeline.ExactlyOnce | crates/scrooge-manager-bin/src/grpc.rs:687-751 | with UUIDs that give distinct keys and no lost batch, once the channel is drained the table holds a prefix of the enqueued events exactly once each, despite resends, and the counts sum to its size |
| EventPipeline.MissingExactlyWhenLost | crates/scrooge-agent-bin/src/event_uploader.rs:65-91 | with losses, a sent event is missing if and only if every batch that carried it was lost |
| EventCopies.StoredAsDelivered | crates/scrooge-manager-bin/src/grpc.rs:687-751 | in every run with new generated ids: an event without a UUID is stored as often as inserted batches carry it, an event with one exactly once if some inserted batch carries it, and the counts sum to the table size |
| EventCopies.OnceExactlyWhenNotResent | crates/scrooge-manager-bin/src/grpc.rs:687-751 | once drained without a loss, every sent event is stored exactly once if and only if each one without a UUID was carried by exactly one batch |
| EventUploader.Uploader.DrainOnce | crates/scrooge-agent-bin/src/event_uploader.rs:65-91 | take, send, mark; a failing query or a closed channel leaves the batch pending, a failing mark leaves it pending after it was sent |
| EventUploader.DrainIsTakeSendMark | crates/scrooge-agent-bin/src/event_uploader.rs:29-91 | an undisturbed cycle is the three pipeline steps and advances by a batch of 50 events, or of all that are left |
| EventUploader.FailedMarkIsAbort | crates/scrooge-agent-bin/src/event_uploader.rs:65-91 | a cycle whose mark fails is take, send and abort: the batch is in flight and will be sent again |
| EditorRoundTrip.RoundTrip | crates/scrooge-manager-api/static/policy-editor/codec/formToYaml.js:37-180 | for every valid policy with a rule, reading the emitted text succeeds if and only if no value is a lone dash and no tag key overlong, the rule is named, its directories and file matches have their lists, and the list items of its sources and destinations read as text; it gives the part the form keeps, with version 1, enabled, and without optional strings or conditions that are empty or null |
| EditorRoundTrip.KeepsAllExactly | crates/scrooge-manager-api/static/policy-editor/codec/supportability.js:14-59 | the form keeps everything of exactly the form-friendly policies |
| EditorReprint.SecondEmissionIsTheSameExactly | crates/scrooge-manager-api/static/policy-editor/codec/formToYaml.js:3-10 | emitting the policy that was read back yields the same text if and only if no optional string of it is a bare null |
| EditorRoundTrip.NoRuleIsRefused | crates/scrooge-manager-api/static/policy-editor/codec/yamlToForm.js:56-83 | a policy without an outbound rule opens with an unnamed default rule, and its text is refused |
| PolicyReader.AbsentFields | crates/scrooge-policy/src/rules.rs:128-160 | an absent version reads as 1, an absent priority as 0, and an absent recursive flag of a directory as true |
| PolicyReader.IntegerFields | crates/scrooge-policy/src/rules.rs:231-250 | the integers that versions, priorities and sizes accept are exactly those of their widths |
| EditorRules.RuleReads | crates/scrooge-policy/src/rules.rs:27-69 | the tree of an emitted rule reads back in normal form exactly when it is named, has its required lists and its list items are text |
| EditorRules.TargetsRead | crates/scrooge-manager-api/static/policy-editor/codec/formToYaml.js:77-103 | emitted targets read back unchanged, whatever order the tags are listed in |
| EditorItems.SourceReads | crates/scrooge-policy/src/rules.rs:109-150 | an emitted source reads back unless it lost a required list or an item resolves to a number, boolean or null |
| EditorItems.DestinationReads | crates/scrooge-policy/src/rules.rs:156-190 | the same for destinations |
| EditorItems.ConditionsRead | crates/scrooge-manager-api/static/policy-editor/codec/yamlToForm.js:114-124 | conditions read back with their sizes unchanged and empty or null patterns absent |
| FormState.NormalizeItem | crates/scrooge-manager-api/static/policy-editor/codec/yamlToForm.js:103-112 | type first, every other field kept in order |
| FormState.SupportedExactly | crates/scrooge-manager-api/static/policy-editor/codec/supportability.js:14-54 | nothing is listed as unsupported exactly for policies with at most one outbound rule, at most one selector and none of the other sections |
| FormState.UnsupportedExactly | crates/scrooge-manager-api/static/policy-editor/codec/supportability.js:14-54 | each feature is listed exactly when the policy has it, with its count or its selectors |
| FormState.IsFormFriendly | crates/scrooge-manager-api/static/policy-editor/codec/supportability.js:56-59 | supported and exactly one outbound rule |
| FormEmit.FormToYaml | crates/scrooge-manager-api/static/policy-editor/codec/formToYaml.js:37-75 | the text of the lines of the form, built by pushing onto one shared list |
| FormEmit.Emitter.EmitTargets | crates/scrooge-manager-api/static/policy-editor/codec/formToYaml.js:77-103 | only the selector of the active mode, and nothing at all without one |
| FormEmit.Emitter.EmitSourceLike | crates/scrooge-manager-api/static/policy-editor/codec/formToYaml.js:151-167 | the dash line with the type, then the non-empty fields two columns further in |
| FormEmit.Emitter.EmitConditions | crates/scrooge-manager-api/static/policy-editor/codec/formToYaml.js:109-133 | a block only when some condition is set |
| FormLayout.FormLayoutIsTree | crates/scrooge-manager-api/static/policy-editor/codec/formToYaml.js:37-167 | the lines pushed one by one, with their hand-written indentation, are exactly the lines of the form's tree |
| FormLegibility.PolicyLegibleExactly | crates/scrooge-manager-api/static/policy-editor/codec/formToYaml.js:37-167 | which policies emit only legible lines: exactly those without a lone dash as a block value and without an overlong tag key |
| YamlTree.ReadYamlText | crates/scrooge-manager-api/static/policy-editor/codec/formToYaml.js:74-74 | text to lines to tree undoes tree to lines to text for every well-formed tree, exactly when its lines are legible |
| YamlText.ReadDocument | crates/scrooge-manager-api/static/policy-editor/codec/formToYaml.js:151-167 | the lines of a written document, with any quoted key, scalar or list, are read back exactly when none holds a lone dash or an overlong key |
| YamlScalar.ReadYamlString | crates/scrooge-manager-api/static/policy-editor/codec/formToYaml.js:173-180 | reading a written string stops exactly at its end and returns it, whatever follows |
| YamlScalar.BareExactly | crates/scrooge-manager-api/static/policy-editor/codec/formToYaml.js:173-180 | exactly the non-empty strings of letters, digits, underscore, dot, slash and dash are written bare; every other one is quoted and escaped |
| YamlScalar.YamlStringInjective | crates/scrooge-manager-api/static/policy-editor/codec/formToYaml.js:173-180 | different strings are written differently |
| YamlScalar.TwoPassesAreOne | crates/scrooge-manager-api/static/policy-editor/codec/formToYaml.js:178-178 | escaping backslashes and then quotes equals a single escaping pass |
| YamlScalar.OnlyLastQuoteCloses | crates/scrooge-manager-api/static/policy-editor/codec/formToYaml.js:173-180 | in quoted output the last character is the only unescaped quote after the opening one |
| FileSize.ParsePretty | crates/scrooge-policy/src/rules.rs:253-269 | parsing a printed size gives it back for every size below 2^53 |
| FileSize.ReprintKeepsValue | crates/scrooge-manager-api/static/policy-editor/codec/yamlToForm.js:131-141 | whatever was typed, re-printing keeps its value and uses the largest unit that divides it |
| FileSize.ParsesExactlyWhenItFits | crates/scrooge-policy/src/rules.rs:253-269 | for every number, white space before, between and after, and every spelling of a unit in either case (B, K, KB, M, MB, G, GB or none): the text parses to the product if and only if that fits 64 bits |
| FileSize.OnlySpelledSizesParse | crates/scrooge-policy/src/rules.rs:253-269 | every other text is an error: a text parses if and only if it is such a number, fitting 64 bits itself, and unit |
| FileSize.InvalidNumberExactly | crates/scrooge-policy/src/rules.rs:253-259 | the error is about the number exactly when the text does not start with one that fits 64 bits, otherwise about the unit |
| PolicyModel.Validate | crates/scrooge-policy/src/lib.rs:224-267 | accepts exactly the valid policies, and otherwise reports the first fault |
| PolicyModel.ValidExactly | crates/scrooge-policy/src/lib.rs:224-267 | valid means: this apiVersion and kind, a name and rule ids of a-z, 0-9 and dashes, not empty, ids unique over inbound then outbound, and regexes that compile |
| PolicyModel.HeaderFaultExactly | crates/scrooge-policy/src/lib.rs:224-253 | which fault of the header is reported, check by check |
| PolicyModel.FaultAtExactly | crates/scrooge-policy/src/rules.rs:280-321 | which fault of a rule is reported: a repeated id, then an empty or malformed id, then the regex of the file name, then that of the path |
| Iban.IbanCheck | crates/scrooge-agent-core/src/modules/classifier/iban.rs:79-105 | accepts exactly the upper-case alphanumeric strings whose rearranged, letter-expanded integer is 1 modulo 97 |
| Iban.SymbolValues | crates/scrooge-agent-core/src/modules/classifier/iban.rs:84-97 | the 36 symbols 0-9A-Z are exactly the permitted characters, and each has its place in that list as value |
| Iban.SubstitutionRejected | crates/scrooge-agent-core/src/modules/classifier/iban.rs:79-105 | one digit for another or one letter for another is always rejected, at any length |
| Iban.SwapRejectedExactlyUnlessBlind | crates/scrooge-agent-core/src/modules/classifier/iban.rs:79-105 | swapping two different neighbours of the rearranged string is missed exactly for B/1, M/2 and X/3 |
| Iban.CheckDigitsExactly | crates/scrooge-agent-core/src/modules/classifier/iban.rs:79-105 | the digits 98 - (N mod 97) are accepted and any other accepted ones differ from them by 97 |
| Luhn.LuhnCheck | crates/scrooge-agent-core/src/modules/classifier/luhn.rs:81-100 | the double-add-double definition, exactly when its sum fits u32, and the wrapped sum otherwise |
| Luhn.ValidByPositions | crates/scrooge-agent-core/src/modules/classifier/luhn.rs:81-100 | valid means: counted from the right, the digits at odd positions and the digit sums of the doubles at even positions add up to a multiple of 10 |
| Luhn.SubstitutionRejected | crates/scrooge-agent-core/src/modules/classifier/luhn.rs:81-100 | every single-digit change of a valid number is rejected |
| Luhn.SwapMissedExactlyFor09 | crates/scrooge-agent-core/src/modules/classifier/luhn.rs:81-100 | an adjacent swap of different digits is missed exactly when they are 0 and 9 |
| Luhn.ExactlyOneCheckDigit | crates/scrooge-agent-core/src/modules/classifier/luhn.rs:81-100 | exactly one check digit completes a prefix |
| WeightedDigits.PeselCheck | crates/scrooge-agent-core/src/modules/classifier/pesel.rs:70-86 | accepts exactly eleven ASCII digits with d0 + 3 d1 + 7 d2 + 9 d3 + d4 + 3 d5 + 7 d6 + 9 d7 + d8 + 3 d9 + d10 divisible by 10 |
| WeightedDigits.NipCheck | crates/scrooge-agent-core/src/modules/classifier/nip.rs:78-98 | accepts exactly ten ASCII digits with 6 d0 + 5 d1 + 7 d2 + 2 d3 + 3 d4 + 4 d5 + 5 d6 + 6 d7 + 7 d8 - d9 divisible by 11 |
| WeightedDigits.ChangeBalance | crates/scrooge-agent-core/src/modules/classifier/pesel.rs:70-86 | for weights of any length, a change of one digit goes unnoticed exactly when weight times difference is 0 modulo m |
| WeightedDigits.SwapBalance | crates/scrooge-agent-core/src/modules/classifier/nip.rs:78-98 | for weights of any length, a swap goes unnoticed exactly when the product of the differences is 0 modulo m |
| WeightedDigits.PeselChangeRejected | crates/scrooge-agent-core/src/modules/classifier/pesel.rs:70-86 | every single-digit change of a valid PESEL is rejected |
| WeightedDigits.PeselSwapMissedExactlyBy5 | crates/scrooge-agent-core/src/modules/classifier/pesel.rs:70-86 | an adjacent swap of different digits is missed exactly when they differ by 5 |
| WeightedDigits.NipChangeRejected | crates/scrooge-agent-core/src/modules/classifier/nip.rs:78-98 | every single-digit change of a valid NIP is rejected |
| WeightedDigits.NipSwapMissedExactly | crates/scrooge-agent-core/src/modules/classifier/nip.rs:78-98 | a swap of different digits is missed exactly for positions 0/7, 1/6 and 2/8 |
| ClassifierScan.ScanIban | crates/scrooge-agent-core/src/modules/classifier/iban.rs:55-75 | exactly the spans whose text without spaces has a permitted length and passes the IBAN definition are reported, each in its place; as the spans are apart, in text order and without overlap |
| ClassifierScan.ScanCards | crates/scrooge-agent-core/src/modules/classifier/luhn.rs:57-78 | the same for cards, whose sums never wrap |
| ClassifierScan.KeptCharacters | crates/scrooge-agent-core/src/modules/classifier/luhn.rs:57-62 | the scanners keep exactly the characters that are not white space, and exactly the ten digits |
| ClassifierScan.SpacesDoNotMatter | crates/scrooge-agent-core/src/modules/classifier/iban.rs:58-62 | how a number is grouped with spaces makes no difference |
| ClassifierScan.MistypedIbanIsNotReported | crates/scrooge-agent-core/src/modules/classifier/iban.rs:55-105 | a reported span with one digit mistyped is never reported |
| ClassifierScan.MistypedCardIsNotReported | crates/scrooge-agent-core/src/modules/classifier/luhn.rs:57-100 | the same for cards |
| ClassifierScan.RedactedIbanHides | crates/scrooge-agent-core/src/modules/classifier/iban.rs:107-111 | the redacted text distinguishes numbers exactly by country and last four characters |
| ClassifierScan.RedactedCardHides | crates/scrooge-agent-core/src/modules/classifier/luhn.rs:103-106 | the redacted text distinguishes cards exactly by their last four digits |
| EnrollmentTokens.UsesBounded | crates/scrooge-manager-bin/src/grpc.rs:365-437 | with at most c overlapping enrollments the use count never exceeds max_uses + c - 1 (nor 0 when max_uses is not positive, nor 32 bits), and agents enrolled = counted + about to be counted + failed increments |
| EnrollmentTokens.LimitIsReached | crates/scrooge-manager-bin/src/grpc.rs:365-437 | for every positive max_uses and c some run reaches that bound, with all checks at any one instant up to the expiry, that instant included |
| EnrollmentTokens.EnrolledInTime | crates/scrooge-manager-bin/src/grpc.rs:381-385 | in every run each enrolled agent passed a check no later than the expiry |
| RefreshTokens.OneLiveTokenPerLogin | crates/scrooge-manager-api/src/auth.rs:128-268 | if no token is looked up while another exchange of it has yet to revoke it, which handlers run one at a time guarantee: at most one live token per login, each token exchanged at most once, and all tokens of a login belong to its user |
| RefreshTokens.LookupIsSafeExactly | crates/scrooge-manager-api/src/auth.rs:186-219 | from every reachable state a lookup leaves all guarded continuations with one live token per login if and only if no other exchange of the token has yet to revoke it |
| RefreshTokens.OverlapForks | crates/scrooge-manager-api/src/auth.rs:186-219 | without the guard, every usable token of every reachable state can be exchanged twice, leaving its login two live tokens |
| RefreshTokens.DisabledUserIsRefused | crates/scrooge-manager-api/src/auth.rs:206-209 | a user can be disabled at any time, and from then on no token of the user is looked up |
| RefreshTokens.FailedRefreshIsDrop | crates/scrooge-manager-api/src/auth.rs:211-219 | a refresh whose issue fails leaves the old token revoked and no new one |
| RefreshTokens.RefreshIsLookupRevokeIssue | crates/scrooge-manager-api/src/auth.rs:186-219 | the handler is the three steps in a row |
| RefreshTokens.AuthStore.Login | crates/scrooge-manager-api/src/auth.rs:128-156 | unknown user, disabled user and wrong password are one error; otherwise one new live token |
| RefreshTokens.AuthStore.Refresh | crates/scrooge-manager-api/src/auth.rs:186-219 | refused exactly when the token is unknown, revoked or expired (at its expiry included) or its owner is unknown or disabled; otherwise the old token is revoked, even when issuing fails, and one new row is stored for its owner |
| RefreshTokens.ExpiredIsNeverExchanged | crates/scrooge-manager-api/src/auth.rs:191-205 | no step sequence, overlapping lookups included, issues a successor for a token that was looked up only at or after its expiry |
| Backoff.RunWithReconnect | crates/scrooge-agent-bin/src/stream.rs:51-91 | the sleep is 1 at the start and after a clean session and otherwise twice the one before, up to 60; it is min(2^k, 60) for k iterations since then; the loop ends exactly at a shutdown |
| Backoff.DelayGrowsToMax | crates/scrooge-agent-bin/src/stream.rs:51-91 | while failures continue the delay doubles up to the maximum, which it has exactly from the sixth on |

## Left out

- TLS, certificates, CSR signing, bcrypt, JWT and SHA-256: foreign libraries; hashes and UUIDs are taken to be collision-free, password checks are parameters.
- The regex engine of the classifiers: its spans are given, ascending and apart; text is ASCII, and the empty-match and non-ASCII-digit cases do not arise.
- ScanIban and ScanCards stand for all scanners: the PESEL and NIP scanners filter the same way.
- serde_yaml, MessagePack and protobuf internals: the reader covers the block-YAML subset that the editor writes; what a bare scalar of no declared type resolves to is a parameter, of which only that a printed size is text is taken for granted; a duplicate struct key and a quoted scalar that could be bare, which the editor never writes, are read as the first and as a bare one.
- PolicyReader: the sections that the editor never writes (exclusions, monitored paths, classifiers, inbound rules, disabled rules) are read, but no theorem is about their keys.
- YamlText: escapes other than `\\` and `\"`, comments, anchors, block scalars and multi-line strings, none of which the editor writes.
- EditorRoundTrip.RoundTrip: sizes of 2^53 and more, which JavaScript cannot hold exactly, and strings with line breaks or control characters, which the editor writes unescaped, are outside the statement.
- EventCopies.StoredAsDelivered: generated UUIDs are taken to be new, that is not in the table, not repeated within a batch and not the id of an event of the run.
- Target matching by operating system, tags and groups: the pending query does not do it.
- PolicyTables.LoadPending: text is ordered by code point; the database's collation may order names differently.
- PolicyPush: a failed write is taken to leave the file unchanged; mark_assigned and mark_acked either take effect or fail as a whole.
- PolicyStore: handlers run one at a time, as two concurrent updates could store the same version twice; admin rights, user ids, change reasons, timestamps and notification are not part of the model.
- The registry of connected agents: an old stream's cleanup can remove a newer registration, so nothing is claimed about who is reachable.
- EventTables.KeyOf: nanoseconds are cut to microseconds by flooring; the database driver's rounding of times before the year 2000 is not part of this model.
- EventPipeline: partitions of the events table, the details column and exhaustion of 64-bit row ids.
- EnrollmentTokens.UsesBounded: the table of tokens and the lookup by hash; the model follows one token.
- RefreshTokens: deletion of users, which cascades to their tokens; the last-login timestamp.
- Command bridge, heartbeats, CORS, configuration, install templates, dashboard DOM code, clipboard and inotify watchers: plumbing without further properties.
