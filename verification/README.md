# Verified models of the cursor assistant's stateful kernels

This project models nine small kernels of the assistant and its helper proxy in
Dafny and proves what they guarantee over every run, every interleaving or every
input. Each kernel appears twice where the original changes state in place: as
mutable objects or loops whose contracts tie them to functions, and as a step
machine or a set of functions about which the laws are proved.

| module | models |
|---|---|
| `AppendSequence`, `AppendProtocol` | the ticket protocol that orders appends per request id; any number of concurrent callers |
| `Jsonc`, `JsoncLexemes`, `JsoncRoundTrip` | comment and trailing-comma removal from JSONC bytes |
| `ResponsesStream`, `ResponsesLaws` | the Responses-to-chat converters, streaming and synchronous |
| `RpcClient`, `RpcProtocol`, `RpcRefinement` | the pending table of the JSON-RPC client under calls, responses, cancellation and process exit |
| `LogWindow` | the log file that keeps only its last lines |
| `LogLimiter` | the per-key log rate limiter |
| `Compaction` | fitting a conversation into a model's input budget |
| `AliasIndex`, `TypeResolver`, `TypeCopy`, `TypeNames` | following aliases, choosing definitions, copying external types and writing references in the proto extractor |
| `UsageLedger` | usage totals, daily snapshots and recent requests |
| `Basics` | options, bytes and newline counts shared by the others |

`dafny verify dfyconfig.toml` checks everything.

## Reading guide

* A run is a sequence of states with one action or call between each and the next
  (`IsRun`). A state is reachable if a run ends in it. Auxiliary records (granted
  numbers, served response lines, the logs behind a snapshot, dropped bytes) are kept
  beside the original's own fields only to state the laws.
* Map iteration order is arbitrary in the original and in the model: loops over a
  map pick any remaining key.
* Clocks, JSON parsing, name parsing, name resolution, the summariser's answer and
  the number of bytes a file write accepts are parameters and may be anything.

## Results that correct an expectation

* The tracker checks a state for expiry and deletes its entry in two steps, and
  releases the state's lock in between. An entry can therefore disappear while its
  state is processing (`AppendProtocol.EvictionRace`). Whether it can is settled at the
  verdict: if and only if a caller is there already that is about to try that state, or
  can wake up to try it, with number 1 or the expected number (`DeletedInUseIff`);
  without one, every continuation deletes the entry of an idle state. The race costs
  exclusion: a later caller gets a fresh state, and two tickets with number 1 of one
  request are outstanding together (`TwoTicketsOfOneRequest`). Without a deleted entry
  this cannot happen (`ExclusionPerRequest`).
* Eviction harms without a race, too. Number 2 may wait for number 1 longer than the
  retention period. Number 1 then finds its entry deleted, is served on a fresh state,
  and the caller with number 2 is stranded at the old one (`WaiterIsStranded`): in every
  continuation it waits until it is cancelled (`StrandedForever`). An idle state whose
  entry is gone grants another ticket, and lets a waiter with an open channel wake, in
  some continuation if and only if a caller as above is left (`EvictedServesIff`,
  `MayWakeIff`).
* Calls of the log limiter read the clock before they take its lock, so the times in
  lock order may go back. Allowed messages of a key are spaced if and only if the window
  and twice the longest delay between the two are at most one nanosecond longer than the
  entry lifetime (`LogLimiter.SpacingIff`). The factor two is real: a late denied call
  also sets the time of last use back (`LateCallsBreakSpacing`). The default window
  tolerates delays of 135 seconds and no more (`DefaultWindowSpaces`).
* A daily snapshot equals the sum of its per-model counters if and only if no model is
  named like a property that every JavaScript object inherits
  (`UsageLedger.SnapshotEqualsItsModels`); a request for a model named `constructor` is
  counted for the day and for no model (`UsageLedger.ConstructorIsNotCounted`).
* Writing short names keeps all types apart only under a condition on the input. Every
  reference of a closed result means its type if and only if, over the original package
  and the known messages reached from it (`TypeNames.KeepsTypesIff`): no two reached
  external types share a short name, and none has that of a type of the package; no
  reference goes to a type of Google's or of the empty package with such a short name,
  nor to one of Google's nested under the name of the message; and none to a type of the
  package that was not extracted and has the short name of a reached type. Each part is
  needed. Of two external types with one short name only the first is copied, and
  references to the other are written with its name (`SecondTypeIsLost`). A reference to
  `google.protobuf.Timestamp` becomes one to the copy of another package's `Timestamp`
  (`GoogleTypeIsLost`), and so does one to a type of the package itself that was not
  extracted (`OwnTypeIsLost`). A nested type of Google's is written relative to a message
  of the same name (`NestedGoogleTypeIsLost`).
* A name written for an external type need not be defined in the package. It is if all
  reached types of that name are known, and if none is, only if the package had such a
  name from the start (`TypeNames.LocalNameIsDefined`). Of a name with types that the
  package refers to itself, only those count (`DirectTypesDecide`). An unknown type that
  is visited first keeps a known one of the same name out (`KnownTypeIsUndefined`).
* Copying is cut off after 21 rounds. That happens only if there is a chain of 21
  references, from the package through known messages, to types with different short
  names (`TypeCopy.CopyAllExternalTypes`); with shorter chains the result is closed.
* A log file stays within its window after a complete write if and only if the
  payload alone fits (`LogWindow.WindowIsKept`).

## Model

| member | source | states |
|---|---|---|
| AppendSequence.State.constructor | internal/backend/forwarder/append_seq.go:68-72 | a new state expects number 1, is idle and has an open ready channel of its own |
| AppendSequence.State.TryAcquire | internal/backend/forwarder/append_seq.go:77-129 | one locked region of acquire: the decision (restart at 1, stale, granted, wait) with the new number and flag, and the channel a waiter leaves with is the current one |
| AppendSequence.State.Release | internal/backend/forwarder/append_seq.go:131-146 | an effective release frees the state, moves to the following 64-bit number, closes exactly the current channel and installs a fresh open one; any other release changes only the time stamp |
| AppendSequence.State.Expired | internal/backend/forwarder/append_seq.go:148-158 | true exactly for an idle, used state last updated before the cutoff |
| AppendSequence.State.Touch | internal/backend/forwarder/append_seq.go:160-167 | only the time stamp changes |
| AppendSequence.Tracker.constructor | internal/backend/forwarder/append_seq.go:31-35 | a new tracker has an empty table |
| AppendSequence.Tracker.Sweep | internal/backend/forwarder/append_seq.go:57-63 | whatever the visiting order, exactly the expired entries go and the others keep their states |
| AppendSequence.Tracker.FindState | internal/backend/forwarder/append_seq.go:53-75 | the table after a lookup: survivors of the sweep plus the requested id; an existing state is only touched, a missing one is fresh; no other state changes |
| AppendProtocol.StepInv | internal/backend/forwarder/append_seq.go:37-174 | every step of every caller, at the granularity of locked regions, keeps the invariant behind the results below |
| AppendProtocol.MutualExclusion | internal/backend/forwarder/append_seq.go:77-146 | in every reachable state and for every state object, processing holds iff a ticket is outstanding; there is only one and it carries the current number |
| AppendProtocol.ExclusionPerRequest | internal/backend/forwarder/append_seq.go:53-75 | in every reachable state, two different outstanding tickets of one request id belong to states of which at least one had its entry deleted |
| AppendProtocol.ReleaseAdvances | internal/backend/forwarder/append_seq.go:131-146 | releasing an outstanding ticket is never ignored: the state is free, expects the following 64-bit number, and a channel is closed that was not closed before |
| AppendProtocol.NoLostWakeUp | internal/backend/forwarder/append_seq.go:89-128 | a waiter with an open channel is really blocked, a waiter whose retry would be decided can wake, and no current channel is ever closed |
| AppendProtocol.IdleObjectServes | internal/backend/forwarder/append_seq.go:89-118 | an idle state grants the expected number and a restart at 1, and its blocked waiters all have later numbers |
| AppendProtocol.GrantsAreGapFree | internal/backend/forwarder/append_seq.go:92-142 | the numbers granted on a state are a concatenation of runs 1, 2, ..., k, and grants exceed releases by exactly the outstanding ticket |
| AppendProtocol.StaleMeansDone | internal/backend/forwarder/append_seq.go:111-114 | a number is refused as stale only if it is not 1 and was granted and released in the run in progress |
| AppendProtocol.DoneMeansStale | internal/backend/forwarder/append_seq.go:111-114 | conversely such a number is refused, unless the run has used up the largest 64-bit number |
| AppendProtocol.BypassIff | internal/backend/forwarder/append_seq.go:37-42 | a call with an empty id or a number below 1 gets no ticket and touches nothing; any other asks for its state |
| AppendProtocol.LookupFindsOwn | internal/backend/forwarder/append_seq.go:64-75 | a lookup leads to the state of the own request: the one in the table, only touched, or a fresh one that expects number 1 |
| AppendProtocol.AttemptMeans | internal/backend/forwarder/append_seq.go:89-128 | which callers are granted, refused or made to wait, in terms of the flag and the expected number; all three conditions are exact |
| AppendProtocol.WaiterMayGiveUp | internal/backend/forwarder/append_seq.go:96-126 | a waiter can be cancelled at any time, and nothing else changes |
| AppendProtocol.StampIsLastUse | internal/backend/forwarder/append_seq.go:64-167 | a time stamp is that of the last lookup, attempt or release of its state |
| AppendProtocol.VerdictIff | internal/backend/forwarder/append_seq.go:50-63 | the sweep condemns a state iff it is idle and was used, but not in the last ten minutes; all its tickets are released then |
| AppendProtocol.SweepIsComplete | internal/backend/forwarder/append_seq.go:57-64 | a caller looks its request up only after it has checked every entry that was there when it took the lock |
| AppendProtocol.DeletedInUseIff | internal/backend/forwarder/append_seq.go:57-63 | from the verdict on, some continuation deletes the entry while its state is processing iff at the verdict some caller is trying that state, or waits on it with a closed channel, with number 1 or the expected number |
| AppendProtocol.EvictionRace | internal/backend/forwarder/append_seq.go:59-63 | a reachable state in which the next step deletes the entry of a processing state |
| AppendProtocol.TwoTicketsOfOneRequest | internal/backend/forwarder/append_seq.go:59-74 | a reachable state in which two callers hold ticket 1 of one request, one of them on a state whose entry was deleted |
| AppendProtocol.EvictedServesIff | internal/backend/forwarder/append_seq.go:59-128 | an idle state whose entry was deleted grants another ticket in some continuation iff such a caller is left |
| AppendProtocol.StrandedForever | internal/backend/forwarder/append_seq.go:59-128 | a waiter with an open channel on an idle, evicted state without such a caller stays as it is in every continuation without its cancellation, and can never wake |
| AppendProtocol.MayWakeIff | internal/backend/forwarder/append_seq.go:59-146 | a waiter with an open channel on an idle, evicted state can wake in some continuation without its cancellation iff such a caller is left |
| AppendProtocol.WaiterIsStranded | internal/backend/forwarder/append_seq.go:53-128 | a reachable state in which number 2 is stranded at an evicted state while the fresh state of its request expects number 2 |
| Jsonc.StripComments | internal/cursor/settings.go:294-363 | the flag-driven loop computes the recursive machine Strip on every input |
| Jsonc.FindsCloser | internal/cursor/settings.go:396-400 | the look-ahead loop decides whether only whitespace precedes a closing bracket |
| Jsonc.StripTrailingCommas | internal/cursor/settings.go:366-409 | the flag-driven loop computes the recursive machine DropCommas on every input |
| Jsonc.Normalize | internal/cursor/settings.go:282-291 | byte order mark, comments and commas in this order, failing with the comment stripper |
| JsoncLexemes.LexReads | internal/cursor/settings.go:294-363 | every byte string is the print of a well-formed list of lexemes |
| JsoncLexemes.LexIsUnique | internal/cursor/settings.go:294-363 | printing a well-formed list of lexemes and reading it back gives that list, so the reading is unique |
| JsoncLexemes.StripDoc | internal/cursor/settings.go:294-363 | stripping prints the lexemes with each comment replaced by its newlines, and fails on a document that ends inside a block comment |
| JsoncLexemes.StripFailsIff | internal/cursor/settings.go:359-361 | stripping fails iff the input ends inside a block comment |
| JsoncLexemes.StripOutput | internal/cursor/settings.go:294-363 | the output conserves the number of newlines, has no comment outside a string and is a fixed point of stripping |
| JsoncLexemes.DropCommasDoc | internal/cursor/settings.go:366-409 | exactly the commas that only spaces, tabs, line feeds and carriage returns separate from a closing bracket or brace are removed; strings are untouched |
| JsoncLexemes.NormalisedMeaning | internal/cursor/settings.go:282-291 | the normaliser on arbitrary bytes, in terms of their lexemes: the mark EF BB BF goes, then comments, then trailing commas |
| JsoncRoundTrip.RoundTrip | internal/cursor/settings.go:282-409 | decorate the tokens of any JSON text (section 2 of RFC 8259) with whitespace, comments and a trailing comma before closers, with or without a byte order mark: normalising succeeds and prints the same tokens and whitespace, comments reduced to their newlines, trailing commas gone |
| ResponsesStream.JoinParts | submodules/copilot-for-cursor/responses-converters.ts:20-22 | the loop concatenates exactly the output_text parts in order |
| ResponsesStream.ConvertSync | submodules/copilot-for-cursor/responses-converters.ts:8-41 | the text (null if empty), the tool calls in order, the finish reason and the usage of a whole answer |
| ResponsesStream.PartsTextLaw | submodules/copilot-for-cursor/responses-converters.ts:20-22 | the text of parts is that of the output_text parts in order |
| ResponsesStream.OutputTextLaw | submodules/copilot-for-cursor/responses-converters.ts:18-23 | the text of items is that of the parts of the messages in order |
| ResponsesStream.OutputCallsLaw | submodules/copilot-for-cursor/responses-converters.ts:24-30 | the tool calls are the function calls in order, each under its call_id or, without one, its id |
| ResponsesStream.Converter.constructor | submodules/copilot-for-cursor/responses-converters.ts:60-63 | the initial counters |
| ResponsesStream.Converter.ProcessEvent | submodules/copilot-for-cursor/responses-converters.ts:85-121 | one event updates index, role flag, counter and output as the translation function says |
| ResponsesStream.Converter.ProcessCompleted | submodules/copilot-for-cursor/responses-converters.ts:123-141 | the finishing chunk and the usage chunk |
| ResponsesStream.Converter.ProcessLines | submodules/copilot-for-cursor/responses-converters.ts:76-143 | lines that carry no event are skipped, the others are translated in order up to one that throws |
| ResponsesStream.CarriesEvent | submodules/copilot-for-cursor/responses-converters.ts:78-83 | a line with the data prefix carries exactly the event of its JSON text, whatever white space is around that |
| ResponsesStream.CarriesNothing | submodules/copilot-for-cursor/responses-converters.ts:78-80 | lines without the prefix, blank ones and the end marker carry nothing |
| ResponsesStream.SpaceIff | submodules/copilot-for-cursor/responses-converters.ts:79-79 | trim removes exactly the white space and line terminators of ECMAScript |
| ResponsesStream.Converter.Feed | submodules/copilot-for-cursor/responses-converters.ts:160-163 | one read processes the completed lines and keeps the last one |
| ResponsesStream.Converter.Finish | submodules/copilot-for-cursor/responses-converters.ts:150-157 | the remainder is processed and the end marker follows, unless processing throws |
| ResponsesStream.BlankHasNoEvents | submodules/copilot-for-cursor/responses-converters.ts:151-153 | skipping a blank remainder loses no event |
| ResponsesStream.SplitIsInverseOfJoin | submodules/copilot-for-cursor/responses-converters.ts:161-161 | splitting at newlines loses only the separators |
| ResponsesStream.SplitOfJoin | submodules/copilot-for-cursor/responses-converters.ts:161-161 | lines without newlines come back from splitting their join |
| ResponsesStream.SplitConcat | submodules/copilot-for-cursor/responses-converters.ts:160-162 | splitting a longer text only continues the last line of the shorter one |
| ResponsesStream.ThrowIsFinal | submodules/copilot-for-cursor/responses-converters.ts:165-168 | once an event has thrown, later chunks change nothing |
| ResponsesStream.ConvertStream | submodules/copilot-for-cursor/responses-converters.ts:145-170 | however a text is cut into chunks, the output is that of translating all its lines once and then the end marker |
| ResponsesLaws.StreamIsLawful | submodules/copilot-for-cursor/responses-converters.ts:76-143 | over any events, tool indices are introduced as 0, 1, 2, ..., arguments name the index introduced last, the first delta and no other frame carries the role and the counter counts the chunks |
| ResponsesLaws.AtMostOneRole | submodules/copilot-for-cursor/responses-converters.ts:89-103 | no two chunks carry the role |
| ResponsesLaws.StreamingRefinesSync | submodules/copilot-for-cursor/responses-converters.ts:76-143 | however the items of an answer are cut into non-interleaved events, a client that folds the frames ends with the text, tool calls, finish reason and usage of the synchronous converter |
| ResponsesLaws.TextRefinesSync | submodules/copilot-for-cursor/responses-converters.ts:76-163 | the same from text: print the events as data lines, with any white space and any lines that carry nothing; for any chunks of that text the folded answer is the synchronous one and the end marker comes last |
| RpcClient.ReplyChannel.Send | internal/backend/codex/client.go:245-245 | a send into a channel of capacity one that has room |
| RpcClient.Client.constructor | internal/backend/codex/client.go:124-130 | a new client has no pending calls |
| RpcClient.Client.Register | internal/backend/codex/client.go:244-248 | a call gets an id that was never used and an empty channel of its own in the table |
| RpcClient.Client.RemovePending | internal/backend/codex/client.go:384-388 | exactly the entry of that id goes |
| RpcClient.Client.ResolveResponse | internal/backend/codex/client.go:350-367 | a response reaches the channel registered under its id and no other; an unknown id changes nothing |
| RpcClient.Client.NotifyExit | internal/backend/codex/client.go:344-347 | one step of the exit drain: the send has room and the entry goes |
| RpcClient.Client.DrainPending | internal/backend/codex/client.go:342-347 | every registered channel gets exactly one exit notice and the table ends up empty |
| RpcProtocol.StepInv | internal/backend/codex/client.go:243-388 | every step of every interleaving keeps the invariant behind the results below |
| RpcProtocol.SendsNeverBlock | internal/backend/codex/client.go:336-367 | in every reachable state each call's channel was sent to at most once, so the reader's send and, under the lock, the drain's sends always have room |
| RpcProtocol.ResponsesReachTheirCall | internal/backend/codex/client.go:350-367 | a response is returned only by the call that issued its id (section 5 of the JSON-RPC 2.0 Specification), and no response line answers two calls |
| RpcProtocol.TakenIsDelivered | internal/backend/codex/client.go:350-367 | a response taken for a call stays with the reader until it is alone in the channel of that call |
| RpcProtocol.ReceivedIsReturned | internal/backend/codex/client.go:266-268 | what is in the channel of a waiting call, a response with its id or the exit notice, is what it returns |
| RpcProtocol.DoneIff | internal/backend/codex/client.go:232-341 | in every run the done channel is closed from the first end of reading, close or exit on, and never twice |
| RpcProtocol.EveryPhaseHasCause | internal/backend/codex/client.go:243-275 | in every run a call waits or has an answer only after its request was written, and gives up only if the write failed, its context was cancelled or done is closed |
| RpcProtocol.NoticeReachesItsCall | internal/backend/codex/client.go:344-347 | an exit notice goes to the call that issued the id and is all that it has in its channel |
| RpcProtocol.DrainIsComplete | internal/backend/codex/client.go:342-347 | the drain notifies every call that was pending when it took the lock before it gives the lock back |
| RpcProtocol.PendingBelongsToCallsInFlight | internal/backend/codex/client.go:246-275 | every pending entry belongs to a call that has not returned; with none in flight the table is empty |
| RpcProtocol.EveryStepIsCloser | internal/backend/codex/client.go:243-275 | every step of a call, whatever its outcome, and every step of the drain brings the call closer to its return |
| RpcProtocol.OthersDoNotSetBack | internal/backend/codex/client.go:243-367 | no step of another call, the reader or the process moves a call back or opens done again |
| RpcProtocol.NoCallIsStuck | internal/backend/codex/client.go:243-275 | once done is closed and provided that the write to the process ends, with success or failure: no sequence of steps of the call and the drain is longer than a stated bound, and until the call has returned such a step is enabled; also for a call that registered after the drain |
| RpcRefinement.Register | internal/backend/codex/client.go:243-249 | registering in the client is allocating and registering in the protocol; table and all channels agree afterwards |
| RpcRefinement.Respond | internal/backend/codex/client.go:350-367 | resolving a response in the client is taking the line and delivering it in the protocol; table and all channels agree afterwards |
| RpcRefinement.NotifyExit | internal/backend/codex/client.go:336-347 | one notice of the exit drain to the client's channels is the drain step of the protocol |
| RpcRefinement.Remove | internal/backend/codex/client.go:255-275 | removing an entry is the step by which a call gives up |
| LogWindow.CountByte | internal/logger/logger.go:230-230 | the number of newline bytes |
| LogWindow.CountBytesLines | internal/logger/logger.go:256-265 | one line per newline and one for an unfinished last line |
| LogWindow.IndexOfNewline | internal/logger/logger.go:278-278 | the first newline from an offset, or that there is none |
| LogWindow.LastLinesBytes | internal/logger/logger.go:267-286 | the last lines as a suffix cut between lines, with their exact number; the missing-newline branch is unreachable |
| LogWindow.LastLinesAreUnique | internal/logger/logger.go:275-284 | only one suffix cut between lines has a given number of lines |
| LogWindow.LinesConcat | internal/logger/logger.go:226-243 | line counts add up, except that a payload joined to an open line starts no line of its own |
| LogWindow.LineWindowWriter.constructor | internal/logger/logger.go:130-153 | counters agree with the file, which is trimmed to the window on opening |
| LogWindow.LineWindowWriter.CountIncomingLines | internal/logger/logger.go:226-243 | exactly the lines a payload adds; the guard against a negative count never fires |
| LogWindow.LineWindowWriter.TrimToLastLines | internal/logger/logger.go:197-224 | the file becomes its last lines, the counters agree, and the cut is after a newline or empties the file |
| LogWindow.LineWindowWriter.MakeRoom | internal/logger/logger.go:161-173 | trimming happens exactly on overflow and keeps exactly the target number of lines |
| LogWindow.LineWindowWriter.Append | internal/logger/logger.go:174-178 | after a full or partial append the incremental counters equal a recount |
| LogWindow.LineWindowWriter.Write | internal/logger/logger.go:155-180 | everything written is what was dropped plus the file; the cut is after a newline or at the start of this payload; counters equal a recount |
| LogWindow.TrimmingMakesRoom | internal/logger/logger.go:161-173 | trimming makes room for the whole payload, also when emptying the file gives the payload a line of its own |
| LogWindow.SurvivingLines | internal/logger/logger.go:161-173 | exactly how many lines survive a write: all without overflow, otherwise as many as leave room for the payload and the reserve, or for the payload alone, or none |
| LogWindow.WindowIsKept | internal/logger/logger.go:155-180 | a file within the window stays within it if the payload fits, and after a complete write only if it fits |
| LogWindow.RunKeepsSuffix | internal/logger/logger.go:155-180 | over any writes the file is a suffix of everything written, cut between lines or where a payload starts |
| LogWindow.RunStaysInWindow | internal/logger/logger.go:130-180 | over any writes of payloads that fit the window, the file never exceeds it |
| LogLimiter.Limiter.constructor | internal/mitm/service.go:102-110 | a non-positive window becomes thirty seconds |
| LogLimiter.Limiter.FindOldest | internal/mitm/service.go:154-165 | a key seen least recently |
| LogLimiter.Limiter.Expire | internal/mitm/service.go:147-152 | exactly the entries unused for longer than the lifetime go |
| LogLimiter.Limiter.EnforceCapacity | internal/mitm/service.go:153-170 | below the bound nothing goes; otherwise just enough entries, none seen later than a survivor |
| LogLimiter.Limiter.Prune | internal/mitm/service.go:143-171 | expiry and then the bound |
| LogLimiter.Limiter.Answer | internal/mitm/service.go:126-140 | allowed iff the key has no entry or its time has come; reported count and new entry |
| LogLimiter.Limiter.ShouldLog | internal/mitm/service.go:112-141 | one call as a step of the run relation; blank keys bypass the table |
| LogLimiter.TableIsBounded | internal/mitm/service.go:153-170 | in every run, in whatever order the clocks were read, the table holds at most 1024 keys |
| LogLimiter.EvictionIff | internal/mitm/service.go:153-170 | the bound evicts one key, seen no later than any survivor, if 1024 live keys are there, and none otherwise |
| LogLimiter.AllowedCallsAreSpaced | internal/mitm/service.go:112-141 | two allowed calls of a key are a window apart unless the bound evicted the key in between, for calls that take the lock within a delay after reading the clock such that window and twice the delay are within the lifetime plus one nanosecond |
| LogLimiter.LateCallsBreakSpacing | internal/mitm/service.go:121-152 | for every longer window or delay, a run that breaks the spacing |
| LogLimiter.SpacingIff | internal/mitm/service.go:82-152 | all runs with at most this delay are spaced iff the window and twice the delay are at most the lifetime plus one nanosecond |
| LogLimiter.DelayedIff | internal/mitm/service.go:121-122 | times in lock order go back by at most the delay iff there are lock times in order, each within the delay after the clock reading |
| LogLimiter.DefaultWindowSpaces | internal/mitm/service.go:102-152 | the default window is spaced iff the delay is at most 135 seconds |
| LogLimiter.DeniedOnlyWithinWindow | internal/mitm/service.go:131-135 | a call is denied only if an allowed call of its key, earlier in lock order, is less than a window old |
| LogLimiter.LastSeenIsLatest | internal/mitm/service.go:128-131 | an entry's age is the clock reading of the last call of its key in lock order |
| LogLimiter.SuppressedAreConserved | internal/mitm/service.go:112-171 | per key, denied calls are those reported, those pending and those lost to pruning |
| Compaction.EstimateTokens | submodules/copilot-for-cursor/max-mode.ts:79-88 | the exact ceiling of a quarter of the ASCII units plus two thirds of the others |
| Compaction.TokensAreLeast | submodules/copilot-for-cursor/max-mode.ts:79-88 | in whole numbers: the least estimate that is at least a quarter for each unit below 128 and two thirds for each other |
| Compaction.EstimateParts | submodules/copilot-for-cursor/max-mode.ts:98-101 | the sum over the parts of a message |
| Compaction.EstimateMessages | submodules/copilot-for-cursor/max-mode.ts:90-109 | the sum over messages with role and tool call overhead |
| Compaction.MessageCounts | submodules/copilot-for-cursor/max-mode.ts:90-109 | lists count the sum of their messages; a message counts four, its text or parts, and its tool calls |
| Compaction.SplitByRole | submodules/copilot-for-cursor/max-mode.ts:190-191 | the two parts together are a permutation of the messages, each of its own role, with the same estimate |
| Compaction.SplitInOrder | submodules/copilot-for-cursor/max-mode.ts:190-191 | each part keeps the order of the messages |
| Compaction.SplitOfSplit | submodules/copilot-for-cursor/max-mode.ts:239-240 | splitting a list that is already split gives its two parts |
| Compaction.OldAndRecent | submodules/copilot-for-cursor/max-mode.ts:193-195 | old and recent messages together are all of them, also when none is to be kept |
| Compaction.HardTruncateMessages | submodules/copilot-for-cursor/max-mode.ts:238-250 | the system messages and a suffix of the others with the fewest messages dropped that meets the target or leaves two |
| Compaction.DroppedIsUnique | submodules/copilot-for-cursor/max-mode.ts:242-245 | that number is unique |
| Compaction.Request.HardTruncateIfOver | submodules/copilot-for-cursor/max-mode.ts:252-263 | unchanged within the ceiling, otherwise truncated |
| Compaction.Request.CompactIfNeeded | submodules/copilot-for-cursor/max-mode.ts:167-233 | which of the outcomes happens: unchanged, summarised, truncated or both |
| Compaction.CompactionContract | submodules/copilot-for-cursor/max-mode.ts:167-263 | for any conversation and any summariser outcome: one of fewer than 15 messages or within 80 (max mode) or 95 hundredths of the limit stays as it is; otherwise the result is within 95 hundredths or down to two other messages; all system messages survive in order; the others are the longest suffix that fits or has two messages, of the original ones or of summary, acknowledgment and the last ten, or last half if that is fewer |
| AliasIndex.BuildDirect | proto/ext_tool/extractor.go:247-255 | the last usable assignment of each alias counts |
| AliasIndex.DirectMeans | proto/ext_tool/extractor.go:248-255 | an alias stands for the target of its last assignment between two different nonempty names |
| AliasIndex.ResolveRoot | proto/ext_tool/extractor.go:257-271 | the walk ends, at the end of the chain, or at the symbol itself when the chain never ends |
| AliasIndex.RootIsUnique | proto/ext_tool/extractor.go:257-271 | a chain has at most one end |
| AliasIndex.BuildAliasIndex | proto/ext_tool/extractor.go:273-284 | an alias is filed under a root iff its chain ends there and the root stands for nothing else; lists ascend |
| AliasIndex.LessIff | proto/ext_tool/extractor.go:281-283 | the order of the lists is that of dictionaries |
| AliasIndex.FiledAtMostOnce | proto/ext_tool/extractor.go:273-284 | an alias is filed once at most, and nowhere if its chain cycles |
| AliasIndex.IndexIsUnique | proto/ext_tool/extractor.go:273-284 | the index does not depend on the order in which the map is visited |
| TypeResolver.ApplyWish | proto/ext_tool/extractor.go:321-332 | a preference keeps those that meet it, or all if none does |
| TypeResolver.FilterInOrder | proto/ext_tool/extractor.go:321-356 | a preference keeps the order of the candidates |
| TypeResolver.Nearest | proto/ext_tool/extractor.go:358-384 | the first candidate that no other beats, by distance and then by not lying after the context |
| TypeResolver.NearestMeans | proto/ext_tool/extractor.go:358-384 | the chosen candidate has the least distance; among those it is not after the context if one is not; among those it is the first |
| TypeResolver.PickBestDefinition | proto/ext_tool/extractor.go:315-389 | the nearest of the candidates left by the preferences; none only if there are no candidates |
| TypeResolver.WishesAreRespected | proto/ext_tool/extractor.go:320-356 | exactly which candidates are left: those of the preferred package if there is one, of these those of the wanted kind if there is one, of these those of the module of the context if there is one |
| TypeCopy.CollectSite | proto/ext_tool/extractor.go:1291-1308 | a reference adds its type iff it resolves to an external type without a local name |
| TypeCopy.SitesAreReferences | proto/ext_tool/extractor.go:1197-1290 | the collected references are exactly the message and enum types of fields and of map values, and the input and output types of methods, each with the position of its message or service |
| TypeCopy.CollectMessage | proto/ext_tool/extractor.go:1197-1201 | exactly the types needed by a message's fields are added |
| TypeCopy.CollectService | proto/ext_tool/extractor.go:1202-1207 | exactly the types needed by a service's methods are added |
| TypeCopy.CollectAll | proto/ext_tool/extractor.go:1194-1207 | exactly the types needed anywhere in the package are collected |
| TypeCopy.LocalNames | proto/ext_tool/extractor.go:1162-1177 | the short names a package starts with are those of its own types, each recorded as local |
| TypeCopy.ReachedIsClosed | proto/ext_tool/extractor.go:1193-1249 | these types contain what the package refers to and what any known message among them refers to |
| TypeCopy.ReachedIsLeast | proto/ext_tool/extractor.go:1193-1249 | the external types reached by references, from the original package through known messages, are within every set closed under such references |
| TypeCopy.CopyIsSound | proto/ext_tool/extractor.go:1211-1249 | copying one type keeps originals, gives only new and distinct short names, records the type for its name, copies it if it is known, under the package's label, and stays within the types reached from the original package |
| TypeCopy.CopyNeeded | proto/ext_tool/extractor.go:1209-1249 | whatever the visiting order, every needed type has a local name afterwards |
| TypeCopy.CopyRound | proto/ext_tool/extractor.go:1193-1255 | a round names every missing type and adds names only for types that were missing; one that copies nothing leaves the package closed |
| TypeCopy.NextFrontier | proto/ext_tool/extractor.go:1191-1264 | every name added by the n-th round is that of a type n references away from the package, along types with different short names |
| TypeCopy.CopyAllExternalTypes | proto/ext_tool/extractor.go:1149-1268 | originals are kept; added messages and enums are true copies of known reached types under distinct short names that no original type has; added names are recorded for types of other packages than this, the empty one and Google's; leaving by the no-new-copies exit means that every reference to such a type has a local name, leaving by the cap means at least 21 copies and a chain of 21 references to types with different short names |
| TypeNames.ClosedIsSelfContained | proto/ext_tool/extractor.go:1496-1513 | in a closed package every field and method type is written without a package or with one of Google's, and an external type with its short name, from the top or relative to its message |
| TypeNames.UnresolvedIsLastPart | proto/ext_tool/extractor.go:457-467 | a reference that does not resolve is written as what follows the last dot of its trimmed name |
| TypeNames.KeptIff | proto/ext_tool/extractor.go:1496-1513 | when one reference is written rightly, by whether its type is external, of the package, of the empty package or of Google's |
| TypeNames.KeepsExternalsIff | proto/ext_tool/extractor.go:1217-1249 | in a closed result every short name of an external type is recorded for that type iff the short names of the types reached from the original package are all different and different from those of the package's own types |
| TypeNames.KeepsTypesIff | proto/ext_tool/extractor.go:1730-1761 | every reference of a closed result, to whatever package, is written so that it means the type it resolves to iff the input has no confusion of names: among reached external types and originals, of Google's or empty-package types with those, of nested Google types with the message, of own types that were not extracted with reached ones |
| TypeNames.SecondTypeIsLost | proto/ext_tool/extractor.go:1217-1249 | a package that refers to b.X and c.X: only b.X has the name, and both references are written X |
| TypeNames.GoogleTypeIsLost | proto/ext_tool/extractor.go:1752-1757 | a package that refers to b.Timestamp and google.protobuf.Timestamp: external names do not clash, yet Google's type is written Timestamp, which means the copy |
| TypeNames.OwnTypeIsLost | proto/ext_tool/extractor.go:1746-1749 | the same for a type of the package that was not extracted |
| TypeNames.NestedGoogleTypeIsLost | proto/ext_tool/extractor.go:1740-1744 | a nested type of Google's in a message of the same name is written relative to that message |
| TypeNames.LocalNameIsDefined | proto/ext_tool/extractor.go:1217-1249 | when the name written for an external type is defined in the package, in terms of which reached types of that name are known; without clashes iff the type is known |
| TypeNames.DirectTypesDecide | proto/ext_tool/extractor.go:1191-1249 | for a name of types that the original package refers to itself: defined if those are all known, and if none is, only if it was there from the start, whatever else is reached |
| TypeNames.KnownTypeIsUndefined | proto/ext_tool/extractor.go:1243-1248 | with b.X unknown and visited first, the known c.X is not copied and nothing is named X |
| UsageLedger.UsageDb.constructor | submodules/copilot-for-cursor/usage-db.ts:65-73 | the empty ledger |
| UsageLedger.UsageDb.GetNextRequestId | submodules/copilot-for-cursor/usage-db.ts:120-123 | ids count up by one |
| UsageLedger.UsageDb.FindSnapshot | submodules/copilot-for-cursor/usage-db.ts:138-138 | the first snapshot of a date |
| UsageLedger.UsageDb.OpenSnapshot | submodules/copilot-for-cursor/usage-db.ts:137-145 | today's snapshot, created and the oldest shifted out if need be |
| UsageLedger.UsageDb.CountIn | submodules/copilot-for-cursor/usage-db.ts:146-160 | a snapshot with one more request, in total and for its model |
| UsageLedger.UsageDb.AddRequestLog | submodules/copilot-for-cursor/usage-db.ts:125-163 | the whole new ledger after one request |
| UsageLedger.LifetimeIsConserved | submodules/copilot-for-cursor/usage-db.ts:131-150 | in every history each lifetime counter (requests, errors and three kinds of tokens) is the sum of its own quantity over all logs, and what retained and shifted-out snapshots add up to |
| UsageLedger.RecentIsSuffix | submodules/copilot-for-cursor/usage-db.ts:126-129 | recent requests are exactly the last thousand logs, or all |
| UsageLedger.SnapshotsAreSound | submodules/copilot-for-cursor/usage-db.ts:137-160 | dates are distinct, at most ninety are kept, exactly ninety once one was shifted out, and every snapshot counts exactly its logs: each counter, in total and by model |
| UsageLedger.SnapshotsHoldTheDay | submodules/copilot-for-cursor/usage-db.ts:137-150 | in every history and for every date, the logs behind the shifted-out and retained snapshots of that date are exactly the requests made on it, in order |
| UsageLedger.OnlyTodayChanges | submodules/copilot-for-cursor/usage-db.ts:137-150 | a request is counted in the snapshot of its day and in no other |
| UsageLedger.SnapshotEqualsItsModels | submodules/copilot-for-cursor/usage-db.ts:152-160 | a snapshot equals the sum of its per-model counters, in any order, iff none of its models has an inherited name; the difference in requests is their number |
| UsageLedger.InheritedModelIsNotCounted | submodules/copilot-for-cursor/usage-db.ts:152-155 | a request for such a model is counted for the day and for no model |
| UsageLedger.ConstructorIsNotCounted | submodules/copilot-for-cursor/usage-db.ts:152-155 | the same for a first request with the model name constructor |
| UsageLedger.StatsByModel | submodules/copilot-for-cursor/usage-db.ts:168-181 | a row for exactly the models of recent requests without inherited names; each counter is the sum over the model's requests, and the duration their average to the nearest whole number |

## Left out

- Host routing, interception, certificates, windows, tray, front end, packaging and CI: input, output or thin glue.
- Trimming of request ids and log keys: ids and keys are taken as already trimmed.
- Releasing one ticket twice: each caller releases its ticket once, as the only call site does with `defer`.
- Conditions on real time under which an entry is never deleted while its state is in use: the clock of every step is arbitrary here, and exclusion is stated relative to the deletions instead.
- AppendSequence.Tracker.FindState: states the lookup without interleaving; the interleavings of sweep and callers are in AppendProtocol.
- Idempotence of trailing-comma removal: two adjacent commas before a closer need two passes.
- Decoding of the normalised settings and everything after it.
- Serialisation of chunks, ids and time stamps in the stream converter: frames are records of what is serialised.
- Incomplete UTF-8 sequences at chunk borders: chunks are texts as the decoder delivers them, and bytes left in the decoder at the end are lost in the original too.
- Interleaved output items: the refinement is about events of one item after the other.
- RpcClient.Client.Register: request ids are unbounded, so wrap-around after 2^63 calls is not modelled.
- Parsing of response lines, notifications and server requests in the JSON-RPC reader, and the write to the process (it may succeed or fail; that it ends is an assumption of NoCallIsStuck).
- LogWindow.LineWindowWriter.TrimToLastLines: file operations succeed; a failed rewrite can leave the counters out of step in the original.
- Floating-point rounding of the token thresholds and estimates: 0.80, 0.95 and 1.5 are exact.
- The summary request itself: its answer, empty answer or failure is a parameter.
- Regular expressions, field parsing, the type tree and the text of the generated proto files.
- Closure of the copied types when the rounds end by their cap of 21.
- TypeNames.KeepsTypesIff: a written name is read from the top of the generated package; that the proto language looks first into the message around it is not modelled, nor are two types whose full names parse alike.
- Lists of an alias index are kept ascending while they are built instead of being sorted at the end.
- Saving and loading of usage data, and what writing to an inherited property does elsewhere.
