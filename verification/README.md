# Herrscher, verified

Herrscher is a daemon that runs AI agent sessions. This project models the parts of it whose correctness is not visible in any one
function: the concurrent protocols of a session, the ledgers that must agree with a history, and the three layers of its command
language that must undo one another. `dafny verify dfyconfig.toml` checks the whole project.

| file | component |
|---|---|
| `Prelude.dfy` | options, cutting, trimming and joining texts |
| `CommandLine.dfy`, `Registry.dfy` | the argv parser and the registry that finds a command |
| `Operator.dfy`, `RetryCommand.dfy`, `ApproveAllow.dfy` | forwarding a parsed command, printing one for a shell, and the command that must survive forwarding |
| `EventSocket.dfy`, `EventSocketRuns.dfy` | the event socket's two lanes, and every interleaving of publisher and readers |
| `Turns.dfy`, `TurnRuns.dfy`, `TurnSteps.dfy` | one turn of a session, every interleaving of the pump, its queue and those who claim the idle session, and the one as a run of the other |
| `CompactSlot.dfy`, `AutoCompact.dfy` | merged compaction requests, and the latch of automatic compaction |
| `Approvals.dfy`, `ApprovalRuns.dfy` | the approval table, and every interleaving of askers, operators and timeouts |
| `HandoffLimiter.dfy` | the pruned handoff quota against the full history |
| `Sessions.dfy`, `Subtree.dfy`, `Coordinator.dfy`, `SpawnNames.dfy` | authority over sessions, the coordinator's join barrier, and the names of the workers it spawns |
| `LogWriter.dfy` | the rotating log under every failure |
| `Manifest.dfy` | the managed region of the plugin list |
| `BodyBudget.dfy`, `BodyBudgetRuns.dfy` | the shared body budget, alone and interleaved |

Code that changes state in place is a class whose methods are proved against a function of the old state; loops are loops. The
concurrent protocols are state machines whose steps use the functions those methods are proved against where the two share a step: a
read of a body, an admission and a send in the approval table, a token put in a lane, a merge of instructions, the stamp of an event.
An action is one lock region, channel operation or event, `Run` is the state after a schedule, and an action that is not enabled
changes nothing, so that a theorem about `Run(schedule)` is a theorem about every interleaving. Each of these machines, run without
a disturbance, does what the class's methods do (the lemmas called `..IsItsSteps`).

Where the code does not do what its tests, its documentation or its shape suggest, the code is kept, an input shows the difference,
and the exact condition is proved:

- What an operator answers may be stored although the call was denied. It agrees with the decision exactly when it is the answer the
  asker took, or came beside a taken one that allows (`ApprovalRuns.AgreesExactly`); an answer can still be taken exactly while the
  asker waits (`ApprovalRuns.CanStillBeTaken`). Three runs show the ways it goes wrong: the asker took another answer
  (`LateAnswerIsKept`), the wait was over when the answer came (`AnswerAfterTheTimeoutIsKept`), and it was over before the asker
  looked at an answer already there (`AnswerLeftInTheSlotIsKept`).
- Forwarding a parsed input loses values that look like flags, an argument named `json`, a flag whose bare spelling the parser refuses,
  and an operand after a bare flag; it is exact for everything else (`Operator.FlagLikeValueIsLost`, `Operator.ForwardingIsExact`).
- `approve allow` misreads an operand that a scope flag swallowed and that is empty, is `true`, or is lost to the same flag given again
  (`ApproveAllow.TrueIsNoOperandAfterAFlag`, `ApproveAllow.DecodedAsAsked`, `ApproveAllow.ForwardingKeepsDecoding`).
- A module name survives `plugins.go` if and only if quoting leaves every character of it alone (`Manifest.ImportRoundTrip`,
  `Manifest.RemoveUndoesAdd`): not with a tab (`Manifest.TabIsNotReadBack`), nor with a character beyond ASCII that cannot be printed
  (`Manifest.NoBreakSpaceIsNotReadBack`). The compiler reads the right name from the same line (`Manifest.CompilerReadsTheName`).
- A compaction its caller was told is queued may never run (`CompactSlot.AcceptedNeverRuns`); it still can exactly when it already did
  or the pump has not stopped (`CompactSlot.AcceptedRunsUnlessStopped`).
- A bridge keeps a turn, and with it the session's token, as long as it does not do what the pump waits for, whether it is connected
  and silent, was never there (`TurnRuns.NobodyReads`), or hung up before the turn began, since the turn begins by dropping the hangup
  (`TurnRuns.HungUpBeforeItsTurn`, `TurnRuns.StaleHangupIsLost`). Blocked exactly then (`TurnRuns.BlockedExactly`), the pump stays so
  in every continuation in which nothing of that comes (`TurnRuns.StaysLeftToTheBridge`). A hangup after the turn began, or a cancelled
  session, lets it end by its own steps (`TurnRuns.HungUpTurnCanEnd`, `TurnRuns.CancelledTurnCanEnd`).
- An observer of the tap that goes by the kind of a line alone sees one terminal for a turn if and only if the bridge sends no
  lookalike of the daemon's own lines before the reply (`Turns.OneTerminalByKind`); the daemon's own account is not affected.

`RetryCommand.RetryRoundTrip` fails for an empty source, since a shell drops an empty unquoted word. That is the boundary of the
function, not a difference a user can meet: the command answers that the source is missing before it prints anything
(core/host/session_handoff.go:175-176).

## Model

| member | source | states |
|---|---|---|
| CommandLine.Parse | core/cli/registry.go:224-242 | the argv loop reads what `Parsed` says: flags and their values, operands in order, `--json`, and the first error |
| CommandLine.CheckRequired | core/cli/registry.go:266-276 | the first required parameter without an argument |
| CommandLine.TokensKeepShape | core/cli/registry.go:224-264 | whatever the tokens, what was read has only declared names without `=` and operands that are no flags |
| CommandLine.NeverAssigned | core/cli/registry.go:244-264 | a flag-like value, or a value for `json`, can come from no token but its inline spelling |
| CommandLine.UndeclaredIsRefused | core/cli/registry.go:224-249 | a flag no parameter declares refuses the whole line, in either spelling and wherever it stands, unless an earlier token did |
| CommandLine.FlagArgParsesBack | core/cli/registry.go:208-213 | for any value, even empty, quoted or flag-like, and any tail, the spelling chosen by FlagArg parses back to that value, and it is the two tokens older parsers know unless the value looks like a flag |
| Registry.CommandRegistry.Add | core/cli/registry.go:44-58 | a command joins unless its path is empty or taken, and a refusal changes nothing |
| Registry.KeysTellPathsApart | core/cli/registry.go:44-58 | paths of words without a space share a key only if they are the same path |
| Registry.CommandRegistry.Match | core/cli/registry.go:168-185 | finds the command whose path is the longest registered prefix of the argv, and the tokens after it, or that there is none |
| Operator.ArgvOf | core/host/operator.go:44-62 | the loop emits the path, each argument's flag in declared order, the operands and `--json` |
| Operator.ForwardingIsExact | core/host/operator.go:44-62 | for every command and input: parsing the forwarded argv gives the input back if and only if some argv parses to it and no value is flag-like, no argument is named json, every bare flag is one the parser accepts bare, and no operand follows a bare flag |
| Operator.FlagLikeValueIsLost | core/host/operator.go:44-62 | a parsed command line whose forwarded form does not parse back |
| Operator.ParseableIsTheRange | core/cli/registry.go:224-264 | the inputs of the round trip are exactly those the parser can produce |
| Operator.ForwardedReachesItsCommand | core/host/operator.go:23-42 | the other side's registry runs the same command on the same input if and only if forwarding is exact and no longer registered path opens the argv |
| RetryCommand.QuotedReads | core/host/session_handoff.go:282-287 | a POSIX shell (sections 2.2 and 2.3 of the Shell Command Language, IEEE Std 1003.1) reads a quoted value back as it is, whatever it contains, except that an empty one vanishes |
| RetryCommand.BareExactly | core/host/session_handoff.go:282-287 | a value is printed without quotes if and only if it has only letters, digits and `._/:=+-` |
| RetryCommand.Print | core/host/session_handoff.go:263-280 | the loops print the command `Printed` describes |
| RetryCommand.PrintedWords | core/host/session_handoff.go:263-287 | the printed line splits into program, verb and exactly the intended tokens |
| RetryCommand.RetryRoundTrip | core/host/session_handoff.go:263-287 | splitting the printed line and parsing it gives the source as the name, the six repeated options as they were, an empty account and nothing else, for all values, if and only if the source is not empty |
| ApproveAllow.AllowOperands | core/host/approve_cmd.go:87-117 | two scopes conflict; otherwise the request is the `--id`, else the first operand, else what a scope flag carries, and its absence an error |
| ApproveAllow.LineParsed | core/host/approve_cmd.go:69-85 | what each placement of one operand among scope flags, bare or with `=true`, parses to |
| ApproveAllow.DecodedAsAsked | core/host/approve_cmd.go:87-117 | exactly which placements are decoded as asked, for both spellings of the flags |
| ApproveAllow.TrueIsNoOperandAfterAFlag | core/host/approve_cmd.go:87-117 | a call that is not |
| ApproveAllow.ForwardingKeepsDecoding | core/host/approve_cmd.go:87-117 | exactly when forwarding keeps the parsed input, and exactly when it keeps the decoding although the input changes |
| EventSocket.Subscriber.EnqueuePriority | core/host/eventsocket.go:82-96 | the line joins the priority list and a wake token is left in the channel, at the cost of at most one token, never blocking |
| EventSocket.Subscriber.Next | core/host/eventsocket.go:98-118 | the first coordination line, or else the first ordinary one past any wake tokens, and false only when closed and drained |
| EventSocket.Socket.Publish | core/host/eventsocket.go:129-155 | every subscriber with room gets the ordinary line at the end of its channel and a full one is left alone; a coordination line joins every list and leaves a wake token |
| EventSocket.Socket.Remove | core/host/eventsocket.go:120-127 | a subscriber is closed once |
| EventSocket.Socket.CloseAll | core/host/eventsocket.go:157-165 | all are closed and nobody may join |
| EventSocketRuns.RunKeeps | core/host/eventsocket.go:82-165 | the two-lane invariant after every interleaving |
| EventSocketRuns.CoordinationIsLossless | core/host/eventsocket.go:82-118 | coordination lines returned and queued are those published, in order |
| EventSocketRuns.NoLostWakeup | core/host/eventsocket.go:98-118 | a reader that has to wait has no coordination line, or a publisher is about to wake it |
| EventSocketRuns.EndedMeansDelivered | core/host/eventsocket.go:98-118 | `next` answers false only when closed and after every coordination line was returned |
| EventSocketRuns.PlainLinesInOrder | core/host/eventsocket.go:129-155 | ordinary lines arrive as a subsequence of those published |
| EventSocketRuns.PlainLinesAreAccountedFor | core/host/eventsocket.go:82-155 | every ordinary line published was returned, is in the channel or was dropped; with none dropped all arrive in order, and none of the first 256 lines is |
| EventSocketRuns.DroppedExactly | core/host/eventsocket.go:82-155 | a line is dropped if and only if it finds the channel full or is the oldest token when a full channel has to take a wake token |
| EventSocketRuns.SendsAreSafe | core/host/eventsocket.go:82-165 | no channel overflows and none is sent to after it was closed |
| EventSocketRuns.PublishNeverBlocks | core/host/eventsocket.go:82-96 | the publisher always has an enabled step, the unconditional wake included |
| EventSocketRuns.PublishCanComplete | core/host/eventsocket.go:129-155 | a Publish can complete by its own steps alone, within a bound, although no reader takes anything |
| EventSocketRuns.EnqueueIsItsSteps | core/host/eventsocket.go:82-96 | undisturbed, the steps of a publish to one subscriber are `enqueuePriority` |
| EventSocketRuns.NextIsItsSteps | core/host/eventsocket.go:98-118 | undisturbed, the steps of a reader are `next`, whether it answers, ends or blocks |
| Turns.TokenGuard.Check | core/host/turnloop.go:45-55 | the guard trips on the event whose tokens, negative counts left out, reach the headroom, and is cut from then on |
| Turns.TripsAtTheFirstOver | core/host/turnloop.go:45-55 | a capped turn is interrupted at exactly the first event over its headroom |
| Turns.RelayedExactly | core/host/turnloop.go:707-735 | every unfinished event is passed on once, in order, and the ceiling notice stands right after the first one over the headroom of a capped turn |
| Turns.Driver.ClaimIdle | core/host/turnloop.go:403-412 | a claim succeeds exactly when nothing is queued and the token is free |
| Turns.Driver.FanOut | core/host/turnloop.go:945-964 | the stamp overwrites whatever identity an event came with |
| Turns.Driver.PrepareTurn | core/host/turnloop.go:624-652 | the gate's three outcomes; an admitted input gets the turn id it came with, or the fresh one if it came with none |
| Turns.Driver.AwaitTurn | core/host/turnloop.go:707-735 | relays up to the first finished reply or the end of the feed, and takes the last positive prompt size before the reply, or else the reply's own, as the reading |
| Turns.Driver.CompleteTurn | core/host/turnloop.go:737-766 | the reading, the coordination notice, the reply and the pause, in that order |
| Turns.Driver.TakeItem | core/host/turnloop.go:562-590 | a whole round of the pump: every event of an admitted input's turn bears its own turn id, agent and incarnation and is shown where it may be; an observer sees one human line and one terminal, and neither for a refused input; the reading is that of the turn; token and identity are left free |
| Turns.OneHumanOneTerminal | core/host/turnloop.go:562-766 | whatever the bridge sends, a turn is one human line of the daemon's own and then exactly one terminal, a finished reply or the daemon's `abandoned`; lines count by who said them |
| Turns.OneTerminalByKind | core/host/turnloop.go:562-766 | counted by kind alone the same holds if and only if no line the bridge sent before the reply is a `human` or an `abandoned`, or the turn did not reach the bridge |
| Turns.LoggedTurnIsClosed | core/host/turnloop.go:562-766 | the same of the stamped log, with the compaction that may follow the turn |
| TurnRuns.RunKeeps | core/host/turnloop.go:562-652 | the session's invariant after every interleaving |
| TurnRuns.OneHumanThenOneTerminal | core/host/turnloop.go:562-766 | over whole runs every input that passed the gate has one human line and then one terminal, a refused one neither |
| TurnRuns.RuledOnce | core/host/turnloop.go:624-652 | the gate rules once on every input taken from the queue, unless the pump stops with it |
| TurnRuns.OneHolder | core/host/turnloop.go:403-412 | while somebody rewinds or undoes, nobody else holds the token, no turn is in progress and the session is not running |
| TurnRuns.GivingBackNeverWaits | core/host/turnloop.go:611-618 | the receive that gives the token back always finds it; running implies the pump has it |
| TurnRuns.AllOrNoIdentity | core/host/turnloop.go:945-964 | every event carries the whole identity of the input in progress, its own turn id if it came with one, or none of it, and is shown where that input may be shown |
| TurnRuns.BlockedExactly | core/host/turnloop.go:654-735 | a pump with the token has no step of its own if and only if it offers the bridge something it does not take, or waits for something it does not send, with no hangup pending, no cancellation and no closed feed |
| TurnRuns.UnblockedExactly | core/host/turnloop.go:668-735 | exactly what ends such a wait |
| TurnRuns.StaysLeftToTheBridge | core/host/turnloop.go:668-735 | over whole runs: a pump so blocked stays where it is, with the token and still blocked, through any continuation without such an event |
| TurnRuns.StaleHangupIsLost | core/host/turnloop.go:654-665 | a turn begins blocked, whether a hangup was pending or not, if and only if nobody reads and the session is not cancelled |
| TurnRuns.NobodyReads | core/host/turnloop.go:654-679 | a run whose turn finds no bridge and keeps the token through any continuation in which none reads, hangs up or is cancelled |
| TurnRuns.HungUpBeforeItsTurn | core/host/turnloop.go:654-679 | the same after a hangup that came before the turn began |
| TurnRuns.LeavesTheBridge | core/host/turnloop.go:668-735 | while a hangup is pending, or after a cancellation, every wait for the bridge, in a turn or a compaction, can be left by a step of the pump's own that brings the end nearer |
| TurnRuns.HungUpTurnCanEnd | core/host/turnloop.go:654-735 | a hangup that comes once the turn, or the compaction, waits for the bridge lets it end by the pump's own steps alone, within a bound |
| TurnRuns.CancelledTurnCanEnd | core/host/turnloop.go:562-735 | once cancelled, a turn or compaction can end by the pump's own steps alone, within a bound |
| TurnRuns.QueueIsBounded | core/host/turnloop.go:214-221 | the queue never exceeds its capacity |
| TurnSteps.RoundIsItsSteps | core/host/turnloop.go:562-766 | in any run an idle pump can make the very turn of `TakeItem`: the same lines with the same stamps, then token and identity given back |
| TurnSteps.RefusalIsItsSteps | core/host/turnloop.go:562-640 | the same of an input the gate refuses |
| CompactSlot.Slot.Register | core/host/compaction.go:446-459 | a caller joins the waiting request, replacing its instruction with a non-empty one, or becomes it |
| CompactSlot.Slot.Conclude | core/host/compaction.go:460-476 | a request whose item was not sent is cleared if it still waits, and everybody is told |
| CompactSlot.Slot.Take | core/host/compaction.go:478-487 | taking empties the slot and answers its instruction |
| CompactSlot.RunKeeps | core/host/compaction.go:446-487 | the slot's invariant after every interleaving of callers, queue and pump |
| CompactSlot.OneOnTheWay | core/host/compaction.go:446-487 | at most one compact_now is queued or not yet taken |
| CompactSlot.TakeFindsItsRequest | core/host/compaction.go:478-487 | the pump finds in the slot the very request whose item it took |
| CompactSlot.AnswersAreExact | core/host/compaction.go:446-468 | an accepted caller's request has exactly one item, on its way or taken; a refused one's has none |
| CompactSlot.MergedAnswersAgree | core/host/compaction.go:448-455 | those who joined one request hear one answer |
| CompactSlot.OneDidNotMerge | core/host/compaction.go:446-468 | of all who asked for one compaction exactly one is told that it did not merge, once it was answered |
| CompactSlot.MergedCallersAreAnswered | core/host/compaction.go:448-468 | a merged caller waits only for the one it joined, which can always answer, whatever the queue and the pump do |
| CompactSlot.MergedCallerGetsAnswer | core/host/compaction.go:448-468 | over runs: any waiting caller can be answered within three steps of the one whose request it is and one of its own |
| CompactSlot.LastInstructionIsUsed | core/host/compaction.go:446-487 | a compaction uses the last non-empty instruction its request was ever given, or none if there was none |
| CompactSlot.AcceptedRunsUnlessStopped | core/host/turnloop.go:562-577 | an accepted compaction can still run if and only if it already did or the pump has not stopped |
| CompactSlot.AcceptedNeverRuns | core/host/turnloop.go:562-577 | a run in which a caller is told that its compaction is queued and it never runs |
| CompactSlot.AcceptedThenStopped | core/host/compaction.go:446-468 | who joins such a request after the stop is told the same, and its item stays on the way |
| CompactSlot.QueueIsBounded | core/host/turnloop.go:214-221 | the queue never exceeds its capacity |
| CompactSlot.RequestIsItsSteps | core/host/compaction.go:446-476 | undisturbed, a request does what `requestCompaction` does: queued with room, cleared and refused without, merged when one waits |
| AutoCompact.Driver.MaybeAutoCompact | core/host/compaction.go:225-246 | starts if and only if a percentage is set, the reading is known and at least that share of the limit, and the latch is open; what reading and latch are afterwards |
| AutoCompact.Driver.SettleCompaction | core/host/compaction.go:407-413 | a result without a figure leaves the session as ready to compact as it was; a measured one leaves it ready exactly when it is below the threshold then in force |
| AutoCompact.StartsFromTheThreshold | core/host/compaction.go:221-246 | with an open latch a reading starts a compaction exactly from the rounded-up share of the limit on, which lies within the limit |
| AutoCompact.SpentIsLatched | core/host/compaction.go:221-246 | the stored bit says what the history says: something exhausted the room and nothing measured below the threshold since |
| AutoCompact.StartsExactly | core/host/compaction.go:225-246 | exactly when a check starts a compaction |
| AutoCompact.MeasuredBelowBeforeTheNextStart | core/host/compaction.go:225-246 | between a compaction that exhausted the room and the next automatic one there is a measurement below the threshold then in force |
| Approvals.ApprovalTable.Register | core/host/approve.go:207-228 | forty waiting requests refuse any other, eight of a session another of it, nothing else refuses, and a refusal changes nothing |
| Approvals.ApprovalTable.Settle | core/host/approve.go:237-282 | the answer fills an empty slot, and only a delivered allowing answer stores a grant or a rule |
| Approvals.ParsePick | core/host/approve.go:343-364 | the loops over the scopes read a picked value as `Picked` says |
| Approvals.PickedExactly | core/host/approve.go:343-372 | what is picked is exactly what the value spells: a request without a colon, the word of a scope, and a reason as the agent is told it |
| Approvals.RefusalText | core/host/approve.go:366-372 | a blank reason is none, and any other is told without the blanks around it |
| Approvals.ChoicePicksItself | core/host/approve.go:343-364 | a choice offered for a request is read back as that request and scope if and only if its identifier has no colon |
| ApprovalRuns.RunKeeps | core/host/approve.go:164-282 | the table's invariant after every interleaving |
| ApprovalRuns.WaitingIsBounded | core/host/approve.go:207-228 | the two limits over whole runs |
| ApprovalRuns.AllowedByTheFirstAnswer | core/host/approve.go:164-198 | a wait ends in allow if and only if the first answer ended it and allows |
| ApprovalRuns.OnlyAllowsAreKept | core/host/approve.go:237-282 | what is stored was accepted and allows for the session or always |
| ApprovalRuns.SecondAnswerAfterTheFirstIsTaken | core/host/approve.go:237-253 | at most two answers are ever accepted, and when two |
| ApprovalRuns.AcceptedBesideTheFirst | core/host/approve.go:237-253 | the guard under which a second answer is accepted |
| ApprovalRuns.AgreesExactly | core/host/approve.go:164-282 | exactly when an accepted lasting answer agrees with the decision the asker returned |
| ApprovalRuns.CanStillBeTaken | core/host/approve.go:164-253 | the guard at delivery: an answer can become the one taken if and only if the asker still waits |
| ApprovalRuns.LateAnswerIsKept | core/host/approve.go:237-282 | a run in which the second answer writes a rule, whatever the asker took first, a refusal included |
| ApprovalRuns.AnswerAfterTheTimeoutIsKept | core/host/approve.go:180-282 | a run in which the only answer comes after the wait timed out and writes a rule |
| ApprovalRuns.AnswerLeftInTheSlotIsKept | core/host/approve.go:180-282 | a run in which the wait times out over an answer that waits in the slot, which writes a rule |
| ApprovalRuns.SettleIsItsSteps | core/host/approve.go:237-282 | undisturbed, the steps of an answer are those of the table's method: an empty slot is filled, and only then a lasting answer is kept |
| HandoffLimiter.Limiter.Acquire | core/host/session_handoff.go:68-86 | the pruned lists answer as the full grant history does: busy if and only if a grant is not released, over the quota if and only if, besides, three grants lie within the last hour, granted otherwise |
| HandoffLimiter.Limiter.ForgetIdle | core/host/session_handoff.go:88-99 | exactly the grants an hour old or older go, and with the last of them their tree |
| HandoffLimiter.PruningNeedsMonotoneClock | core/host/session_handoff.go:88-99 | pruning early never changes a later answer if and only if the clock does not run backwards |
| HandoffLimiter.AtMostThreeAnHour | core/host/session_handoff.go:68-86 | any window of an hour holds at most three grants |
| HandoffLimiter.LimiterKeepsItsQuota | core/host/session_handoff.go:57-99 | over a limiter's life: one handoff in flight, three grants in any hour, an hour from each grant to the third after it, three instants stored |
| Subtree.InSubtree | core/host/authz.go:168-193 | true if and only if equal or joined by a chain in which each name is the non-empty parent of the last session of the name before it, for any sessions |
| Subtree.AuthorityComesFromAbove | core/host/authz.go:168-193 | whoever speaks for a session with a parent is itself or speaks for the parent; without one only itself does |
| Subtree.ShortestChainIsShort | core/host/authz.go:180-192 | an ancestor not met within as many links as there are sessions is never met, cycles or not |
| Subtree.NamesBelowCount | core/host/authz.go:180-192 | below the first meeting all names differ and have a parent |
| Coordinator.MapsAreHistory | core/host/coordinator.go:232-239 | the two maps hold exactly the standing reports and cohort sizes of the history |
| Coordinator.FindByName | core/host/coordinator.go:115-123 | the first session of a name, or that there is none |
| Coordinator.ChildCount | core/host/coordinator.go:125-133 | how many sessions name this one as their parent |
| Coordinator.Coordinator.Report | core/host/coordinator.go:212-261 | each refusal in order, what is recorded, and the note for the lead |
| Coordinator.Coordinator.Seal | core/host/coordinator.go:311-327 | each refusal, and the size recorded otherwise |
| Coordinator.Launch | core/host/coordinator.go:329-351 | launching touches no shared state: each refusal in order, the workers spawned before the first failure, and the children counted when it began |
| Coordinator.LaunchedInOrder | core/host/coordinator.go:329-358 | the spawned workers are the first tasks' in order, and the first missing one failed |
| Coordinator.Coordinator.Resize | core/host/coordinator.go:352-356 | the one lock region: whatever was reported or forgotten meanwhile stays as it is |
| Coordinator.Coordinator.FanOut | core/host/coordinator.go:329-358 | an undisturbed fan-out expects the children there were and those spawned before the first failure |
| Coordinator.Coordinator.Forget | core/host/coordinator.go:383-394 | deletion while ranging leaves exactly the history with the session forgotten |
| Coordinator.Coordinator.CoordinationView | core/host/coordinator.go:94-113 | who is shown as a lead, a worker, or neither |
| Coordinator.BarrierIsHistory | core/host/coordinator.go:94-113 | complete if and only if the standing size is positive and reached by distinct workers whose reports stand |
| Coordinator.ShownAsLead | core/host/coordinator.go:94-105 | shown as a lead if and only if a report to it or a size of it stands |
| Coordinator.ForgottenIsGone | core/host/coordinator.go:383-394 | forgetting leaves no trace of the session and every other report as it was |
| SpawnNames.FreeName | core/host/coordinator.go:148-163 | the first of a hundred candidates whose branch does not exist, or why there is none |
| SpawnNames.DecimalSays | core/host/coordinator.go:161 | the number in a candidate is written in decimal, without a leading zero |
| SpawnNames.FewerThanAHundredLeaveAName | core/host/coordinator.go:148-163 | names run out only among a hundred existing branches, since no candidate is tried twice |
| LogWriter.RotatingWriter.Write | client_log_writer.go:46-70 | the exact count under every outcome, termination, and when it stalls; while no file operation fails and nobody else writes, everything is written, and after a rotation that left no usable handle one write is refused and the next goes on |
| LogWriter.RotatingWriter.Rotate | client_log_writer.go:72-83 | a failed rotation loses no byte and leaves a state from which the next write rotates again |
| LogWriter.OpenRotatingWriter | client_log_writer.go:22-44 | succeeds if and only if the limit is positive and the file opens |
| LogWriter.LogKeepsTheTail | client_log_writer.go:46-83 | over any writes and failures the two files are a suffix of the initial contents and all bytes reported as written |
| LogWriter.LogStaysSmall | client_log_writer.go:46-70 | no write grows the current file past the limit |
| Manifest.Region | manage/manifest.go:108-132 | finds the region exactly when there is one, and says why not |
| Manifest.MarkersMayBeIndented | manage/manifest.go:108-132 | a marker is one whatever blanks stand around it |
| Manifest.ListPlugins | manage/manifest.go:32-44 | the modules of the region |
| Manifest.AddPlugin | manage/manifest.go:46-66 | succeeds exactly on a text with a region, which is the only one, answers the text `Added` describes, and leaves a text that lists the module alone |
| Manifest.RemovePlugin | manage/manifest.go:68-92 | the text `Removed` describes |
| Manifest.SetPlugins | manage/manifest.go:94-106 | the text `SetTo` describes |
| Manifest.ImportRoundTrip | manage/manifest.go:22-30 | whatever can be printed beyond ASCII, a module is read back from its import line if and only if quoting leaves each of its characters alone |
| Manifest.OrdinaryNameIsReadBack | manage/manifest.go:22-30 | a name of letters, digits and `./-_~` is read back |
| Manifest.TabIsNotReadBack | manage/manifest.go:22-30 | a name that quoting changes |
| Manifest.NoBreakSpaceIsNotReadBack | manage/manifest.go:22-30 | another, where a no-break space cannot be printed |
| Manifest.CompilerReadsTheName | manage/manifest.go:22 | whatever the name, the written literal means that name to a Go compiler (The Go Programming Language Specification, sections "Rune literals" and "String literals") |
| Manifest.HandWrittenIsRead | manage/manifest.go:24-30 | an import is read whatever blanks stand around and inside it |
| Manifest.RebuiltRegion | manage/manifest.go:22-132 | replacing the inside of a region leaves a text with that region and the same other lines |
| Manifest.AddAppends | manage/manifest.go:46-66 | no line outside the region changes, and listing after adding appends the module if and only if quoting leaves it alone |
| Manifest.RemoveUndoesAdd | manage/manifest.go:46-92 | removing what was just added gives the source back exactly if and only if quoting leaves the module alone |
| Manifest.RemovalIsLineByLine | manage/manifest.go:68-92 | only imports of the module go, every other line stays where it is |
| Manifest.RemoveKeepsOthers | manage/manifest.go:68-92 | the other modules stay in order, and an absent one changes nothing |
| Manifest.LastSetWins | manage/manifest.go:94-106 | the last setting wins, and listing after setting gives the modules if and only if quoting leaves each of them alone |
| BodyBudget.Budget.Take | core/keyproxy/budget.go:20-28 | all of the bytes or none |
| BodyBudget.BudgetedReader.Read | core/keyproxy/budget.go:42-52 | what is returned is taken, and what does not fit is not returned |
| BodyBudget.BufferBody | core/keyproxy/budget.go:54-69 | exactly when a body is buffered, what is held and given back, and that each refusal is right |
| BodyBudget.ReadsWhole | core/keyproxy/budget.go:54-69 | reading chunk by chunk is reading the body as a whole |
| BodyBudgetRuns.UsedIsHeld | core/keyproxy/budget.go:20-69 | in every interleaving the budget used is what the calls hold, and within the limit |
| BodyBudgetRuns.AnswersAreRight | core/keyproxy/budget.go:54-69 | whatever the other calls do, an answered body is the whole body within its limit and reported with its length, and a refusal as too large or broken is right |
| BodyBudgetRuns.NothingLeaks | core/keyproxy/budget.go:54-69 | once every call ended the whole budget is free |
| BodyBudgetRuns.RefusedOnlyWhenFull | core/keyproxy/budget.go:20-28 | a take is refused only when the other calls leave too little |
| BodyBudgetRuns.CallIsItsSteps | core/keyproxy/budget.go:42-69 | in any run, a call that goes on undisturbed is answered if and only if its body ends cleanly within its own limit and what the others leave |

## Left out

- Gateways, sockets, gRPC, ssh, subprocesses, file locks, git and journals: foreign input and output. A property that depends on one
  takes its outcome as a parameter or leaves it open.
- Texts shown to people, translations, usage and help: tables without state.
- JSON, `contracts.RunCompactStack` and the other `contracts` functions: their source is not part of this model. What compacting says is
  a parameter, restricted to status and compaction events.
- `approval.Policy`, `authz.Decide` and session state: abstract; the models begin after their answer.
- The terminal of a turn is its last word to the tap; that gateways drop events of inputs from elsewhere is the `shown` flag, and how a
  gateway renders an event is not modelled.
- `Interrupt` and the five-second grace at the end of a session: best effort by the clock. Gateways, coordinator calls and
  compaction plugins of the host are taken to return; only the bridge may keep a turn waiting.
- `SeedAndWait` with several waiters, and the one-shot seed that stamps one event after its pump ended.
- Integers are unbounded where the source counts bytes, tokens and instants in 64 bits.
- Texts are sequences of characters: no encoding, and no NUL, which no argv can carry. Which characters beyond ASCII can be printed
  (`strconv.IsPrint`) is a parameter of the manifest's operations and laws.
- Approval identifiers are new, the clock of the handoff limiter is monotone in lock order, and a handoff's release is called once, as
  the callers see to.
- Creating, seeding and rolling back of workers: a spawn's outcome is a parameter of `FanOut`.
- Coordinator.Coordinator.FanOut: is the undisturbed call; `Launch` and `Resize` are its two phases, between which other calls may come.
- LogWriter.RotatingWriter.Write: says nothing of the files' contents once somebody else put bytes at the log's path between a rename and
  the next open, which the writer cannot see; `foreign` records those bytes.
- Turns.Driver.EnterTurn: requires the token to be free, which is the moment the original's `select` proceeds; the waiting itself is in
  `TurnRuns`.
- EventSocket.Subscriber.Next: answers `Waiting` where the original blocks; the blocking is in `EventSocketRuns`.
