# buildg: the control protocol of the Dockerfile debugger, modelled and proved in Dafny

buildg runs a concurrent BuildKit solve and lets one interactive debugger stop, inspect and resume
it. This project models the hand-written protocol between the two and the bookkeeping it rests on,
and proves what it promises over whole runs. Check everything with `dafny verify dfyconfig.toml`.

| file | what it models |
|---|---|
| `Rendezvous.dfy` | finished ops pausing for the serial handler (`notifyAndWait`, `handle`, `wait`, `continueID`), as a step system over all interleavings and cancellations |
| `RendezvousRuns.dfy` | the rendezvous read off a run: the log and every return, from the steps alone; no op waits for ever |
| `Session.dfy` | the handler, the shell, the serial event loop and the reload recursion, as classes proved against functions |
| `SessionSpec.dfy` | what whole sessions look like, from the history of events and typed commands only |
| `Commands.dfy` | what each typed command does to later hits, how prompts read their script, where the build prompts next |
| `Breakpoints.dfy` | breakpoint kinds, the registry with automatic keys, ordered iteration, hits |
| `Sources.dfy` | the reference-counted source table and the location lookup |
| `SharedReader.dfy` | stdin shared by the prompt and `exec`, as a step system |
| `SharedReaderRuns.dfy` | the shared stdin read off a run: whose pipe is open, what was read and what arrived; nobody waits for ever |
| `PromptLines.dfy` | which input lines the prompts see, on top of the shared stdin |
| `Progress.dfy` | build output held back while a prompt is open; the ring buffer of `log -n` |
| `Listing.dfy` | the source listing, and its agreement with breakpoint hits |
| `Mounts.dfy` | from op results to ids to container mounts, and the cleanup stack |
| `Dap.dfy` | SetBreakpoints, the ids of a stop, paged Variables |
| `Handshake.dfy` | the DAP channel handshakes of one launch, as a step system |
| `HandshakeRuns.dfy` | the handshake read off a run: its stops, messages and requests, from the client's steps alone; every stop can be ended |
| `EarlyResume.dfy` | when a DAP stop lasts until the client answers it |
| `Launches.dfy` | launch requests that overlap, and when they amount to one launch |
| `Text.dfy`, `Common.dfy` | decimal text, integer parsing, string order; `Option`, `Result` and bytes |

How to read it. Code that runs concurrently is a function `Next(state, step)` that is `None` when
the step is not enabled; `Run` plays a list of steps, and a theorem about "every run" quantifies
over all such lists. Code that updates objects is a class whose methods are proved against a value
function of the old state; the lemmas are about those functions. The modules named `...Runs` tie the
state to the run once more: they define what is to be seen of a run by recursion on its list of steps,
without `Next`, and prove that the state agrees.

Results worth knowing before reading the code:

- **Prompts.** The code decides with three flags in three objects of different lifetimes. The
  declarative rule `SessionSpec.ShouldPrompt` uses none of them: an event prompts iff it has a
  location and it is the first such event of the build (when stopping on entry), or the last prompt
  of the build ended with `next`, or some breakpoint hits and, if the last prompt ended with
  `continue KEY`, KEY is among the hits.
- **`continue KEY` hides everything else.** Until KEY is hit no other breakpoint prompts, `on-fail`
  included; if KEY is never hit the build runs to its end.
- **`pause` need not drain.** At any moment it holds exactly the events on offer, the one being
  handled, and the abandoned ones: those whose waiter gave up before delivery and those whose handler
  failed (`Rendezvous.PauseIsExact`). Abandoned entries stay for ever. Once nothing waits and nothing
  is handled, `pause` is empty iff every event was delivered and no handler failed
  (`Rendezvous.PauseDrainsIff`; `CancelledWaiterLeavesEntry` and `FailedHandlerLeavesEntry` are runs
  where it is not).
- **Nothing gets stuck for good.** From every reachable state an op that waits can still be released
  iff its own handler did not fail (`RendezvousRuns.EveryOpCanReturn`), the stop at hand of a DAP
  session can be ended (`HandshakeRuns.EveryStopCanEnd`), and stdin can be read on and left
  (`SharedReaderRuns.ReaderGoesOn`, `SharedReaderRuns.UserCanLeave`).
- **`exec` can index out of range.** After a failure that is no `ExecError` both id lists are empty,
  so `exec` on a RUN step with mounts is out of bounds. `Mounts.ObserveAndExec` gives the exact
  condition for every outcome and both settings of `--init-state`; `Mounts.PlainFailureCrashesExec`
  is such a call.
- **Lines piped into a prompt can be lost.** Every prompt scans its own share of stdin and drops what
  follows the first line. When all input reaches prompts, they see all its lines iff no prompt was
  sent more than one (`PromptLines.PromptsSeeEveryLineIff`); two lines in one write already lose the
  second (`PromptLines.PipedLinesAreLost`).
- **A reload can be ignored.** When the build has returned, with or without an error, before the
  prompt says `reload`, nobody listens to the handler any more and the session ends with the build's
  result (`Session.Debugger.Debug`, `SessionSpec.SessionAccounting`).
- **Negative list windows hide the current step.** With `-A` or `-B` below zero, `list` can leave
  out the lines it should point at, and only then (`Listing.CoveredLinesAreShown`).
- **A DAP stop caused by `on-fail` alone is reported with reason `step`**
  (`Dap.ReasonIsBreakpointIffLineHit`).
- **A DAP stop can end before the client answers it.** A resume request that passed its check while no
  stop was waiting for one ends the next stop. In every reachable state, without another request being
  accepted, this can happen iff it already did or a request is waiting in the channel other than a
  single one accepted for the stop at hand (`EarlyResume.EndsEarlyIff`); two quick `continue` requests
  for one stop suffice (`EarlyResume.TwoRequestsEndNextStop`).
- **A DAP answer can be lost.** The stop is reported before its context is stored. Once a stop is
  reported, a request is ignored iff it is checked before the first stop has stored its context
  (`EarlyResume.AnswerIsLostIff`). A client that sends one request at most per StoppedEvent never ends
  a stop early. When it has answered all stops and all its requests are checked, the stop at hand can
  be ended iff no answer was lost; after a lost one its build never leaves the first stop
  (`EarlyResume.OneAnswerClient`). `EarlyResume.FirstAnswerCanBeLost` is a run where that happens.
- **Overlapping launches can both be answered.** The guard is checked before the configuration it looks
  at is stored. There is one LaunchResponse at most iff no second launch passes the guard before the
  first is stored (`Launches.SingleResponseIff`), and then every run is a run of the handshake of one
  launch (`Launches.SingleLaunchIsHandshake`). `Launches.TwoLaunchesAnswered` is the other case.
- **`SetBreakpoints` replaces the breakpoints of every source**, not only of the source it names:
  after a request for another source the lines of an earlier one are kept iff there were none
  (`Dap.SetTwice`). The Debug Adapter Protocol describes the request as being per source; the model
  follows the code.
- **`break NUMBER` may mean either of two files.** It is documented as a line of the Dockerfile, and
  the code takes it as a line of the file of the event's first location. Locations are collected in map
  order, so with several sources that file is fixed iff all sources that have the vertex agree on it
  (`Sources.FirstFileIsFixedIff`).

## Model

| member | source | states |
|---|---|---|
| Rendezvous.DebugController.WaitFor | pkg/buildkit/controller.go:110-116 | registers a new open channel under the id; live channels stay distinct and open |
| Rendezvous.DebugController.ContinueID | pkg/buildkit/controller.go:118-125 | closes exactly this id's channel, which is never already closed, and removes the entry |
| Rendezvous.StepKeepsInv | pkg/buildkit/controller.go:40-67 | every step of every interleaving keeps the rendezvous invariant |
| Rendezvous.ReachableIsSafe | pkg/buildkit/controller.go:40-67 | in every reachable state no channel is closed twice, live channels are distinct and open, at most one loop runs, a handled id is still in `pause`, and `pause` holds exactly the events registered and not finished |
| Rendezvous.WokenAfterOwnEvent | pkg/buildkit/controller.go:227-258 | a waiter that wakes does so for its own event, after that event was taken and then finished |
| Rendezvous.NilReturnIsFinished | pkg/buildkit/controller.go:252-257 | `notifyAndWait` returns nil only if its event was finished |
| RendezvousRuns.LogIsTheSteps | pkg/buildkit/controller.go:40-67 | in every run the log is what the steps say: a taken event is the one its waiter registered, a finished or failed one is the one that loop took last |
| RendezvousRuns.ReturnIsWakeOrCancel | pkg/buildkit/controller.go:227-258 | `notifyAndWait` returns nil iff it was woken and an error iff its context was done, and the log has exactly that entry for it |
| RendezvousRuns.LoopLife | pkg/buildkit/controller.go:40-47 | a loop is over after a handler error or when its context is done; a starting loop listens iff no other is active, and is refused otherwise |
| RendezvousRuns.EveryOpCanReturn | pkg/buildkit/controller.go:48-66 | from every reachable state an op that has not returned can still return nil iff its own handler did not fail |
| Rendezvous.HandlingIsSerial | pkg/buildkit/controller.go:48-66 | across all loops ever started, an event is taken only after every earlier taken event was finished or failed, and no event is taken twice |
| Rendezvous.NoLostWakeup | pkg/buildkit/controller.go:252-257 | a sleeping waiter can wake, or its event is in a handler's hands, or its handler failed |
| Rendezvous.PauseIsExact | pkg/buildkit/controller.go:110-125 | in every reachable state `pause` holds exactly the events on offer, the event being handled, and the abandoned ones |
| Rendezvous.PauseDrainsIff | pkg/buildkit/controller.go:227-258 | when nothing waits and nothing is handled exactly the abandoned entries are left; `pause` is empty iff every event was delivered and no handler failed |
| Rendezvous.AbandonedEntriesStay | pkg/buildkit/controller.go:110-125 | an abandoned entry remains in `pause` in every continuation |
| Rendezvous.CancelledWaiterLeavesEntry | pkg/buildkit/controller.go:238-241 | a run with one cancelled waiter that ends with an entry left behind |
| Rendezvous.FailedHandlerLeavesEntry | pkg/buildkit/controller.go:57-61 | a run with one failed handler that ends with an entry left behind |
| Sources.SourceTable.AddLocationSource | pkg/buildkit/controller.go:69-81 | one more reference for this source, the same for every other |
| Sources.SourceTable.DeleteLocationSource | pkg/buildkit/controller.go:83-92 | one reference less, the same for every other; no entry is left with count zero |
| Sources.DeleteUndoesAdd | pkg/buildkit/controller.go:148-149 | the deferred delete at the end of a Solve undoes the add at its beginning |
| Sources.SourceTable.GetLocation | pkg/buildkit/controller.go:94-108 | all locations of the vertex over all sources, gathered in some order of the map; an error iff there is none |
| Sources.AnyOrder | pkg/buildkit/controller.go:97-103 | the multiset of locations does not depend on the order of the map |
| Sources.FirstFileIsFixedIff | pkg/buildkit/controller.go:97-103 | the first location is of the same file in every order of the map iff all sources that have the vertex agree on that file |
| Sources.LineHitsIffPlaced | pkg/buildkit/controller.go:97-103 | whatever the order of the map, a line breakpoint hits the looked-up locations iff some source in the table places the vertex on that line of that file |
| Sources.TableIsExact | pkg/buildkit/controller.go:145-152 | under every interleaving of Solve calls each count is positive and equals the calls in flight with that source; the table is empty when none is in flight |
| Sources.InFlightIff | pkg/buildkit/controller.go:145-152 | a Solve is in flight with a source iff the last it did was to begin with it |
| Sources.LookupSeesActiveSolves | pkg/buildkit/controller.go:163-170 | a lookup finds a location iff the source of some Solve in flight has it |
| Text.DecimalInjective | pkg/buildkit/breakpoint.go:46-50 | different indices print as different keys |
| Text.ParseDecimal | pkg/dap/debugger.go:199-206 | a printed index parses back to itself exactly up to 64-bit range |
| Text.ParseSigned | break.go:37 | a leading sign is read as one, and the range reaches to -2^63 |
| Text.LessIsBytewise | pkg/buildkit/breakpoint.go:77 | the string order is bytewise: a proper prefix, or smaller at the first difference |
| Text.SortedKeys | pkg/buildkit/breakpoint.go:73-77 | the keys in strictly increasing string order, each once |
| Text.SortedUnique | pkg/buildkit/breakpoint.go:77 | the sorted order of a key set is unique |
| Breakpoints.IsTarget | pkg/buildkit/breakpoint.go:91-133 | on-fail hits iff the op failed; a line breakpoint's hits are collected in order over locations and ranges |
| Breakpoints.LineHitsExact | pkg/buildkit/breakpoint.go:112-133 | the hit locations are exactly the ranges of that file that cover the line |
| Breakpoints.LineTargetIffCovered | pkg/buildkit/breakpoint.go:112-133 | a line breakpoint is a target iff its line is covered in its file |
| Breakpoints.TargetLocations | pkg/buildkit/breakpoint.go:91-133 | a failed op reports all its locations, a covered line exactly the ranges that cover it |
| Breakpoints.BreakpointSet.Add | pkg/buildkit/breakpoint.go:42-56 | adds one entry under the given or the next automatic key and changes no other; a taken key is an error that changes no entry but still uses up the index |
| Breakpoints.BreakpointSet.ForEach | pkg/buildkit/breakpoint.go:72-83 | visits every key once in increasing order up to the first refusal, so an early-stopping callback decides "some breakpoint satisfies the test" |
| Breakpoints.BreakpointSet.GetHitBreakpoints | pkg/buildkit/handler.go:133-144 | exactly the registered breakpoints that are targets, with their hit locations |
| Breakpoints.AutoAddNeverCollides | pkg/buildkit/breakpoint.go:42-70 | after any registry operations an automatic Add succeeds with a key neither present nor issued since the last ClearAll |
| Breakpoints.ClearAllReissues | pkg/buildkit/breakpoint.go:67-70 | after ClearAll numbering restarts at 0 |
| Session.Handler.Handle | pkg/buildkit/handler.go:108-131 | one event: skip, stop on entry, step or breakpoint, then the shell |
| Session.CommandHandler.BreakHandler | commands.go:72-110 | the target filter, then commands until one resumes or aborts |
| Session.CommandHandler.Dispatch | commands.go:140-176 | the effect of each command on breakpoints, stepping and pending target |
| Session.Debugger.HandleEvents | pkg/buildkit/controller.go:48-66 | the serial loop over a build's events until a prompt aborts it |
| Session.Debugger.Debug | pkg/buildkit/client.go:116-176 | the build, restarted on reload with a fresh handler; when the build returns before its handler does, its result counts and a reload is no restart; terminates for every input |
| SessionSpec.EventMeetsSpec | pkg/buildkit/handler.go:108-131 | one event prompts iff the declarative rule says so, and the flags go on mirroring the history |
| SessionSpec.BuildRefinesSpec | pkg/buildkit/controller.go:52-64 | over any events and any script every prompt is as the declarative rule says; every op is released except the last one if its prompt aborted |
| SessionSpec.UnlocatedPassThrough | pkg/buildkit/controller.go:54-64 | events without a location never prompt and are always released |
| SessionSpec.ContinueReachesTarget | break.go:125-136 | after `continue KEY` the next prompt is exactly the first later event that hits KEY; all events before it are released |
| SessionSpec.ContinueKeyIsRegistered | break.go:127-132 | the key of an accepted `continue KEY` is registered |
| SessionSpec.ReloadsStartFresh | pkg/buildkit/client.go:168-173 | every build starts not entered, not stepping, without target, with the breakpoints the last one left and the input it left over; the session ends as its last build says |
| SessionSpec.SessionEnds | pkg/buildkit/client.go:131-173 | a build is followed by another iff its prompt asked for a reload before the build had returned; the last build ends the session with success on exit, with the read error on a failed read, and as the build returned in all other cases |
| SessionSpec.EveryBuildStopsOnEntry | pkg/buildkit/handler.go:122-129 | after any number of reloads the first located event of each build prompts |
| SessionSpec.SessionAccounting | pkg/buildkit/client.go:131-173 | every session ends on a prefix of its input; each reload line it read restarted the build, except one at the end of a build that had returned before |
| SessionSpec.PromptConsumes | commands.go:92-138 | every prompt consumes at least one input line or ends by exit |
| SessionSpec.BreakThenHit | break.go:25-44 | `break NUMBER` gets a new key that hits exactly the events covering that line, leaves other hits alone, and is undone by `clear` |
| SessionSpec.SessionKeepsKeys | break.go:31-43 | at the start of every build, after every event and at its end all keys are on-fail or automatic keys already passed |
| SessionSpec.PromptGoesOn | commands.go:92-110 | commands that keep a prompt open are read one by one, and the state between any two of them has all automatic keys below the index |
| SessionSpec.BreakNeverFails | break.go:25-44 | at any event of any session, after any commands typed at its prompt, the next automatic key is free |
| Commands.FreshBreakpoints | main.go:370-372 | in a new session exactly the failed ops hit, and they hit on-fail |
| Commands.ClearAllForgets | break.go:94-97 | after `clearall` no event hits anything |
| Commands.ClearTakesKey | break.go:75-84 | `clear KEY` takes away exactly the hits of KEY; an unknown key changes nothing |
| Commands.BreakOnFail | break.go:34-43 | `break on-fail` makes exactly the failed ops hit on-fail, uses up no number and leaves other hits alone; repeated it changes nothing |
| Commands.OthersKeepBreakpoints | commands.go:140-176 | every other command, and a `break` without a line number, leaves the breakpoints alone |
| Commands.BreakAtPrompt | break.go:37-38 | a line typed at the prompt of an event hits the later events that cover this line of the file of that event's first location |
| Commands.KeepsPromptIff | commands.go:92-110 | a command keeps the prompt open iff it is none of next, reload, exit and an accepted `continue` |
| Commands.PromptEndsAsTyped | commands.go:92-138 | a prompt ends as the last line it read says, or as exit at the end of the input |
| Commands.PromptsReadScript | commands.go:92-138 | the prompts of a build read its script from the front one after the other, each up to the line that ends it; events without a prompt read nothing |
| Commands.NextStopsAtLocated | break.go:100-111 | after `next` the first later event with a location prompts |
| Commands.ContinueStopsAtHit | break.go:114-139 | after `continue` the next prompt is at the first later event that hits anything |
| Commands.ClearAllThenContinue | break.go:88-98 | `clearall` and `continue` at the entry prompt let the whole build run without another prompt, whatever fails |
| SharedReader.NeverPanics | commands.go:230-248 | under every interleaving the panic is unreachable, a non-nil writer belongs to the holder of the lock, and at most one user holds it |
| SharedReader.InputIsConserved | commands.go:193-226 | every byte read is settled once or pending; what a user received is its share of stdin in input order; a byte goes only to the user found by the lookup, and is discarded iff there was none |
| SharedReader.DestinationHadBegun | commands.go:215-221 | the lookup finds a user that has begun and not finished |
| SharedReader.NothingAfterDone | commands.go:239-248 | a user that has called done receives nothing more in any continuation |
| SharedReader.WriteReturnsIffUserFinished | commands.go:222-224 | with bytes left, a blocked write to a user returns iff that user has called done, so bytes are dropped only then |
| SharedReader.DoneUnblocksReader | commands.go:239-248 | the user of a blocked write can call done at any moment, and then the write can return |
| SharedReader.DeliveredInOrder | commands.go:193-226 | when all of stdin was delivered, the shares of the users in the order they began concatenate to stdin |
| SharedReaderRuns.PipeIsOpenIff | commands.go:206-213 | a user's pipe is open, and is the one written to, iff it began last and neither called done nor met the end of input since |
| SharedReaderRuns.EndOfInputEndsPrompt | commands.go:206-213 | a run in which the end of input closes the pipe of the one user |
| SharedReaderRuns.InputIsTheReads | commands.go:193-226 | the bytes taken are those the reads returned, in order; as many arrived as users read; the reader stops iff it was told to |
| SharedReaderRuns.ReadGetsNextBytes | commands.go:222-224 | while a user's pipe is open it can read any part of what is written to it, and gets the next bytes of the input |
| SharedReaderRuns.FreeIffAllGone | commands.go:230-248 | stdin is free for a new user iff every earlier one is gone |
| SharedReaderRuns.ReaderGoesOn | commands.go:193-226 | a reader that was not told to stop can always come back to its next read |
| SharedReaderRuns.UserCanLeave | commands.go:230-248 | a user that holds stdin can leave it by steps of its own |
| PromptLines.AllLinesSeenIff | commands.go:112-138 | prompts that read one share each, the last one possibly none, return all lines iff no share goes on after its first line |
| PromptLines.PromptsSeeEveryLineIff | commands.go:112-138 | the same over every run of the shared reader in which all of stdin is delivered |
| PromptLines.PipedLinesAreLost | commands.go:112-138 | a run in which two lines arrive in one write and the prompt sees only the first |
| Progress.ProgressWriter.WriteBytes | main.go:773-786 | appends to the log, and to destination plus buffer, whether output is enabled or not |
| Progress.ProgressWriter.EnableOutput | main.go:747-755 | moves the whole buffer to the destination, in order, and enables |
| Progress.ProgressWriter.Buffered | main.go:757-765 | the unsent bytes, not consumed |
| Progress.OutputIsConserved | main.go:741-786 | after any operations destination plus buffer, and the log, equal all bytes written; the buffer is empty when enabled |
| Progress.PromptHoldsOutputBack | main.go:375-379 | nothing is sent while a prompt is open, the buffer is what was written since, and closing it catches up |
| Progress.FillRing | log.go:51-63 | after any number of lines the ring holds the last lap and the rest of the one before |
| Progress.LogTail | log.go:46-76 | the last min(n, total) lines in order |
| Listing.PrintSource | list.go:69-109 | exactly the lines in some window, once each and in order, with marks, pointers and separators where lines are left out |
| Listing.ListingUnique | list.go:69-109 | that description determines the output |
| Listing.PrintLines | list.go:59-110 | one such block per source that has ranges |
| Listing.RowsTellTheTruth | list.go:86-106 | a row shows its own line, is marked iff a breakpoint is registered on that line of that file, and is pointed at iff a range covers it in whose window it is |
| Listing.ShownIffNear | list.go:76-84 | a line is shown iff a range covers it, starts at most `-B` lines below it, or ends at most `-A` lines above it |
| Listing.CoveredLinesAreShown | list.go:76-84 | every covered line is shown as such iff all lines are shown or the window is not negative |
| Listing.HitIffShown | list.go:73-106 | a registered line breakpoint is shown with `*` and `=>` iff its line exists in a source where it is covered; so what is shown is a hit, and every hit is shown when the line exists wherever it is covered |
| Mounts.GetResultMounts | pkg/buildkit/controller.go:326-356 | both lists have one slot per mount: the in-range output, else the in-range input, else nothing |
| Mounts.WorkerWrapper.RegisterResultIDs | pkg/buildkit/controller.go:260-276 | ids slot by slot, each resolvable afterwards; fails iff some result is no worker reference |
| Mounts.MakeInfo | pkg/buildkit/controller.go:298-324 | the id lists of a status for every outcome of the op, all resolvable; it succeeds iff every result concerned is a worker reference |
| Mounts.AcquiredExact | pkg/buildkit/exec.go:31-160 | what is in the cleanup: the container once it was made, and for a running one the console and the signal watch as far as asked for |
| Mounts.RunMountsExact | pkg/buildkit/exec.go:64-120 | every mount of a RUN step gets its own id and options; with a debugger image the image is the root and the step's mounts move below the mount root |
| Mounts.OtherMountExact | pkg/buildkit/exec.go:84-120 | the one mount of any other step, with and without a debugger image |
| Mounts.ExecContainer | pkg/buildkit/exec.go:31-160 | out of range exactly when the id list is too short, refused exactly without a single rootfs, failed exactly when the runtime fails, else running with mounts that line up with the step's; exactly what the runtime handed out is released, once, last first |
| Mounts.ObserveAndExec | pkg/buildkit/exec.go:64-75 | from op to container: exec is reached iff every result is a worker reference; in bounds and aligned after success for both settings of `--init-state`; the exact out-of-range condition for every outcome; when a step that is no RUN is refused |
| Mounts.PlainFailureCrashesExec | pkg/buildkit/controller.go:302-306 | observing a RUN step with a root mount whose failure is no ExecError and calling exec indexes out of range, whatever the input, the runtime and `--init-state` |
| Dap.OnSetBreakpoints | pkg/dap/dap.go:356-388 | n verified entries with ids 0..n-1 in request order; the registry holds on-fail and these lines only |
| Dap.SetTwice | pkg/dap/dap.go:360-366 | after requests for two different sources the lines of the first are kept iff there were none |
| Dap.OtherSourceDropped | pkg/dap/dap.go:360-366 | the same for any registry that holds a request for another source |
| Dap.StopIds | pkg/dap/debugger.go:194-207 | one id for every hit key that parses |
| Dap.StopIdsAreExact | pkg/dap/debugger.go:194-207 | the ids of a stop are exactly the request indices whose line is hit, each once |
| Dap.HitsIffFailedOrLineHit | pkg/dap/dap.go:360-366 | after the request some breakpoint hits iff the op failed or a requested line is hit |
| Dap.ReasonIsBreakpointIffLineHit | pkg/dap/dap.go:265-273 | the stop reason is breakpoint iff some requested line is hit |
| Dap.SplitVariable | pkg/dap/dap.go:499-510 | name and value around the first `=` |
| Dap.OnVariables | pkg/dap/dap.go:481-529 | the requested page of the environment; an empty list before the first stop and on a step that is no RUN |
| Dap.VariablesUnique | pkg/dap/dap.go:498-511 | the variable list is determined by the environment |
| Dap.PageExact | pkg/dap/dap.go:517-529 | a page is the variables from start on, at most count of them unless count is 0 or less |
| Dap.PagesConcatenate | pkg/dap/dap.go:517-529 | for any page size the pages concatenate to the whole list |
| Handshake.ResumesMatchStops | pkg/dap/debugger.go:168-211 | in every run stops minus consumed resumes is 0 or 1, nothing is offered before the first stop, every handler call consumes one message of its own |
| Handshake.LaunchOrder | pkg/dap/dap.go:257-275 | with one launch, in every run: thread-started once at most and before LaunchResponse, that once at most and before every StoppedEvent |
| Handshake.StopsReportedWithIds | pkg/dap/dap.go:264-275 | every stop is reported once and in order, with exactly the ids its event hit |
| HandshakeRuns.StopsAreAsRuled | pkg/buildkit/handler.go:115-129 | in every run the stops are those of the rule, said with the client's own steps: the configuration it launched with, its last SetBreakpoints request, the last of its accepted resume requests, and the op's failure |
| HandshakeRuns.StopRule | pkg/buildkit/handler.go:115-129 | after any run the next op adds a stop iff that rule says so, with the request in force and the lines it hit |
| HandshakeRuns.MessagesAreTheSteps | pkg/dap/dap.go:250-332 | the messages of every run one by one: every launch but the first valid one is refused, every resume request is answered, every StoppedEvent has the ids of the stop received last |
| HandshakeRuns.AcceptedAsAsked | pkg/dap/debugger.go:168-184 | the accepted requests are what the client asked for, in the order of their checks: next is next and continue is continue |
| HandshakeRuns.EveryStopCanEnd | pkg/dap/debugger.go:168-211 | from every reachable state the stop at hand can be ended, even when an answer was lost |
| EarlyResume.AcceptStaysCalmIff | pkg/dap/debugger.go:168-184 | an accepted request leaves the session calm (no accepted request waiting, or a single one, accepted for the stop at hand) iff the client had an unanswered stop |
| EarlyResume.PoliteClientEndsItsStops | pkg/dap/debugger.go:168-211 | if each request is accepted while there is an unanswered stop, every stop that has ended was ended by a request accepted after it |
| EarlyResume.OneAnswerClient | pkg/dap/debugger.go:168-211 | a client that sends one request at most per StoppedEvent satisfies the row above; when it has answered all stops the stop at hand can be ended iff no answer was lost; a lost answer leaves the first stop open with nothing to end it |
| EarlyResume.AnswerIsLostIff | pkg/dap/debugger.go:207-209 | in every reachable state with a reported stop a request is ignored iff it is checked before the first stop has stored its context |
| EarlyResume.FirstAnswerCanBeLost | pkg/dap/debugger.go:207-208 | a run with one answer to one StoppedEvent in which the answer is lost and the handler goes on waiting |
| EarlyResume.EndsEarlyIff | pkg/dap/debugger.go:168-211 | in every reachable state a stop can end unanswered, without another request being accepted, iff one already did or the session is not calm |
| EarlyResume.OfferEndsEarlyIff | pkg/dap/debugger.go:207-209 | a stop on offer can end before the client has seen it iff an accepted request is waiting |
| EarlyResume.TwoRequestsEndNextStop | pkg/dap/debugger.go:168-184 | a run from the start in which the second of two requests for the first stop ends the next one |
| Launches.SingleLaunchIsHandshake | pkg/dap/debugger.go:53-79 | with the guard and the store as separate steps: as long as one launch at most passed the guard, every run is a run of the handshake, step by step |
| Launches.SingleLaunchOrder | pkg/dap/dap.go:257-275 | in such runs the messages are ordered as LaunchOrder says, and messages, stops and accepted requests are those HandshakeRuns reads off the same steps |
| Launches.SingleResponseIff | pkg/dap/debugger.go:54-78 | in every reachable state the launches in flight lead to one LaunchResponse at most iff one passed the guard at most, which is iff no second launch passed it before the first was stored |
| Launches.TwoLaunchesAnswered | pkg/dap/debugger.go:54-78 | a run in which two launches are checked before either is stored, and both can be answered |

## Left out

- BuildKit, the gateway, caches, container runtime, terminals, signals, files and locks are the environment: op events, their locations, failures and cancellations are arbitrary.
- Command line parsing (`urfave/cli`, `shlex`), aliases and help: commands arrive parsed, and every line that only prints is one command `Other`.
- In the session model a prompt's input is the sequence of lines its reads return; PromptLines relates these to the bytes of stdin. Lines longer than the scanner's limit are the failing read, and the carriage return the scanner strips before a newline stays part of the line.
- Texts: breakpoint descriptions, log messages, column padding of the listing; a listing row is its number, its two marks and its text.
- The default breakpoints made by `withDebug` when the caller passes none, and the debugger image build.
- Disconnect, which ends the process, is not modelled; neither is a launch whose options fail to parse, beyond the error it is answered with.
- The DAP stack trace, scopes, threads and evaluate requests, JSON encoding and the capability list.
- Path joining for the mount root is a parameter; fields of a mount that are only copied are one text.
- Failing writes of the progress log and destination: both are taken as total.
- Integer width: the automatic key index is unbounded. Only parsing checks the 64-bit range.
- Listing.HitIffShown: stated for windows that are not negative (or `--all`), because a negative one hides covered lines, as CoveredLinesAreShown says.
- Mounts.InputSlot: a cloned result is taken to have the id of the original.
- Rendezvous.Next: whether a handled event had a location is left to the environment there; the session model covers that branch.
