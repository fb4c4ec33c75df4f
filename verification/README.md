# Superscaler in Dafny

Superscaler scales the process groups of Supervisor nodes (and PM2 applications) by queue length. A daemon
ticks over its targets; a plugin inside each Supervisor node adds processes to a group, stops them, and
removes stopped ones, rewriting `numprocs` in the node's configuration as it goes. This project models the
daemon, the plugin and everything that can happen between them, and proves what the protocol keeps.

Three views of a group have to agree: the daemon's pending names, the live process dictionary, and
`numprocs` on disk. No single function keeps them in agreement, so the core is a transition system whose
steps include lost replies, calls that stop half way, re-reads that fail, nodes that crash inside a call and
restart from disk, and processes that change state on their own.

| file | what it holds |
|---|---|
| `Names.dfy` | decimal numerals, zero-padded process names, string order |
| `ConfigEditor.dfy` | the line editor that rewrites `numprocs` |
| `Group.dfy` | one process group and what each plugin operation, or a part of it, leaves behind |
| `Plugin.dfy` | the plugin as a class over groups and files, loop by loop |
| `Protocol.dfy` | daemon and group as a transition system: invariants, runs, crash safety, removal |
| `Agreement.dfy` | when the three views agree, over runs with failed re-reads |
| `Tallies.dfy`, `Cluster.dfy` | all groups behind remote calls with lost replies; ghost runs of everything that happened |
| `Confirmation.dfy`, `Distribution.dfy`, `Balancer.dfy` | the phases of a supervisor tick and why greedy is optimal |
| `Desired.dfy`, `Rounding.dfy` | the wanted count and what rounding does to it |
| `Pm2.dfy`, `Timers.dfy`, `Convergence.dfy` | the PM2 path and PM2 itself, cooldowns over runs, and both together |
| `Targets.dfy`, `Backends.dfy` | configurations; monitors and clients |
| `Verdicts.dfy`, `Engine.dfy` | what a tick may do to a target; the engine with its state |
| `Daemon.dfy` | the main loop with SIGHUP reloads |

`dafny verify dfyconfig.toml` checks everything.

## How the model is built

- A process is identified by its index, its number minus `numprocs_start`; `Template` turns an index into the
  zero-padded name, and every place that sorts by name sorts by those strings.
- A plugin operation is a function of the group and of `steps`, the number of its effects (disk write, re-read,
  each change in memory) that happen before something raises. `SupervisorNode` proves its methods against
  these functions, and the protocol crashes and faults calls after any number of steps.
- `Cluster` performs each remote call on the group it addresses; before and after it the environment may do
  anything it can. A call ends in a reply, or in a fault that says nothing about whether it took effect. Ghost
  fields keep each group's run from the start, a tally of the calls executed and acknowledged, and all calls placed
  with their outcome; `Pm2` keeps every run of the pm2 command. So contracts of the engine's loops are about calls
  that really happened and answers that were really true.
- Every loop and branch of the engine, the plugin and the reload is a method with the source's loop, proved
  against value-level predicates or functions; the lemmas are about those.

Assumptions, which the code needs as well:

- Only this daemon scales a group, and a (node, program) pair belongs to one target; groups are therefore keyed by
  node and target.
- A reload does not point an existing node name at another machine, and does not change a kept target's program. One
  that renames a target over the same node and program starts a fresh group in the model: what was pending for the
  old name is dropped, as in the code, but the run of the group is not carried over to the new one.
- Process names are a fixed prefix and one zero-padded number. That names sort by number is not assumed of the model
  but required by the theorems that need it, in the weakest form: `Fits` where all of the order matters, `LastOnTop`
  where only the greatest name does. A group can grow without bound, since processes that are stopped but not
  pending do not count as active, so neither is an invariant.
- The clock and what each backend says of each queue, a length or no answer, are inputs of a tick; what a configuration
  file parses to and which monitors and clients can be built are inputs of a reload. So it is a fact about the inputs
  when a tick is skipped and when a reload is refused, and the contracts say so both ways.
- Which states Supervisor counts as running or stopped is Supervisor's own business and not part of this model;
  BACKOFF counts as running, STOPPING as neither.

Where the code and its own comments or documentation differ, the model follows the code:

- The editor's comment says spacing is preserved; `numprocs =4` becomes `numprocs = 5` and an inline comment is lost.
- The project's documentation says scaling waits until nothing is pending; the code only passes over the nodes that
  have something pending.
- `scaleDown` is called with a count of 1 several times in a tick, and picks the same top process again.

## What turned out not to hold

Each of these is stated as an exact condition, and a lemma gives a run or an input where it fails:

- *A pending name is always the top process.* There are two exceptions and no others (`Protocol.GoodStep`). If the
  re-read inside `scaleUp` fails, the disk lists one process more than the group; if a process is then pending and the
  node crashes, it comes back with a process above the pending one, and its removal leaves a hole
  (`Protocol.CrashKeepsGoodExactly`, `Protocol.HoleIsReachable`). And `scaleDown` goes by name: of eleven processes
  without padding it stops number 9 (`Group.LastOnTopExactly`, `Protocol.UnpaddedElevenBreaks`).
- *The three views agree.* Not while a re-read has failed: exactly from the next completed write, or crash, on
  (`Agreement.ViewsAgreeExactly`, `Agreement.SettledExactly`, `Agreement.ViewsDisagree`).
- *No live worker is missing from disk.* If the re-read inside `confirmScaleDown` fails and the process was EXITED,
  Supervisor may start it again before the retry. Nothing of the kind can happen exactly while the disk lists at least
  as many processes as the group has, which is as long as the last write was not that of a `confirmScaleDown` whose
  re-read failed. `Protocol.CoveredExactly`, `Agreement.AtRiskOverRuns`, `Protocol.FailedReReadUncovers`.
- *Sorting by name is sorting by number.* Exactly while the last number has no more digits than the first numeral has
  characters. `Names.NamesFollowNumbersExactly`, `Protocol.UnpaddedElevenBreaks`.
- *A failed call can be repeated.* For `scaleUp`, exactly if nothing was injected yet. `Group.RetryScaleUp`,
  `Group.RepeatedScaleUpAddsThree`.
- *A second edit wins.* For the value read back, always; byte for byte, exactly if the line was not written with a
  space before the sign only. `ConfigEditor.SecondUpdateWins`, `ConfigEditor.SpaceBeforeSignOnly`.
- *Each acting PM2 tick gets closer.* Exactly if the step, cut off at the limits, is less than twice the distance.
  `Pm2Path.CloserExactly`, `Pm2Path.OvershootMovesAway`.
- *Scaling a PM2 application down leaves the count that was computed.* The count comes from the active instances but
  sets all of them; certain exactly if all are active or none is wanted. `Pm2Path.ScaleDownIsSureExactly`,
  `Pm2Path.ScaleDownMayLeaveFewer`.
- *The float ceiling is the integer one.* Exactly if the quotient does not underflow. `Desired.FloatCeilExactly`,
  `Rounding.TinyQuotientIsLost`.
- *A reload equals a rebuild.* Exactly if no node changes only its type. `Daemon.ReloadAgreesExactly`,
  `Daemon.TypeChangeGoesUnnoticed`.

## Model

| member | source | states |
|---|---|---|
| Names.ParseIntShowInt | src/superscaler_plugin/rpcinterface.py:291-292 | the decimal number written reads back as the same number, for every integer |
| Names.NameOrder | src/superscaler_plugin/rpcinterface.py:138-140 | among numbers that fit the padding width, descending name order is descending number order |
| Names.NameTotal | src/superscaler_plugin/rpcinterface.py:48 | two processes of a group never have the same name, so sorting by name has one result |
| Names.NamesFollowNumbersExactly | src/superscaler_plugin/rpcinterface.py:137-140 | name order is number order on n processes numbered from any first number if and only if the last number has no more digits than the first numeral has characters |
| Names.LastIsGreatestExactly | src/superscaler_plugin/rpcinterface.py:137-143 | the last process has the greatest name if and only if name order is number order or its number is nines but for the last digit |
| ConfigEditor.LocateFindsTheNumprocsLine | src/superscaler_plugin/rpcinterface.py:263-294 | the scan with its in_section flag stops at a line if and only if it is the first numprocs line of the section the first matching header opens |
| ConfigEditor.KeyLineExactly | src/superscaler_plugin/rpcinterface.py:281-283 | a line counts if and only if its text up to the first sign begins with numprocs and is that word but for white space; a line without a sign never does |
| ConfigEditor.OtherKeyIsNone | src/superscaler_plugin/rpcinterface.py:281-283 | so a numprocs_start line is never one |
| ConfigEditor.EditLines | src/superscaler_plugin/rpcinterface.py:263-294 | the loop changes exactly that line, or nothing when there is none |
| ConfigEditor.RewrittenText | src/superscaler_plugin/rpcinterface.py:284-293 | the text of an edited line: indent kept; a space after the sign kept and one before it dropped; a space before it only turned into one on either side; the rest replaced by the number |
| ConfigEditor.UpdateNumprocsInConfig | src/superscaler_plugin/rpcinterface.py:256-304 | the loop over files rewrites the first match only; unreadable files are passed over |
| ConfigEditor.ReadAfterUpdate | src/superscaler_plugin/rpcinterface.py:256-301 | after an update, reading numprocs by the same rules gives the new number if the program had a line, and what it gave before otherwise |
| ConfigEditor.SectionReads | src/superscaler_plugin/rpcinterface.py:254-283 | a file with a [program:x] header and a numprocs line under it reads as that number for x |
| ConfigEditor.SectionsDisjoint | src/superscaler_plugin/rpcinterface.py:269-277 | no line is the numprocs line of two programs |
| ConfigEditor.UpdateKeepsOtherPrograms | src/superscaler_plugin/rpcinterface.py:256-301 | what is read for every other program, over all files, is unchanged |
| ConfigEditor.UpdateTouchesOneLine | src/superscaler_plugin/rpcinterface.py:281-301 | line counts are kept, at most one line of one file changes, and it is a line whose key is exactly numprocs (so never numprocs_start) in the first file that has one |
| ConfigEditor.SecondUpdateWins | src/superscaler_plugin/rpcinterface.py:256-301 | over all files, two updates of a program give byte for byte what the second would have given alone if and only if its line, if any, was not written with a space before the sign only |
| ConfigEditor.SpaceBeforeSignOnly | src/superscaler_plugin/rpcinterface.py:284-292 | a line where they do not: numprocs =4 |
| ConfigEditor.EditedFileReadsBack | src/superscaler_plugin/rpcinterface.py:296-298 | the edited lines, written out and split again, are the same lines: the edit never joins or splits lines |
| ConfigEditor.CommentedLineReads | src/superscaler_plugin/rpcinterface.py:281-292 | a numprocs line with an inline comment, with either mark and whatever its spacing, still reads as its number |
| Group.StatesAre | src/superscaler/scaler.py:9-13 | RUNNING, STARTING and BACKOFF count as active, STOPPED, EXITED, FATAL and UNKNOWN as stopped, STOPPING as neither |
| Group.TopOfContiguous | src/superscaler_plugin/rpcinterface.py:137-143 | on processes 0..n-1 whose numbers fit, the k-th name in descending order is process n-1-k |
| Group.FitsExactly | src/superscaler_plugin/rpcinterface.py:137-140 | the numbers of a template fit if and only if its names sort by number, numprocs_start included |
| Group.LastOnTopExactly | src/superscaler_plugin/rpcinterface.py:137-143 | what a scaleDown of one process needs: the last process has the greatest name if and only if the numbers fit or its number is nines but for the last digit |
| Group.ReportedMembers | src/superscaler_plugin/rpcinterface.py:142-156 | scaleDown names exactly the selected processes that are not already STOPPING |
| Group.ScaleDownTakesTheTop | src/superscaler_plugin/rpcinterface.py:137-156 | with nothing STOPPING, scaleDown(count) names exactly the top min(count, n) processes, highest first |
| Group.ScaleUpContiguous | src/superscaler_plugin/rpcinterface.py:81-112 | scaleUp on processes 0..n-1 adds n, n+1, ... in order, as far as it gets; once written, the disk has the final count |
| Group.ScaleUpOutcome | src/superscaler_plugin/rpcinterface.py:81-118 | scaleUp on any group, also one with holes: the count written, the processes added (lowest first, STOPPED, in dictionary and list), and success exactly when none the disk lists is missing |
| Group.ScaleUpKeepsProcesses | src/superscaler_plugin/rpcinterface.py:102-112 | scaleUp never removes or changes an existing process, wherever it stops |
| Group.RetryScaleUp | src/superscaler_plugin/rpcinterface.py:81-112 | repeating a scaleUp that stopped early ends where an undisturbed first call would have if and only if nothing had been injected |
| Group.RepeatedScaleUpAddsThree | src/superscaler_plugin/rpcinterface.py:81-112 | a call where it does not: scaleUp by 2 that stopped after one and is repeated |
| Group.RetryConfirm | src/superscaler_plugin/rpcinterface.py:176-207 | repeating a confirmScaleDown whose re-read failed ends where a first-time success would have; one that failed its checks changed nothing |
| Group.ConfirmOutcome | src/superscaler_plugin/rpcinterface.py:176-211 | confirmScaleDown succeeds if and only if every name is there, stopped and given once; then exactly those are gone from memory, list and count |
| Group.ConfirmPartial | src/superscaler_plugin/rpcinterface.py:176-207 | and when it does not succeed: nothing changed if a check failed, else the count written and the names deleted in order up to where it stopped, with the list as before |
| Plugin.SortedByName | src/superscaler_plugin/rpcinterface.py:48 | the names ascending, each once |
| Plugin.ReversedIsTop | src/superscaler_plugin/rpcinterface.py:138-143 | sorting in reverse and cutting at count selects the greatest names |
| Plugin.InjectMissing | src/superscaler_plugin/rpcinterface.py:106-112 | the injection loop adds exactly the processes the re-read expands and the group lacks, in order, to both dictionary and list |
| Plugin.StopEach | src/superscaler_plugin/rpcinterface.py:142-153 | only selected running processes change state; the reply lists every selected process but the STOPPING ones |
| Plugin.StopsAreSent | src/superscaler_plugin/rpcinterface.py:142-156 | after scaleDown no selected process is active, no other has changed, and the reply names the selected ones but those that were STOPPING |
| Plugin.CheckRemovable | src/superscaler_plugin/rpcinterface.py:176-189 | the validation loop passes if and only if every name is present and stopped; otherwise the first offender decides the fault |
| Plugin.DeleteEach | src/superscaler_plugin/rpcinterface.py:201-203 | the deletion loop removes the names in order up to a repeated one |
| Plugin.Describe | src/superscaler_plugin/rpcinterface.py:47-56 | every process once, in name order, with its state |
| Plugin.SupervisorNode.GetGroupInfo | src/superscaler_plugin/rpcinterface.py:34-61 | faults for a node that is shutting down and for an unknown group; otherwise the report of the group |
| Plugin.SupervisorNode.UpdateNumprocs | src/superscaler_plugin/rpcinterface.py:246-304 | the files are edited for this program only, and only the numprocs that is read for it changes |
| Plugin.SupervisorNode.ScaleUp | src/superscaler_plugin/rpcinterface.py:63-118 | the node is left as AfterScaleUp says for any number of completed effects, the files with the count of the group plus `count` once the write is done; other groups and programs are untouched; the fault cases |
| Plugin.SupervisorNode.ScaleDown | src/superscaler_plugin/rpcinterface.py:120-156 | only process states change, as StopsTop says; memory, list and disk are untouched; the fault cases |
| Plugin.SupervisorNode.ConfirmScaleDown | src/superscaler_plugin/rpcinterface.py:158-211 | the node is left as AfterConfirm says; a request that fails its checks changes nothing, files included, and is refused for its first offending name, with BAD_NAME if it is not there and STILL_RUNNING if it is |
| Protocol.ScaleDownStep | src/superscaler_plugin/rpcinterface.py:137-156 | in a good state scaleDown(1) selects one process of the group, and that is the last one if and only if the last one has the greatest name |
| Protocol.ConfirmStep | src/superscaler_plugin/rpcinterface.py:176-207 | in a good state confirmScaleDown is refused or is about exactly the top process, which is stopped |
| Protocol.GoodStep | src/superscaler_plugin/rpcinterface.py:63-211 | the invariant (group 0..n-1, pending is the top or gone, disk off by at most one) is kept by a step of daemon, plugin or environment if and only if it is neither a crash, before anything is written, that finds a pending process with too many on disk nor a scaleDown answered with a name that is not the top process |
| Protocol.UnpaddedElevenBreaks | src/superscaler_plugin/rpcinterface.py:137-143 | eleven processes named without padding: scaleDown names process 9, and the invariant is lost |
| Protocol.CrashKeepsGoodExactly | src/superscaler_plugin/rpcinterface.py:84-112 | a crash, inside a call or between calls, keeps the invariant if and only if it does not come, before the disk is written, upon a pending process in the group while the disk lists too many |
| Protocol.GoodRun | src/superscaler_plugin/rpcinterface.py:63-211 | the invariant holds in every state of every run without those steps |
| Protocol.PendingInGroupIsTop | src/superscaler/scaler.py:197-260 | at most one pending name is still in the group, and it is the top process |
| Protocol.SettledStep | src/superscaler_plugin/rpcinterface.py:192-207 | while re-reads work, disk, memory and configuration list agree after every step, whatever is lost and wherever the node crashes |
| Protocol.SettledRun | src/superscaler_plugin/rpcinterface.py:84-112 | and so in every state of every run in which re-reads work, with everything not stopped on disk |
| Protocol.CoveredInsideCalls | src/superscaler_plugin/rpcinterface.py:194-207 | at every point inside a call everything that is not stopped is on disk |
| Protocol.CoveredExactly | src/superscaler_plugin/rpcinterface.py:176-207 | every possible next move keeps everything alive on disk if and only if the group has at most as many processes as the disk lists |
| Protocol.FailedReReadUncovers | src/superscaler_plugin/rpcinterface.py:194-198 | such a process exists after a confirmScaleDown whose re-read failed |
| Protocol.PendingWasNamed | src/superscaler/scaler.py:392-398 | every pending name was delivered by an earlier scaleDown reply of that node and has been pending since |
| Protocol.RemovedWasStoppedAndNamed | src/superscaler_plugin/rpcinterface.py:176-203 | whatever confirmScaleDown removes, in any run at all, was stopped at that step, had been named by an earlier scaleDown reply and was pending all the time in between |
| Protocol.RemovedIsTheOneNamed | src/superscaler_plugin/rpcinterface.py:120-211 | in a benign run it was also in its group all that time: the process removed is the one that was named, although numbers are used again |
| Protocol.NotRecreatedWhilePending | src/superscaler/scaler.py:332-335 | a pending name that left the group does not come back while it is pending |
| Protocol.RemovedOnce | src/superscaler/scaler.py:238-255 | while a name stays pending, through lost replies and retries, it is removed at most once |
| Protocol.HoleIsReachable | src/superscaler_plugin/rpcinterface.py:84-99 | a four-step run of the code, from any agreed group with a stopped top process, that leaves a hole; only its crash is of the excepted kind |
| Agreement.BooksStep | src/superscaler_plugin/rpcinterface.py:84-112 | how far the disk is ahead of or behind the group, and which deleted processes are still listed, after any step, from the same before it |
| Agreement.SettledExactly | src/superscaler_plugin/rpcinterface.py:84-207 | over every benign run, failed re-reads included: disk, memory and configuration list agree if and only if the last write was followed up or a crash came after it, and no deleted process is left in the list |
| Agreement.DiskOffExactly | src/superscaler_plugin/rpcinterface.py:84-112 | over every benign run: the disk is ahead of the group, by one, if and only if the last write was that of a scaleUp that injected nothing, and behind, by one, if and only if that of a confirmScaleDown that deleted nothing, with no crash since |
| Agreement.ViewsAgreeExactly | src/superscaler_plugin/rpcinterface.py:176-207 | the views agree if and only if the last write was followed up by the change in memory or wiped out by a crash: a retry heals a failed re-read |
| Agreement.ViewsDisagree | src/superscaler_plugin/rpcinterface.py:84-97 | a state where they do not agree: after a scaleUp whose re-read failed |
| Agreement.ShortExactly | src/superscaler_plugin/rpcinterface.py:194-203 | a step leaves fewer processes on disk than in the group if and only if it is an uncrashed confirmScaleDown whose re-read fails, or it found it so and neither crashed nor wrote the disk |
| Agreement.AtRiskExactly | src/superscaler_plugin/rpcinterface.py:194-203 | some possible move makes a live process be missing from disk if and only if the disk lists fewer processes than the group has |
| Agreement.AtRiskOverRuns | src/superscaler_plugin/rpcinterface.py:194-203 | over every benign run: that is possible if and only if the last write was that of a confirmScaleDown that was not followed up |
| Tallies.GoneWasAnnounced | src/superscaler/scaler.py:238-248 | every name whose removal was acknowledged had been delivered by a scaleDown reply |
| Tallies.GoneWasRemoved | src/superscaler_plugin/rpcinterface.py:200-203 | every acknowledged removal of a number, also a repeated one, was carried out by a confirmScaleDown: if the tally rose since some moment, the process left its group after it |
| Tallies.LeftSomewhere | src/superscaler_plugin/rpcinterface.py:200-203 | a process that was in its group and no longer is left it at a confirmScaleDown or in a crash, in any run at all |
| Cluster.Cluster.GetGroupInfo | src/superscaler/scaler.py:209-217 | a reply describes the group as it was at some moment of the call; it changes nothing for the daemon |
| Cluster.Cluster.ScaleUp | src/superscaler/scaler.py:348-357 | an answered call was executed once, one that failed at most once; nothing becomes pending |
| Cluster.Cluster.ScaleDown | src/superscaler/scaler.py:391-409 | likewise, and exactly the delivered names become pending for that group |
| Cluster.Cluster.Confirm | src/superscaler/scaler.py:241-250 | an answered call had exactly these names leave their group by a confirmScaleDown during the call, and is tallied with them; pending names are untouched |
| Cluster.Cluster.ForgetTargets | src/superscaler/scaler.py:74-76 | the pending names of removed targets are dropped, all others kept; what happened to a group before stays on record |
| Cluster.GroupsStayGood | src/superscaler/scaler.py:186-411 | in every reachable state of daemon, nodes and environment a group with a benign history is 0..n-1 and only its top process can be pending in it |
| Cluster.GroupsSettledExactly | src/superscaler_plugin/rpcinterface.py:84-207 | in every reachable state a group with a benign history has its views in agreement, and everything alive safely on disk, exactly when the results over runs say so |
| Cluster.GroupsStaySettled | src/superscaler_plugin/rpcinterface.py:84-112 | while re-reads work disk, memory and configuration list agree and everything alive is on disk |
| Confirmation.NameLeavesExactly | src/superscaler/scaler.py:200-258 | a name stops being pending if and only if its node is unconfigured, or the node answered, does not report it busy, and did not fail to confirm |
| Confirmation.LeavesStoppedAndConfirmed | src/superscaler/scaler.py:223-248 | a reported name is stopped or busy, never both; if it leaves while its process exists, the process was stopped and the removal confirmed |
| Confirmation.LeavesOnlyIfGone | src/superscaler/scaler.py:200-258 | over runs: a name that stops being pending while its node is configured belongs to a process that left its group by a confirmScaleDown or in a crash, and was pending from then on: not to an earlier process of the same number |
| Confirmation.Classify | src/superscaler/scaler.py:223-236 | stopped-or-gone and still-busy partition the pending names |
| Confirmation.ConfirmStopped | src/superscaler/scaler.py:238-255 | exactly the stopped names present are confirmed; the failure branch puts all back |
| Confirmation.ConfirmNode | src/superscaler/scaler.py:200-258 | one node's new pending set is NextPending of its own names and replies, a confirmation is logged if and only if it was executed and acknowledged, and the answer describes the group during the call |
| Confirmation.ConfirmPendingPerNode | src/superscaler/scaler.py:186-260 | the loop refines a map over nodes: each node's new set depends on its own old set and replies only; exactly the calls logged were placed, and other targets are untouched |
| Balancer.BalancedIsOptimal | src/superscaler/scaler.py:332-364 | an outcome in which whoever received a worker is at most one above everyone has the least sum of squares, the least maximum and the greatest minimum among all additions of as many workers |
| Balancer.OptimalIsBalanced | src/superscaler/scaler.py:332-364 | and only such outcomes have the least sum of squares |
| Balancer.Least | src/superscaler/scaler.py:346-347 | the first candidate with the least count, none if and only if there is no candidate |
| Balancer.Most | src/superscaler/scaler.py:387-388 | the first candidate with the greatest count, none if and only if there is no candidate |
| Balancer.GreedyUpOptimal | src/superscaler/scaler.py:344-362 | without failures the loads after the loop are optimal among all ways of adding as many workers to these nodes |
| Balancer.GreedyDownOptimal | src/superscaler/scaler.py:385-409 | the mirror statement for the recorded counts, among all ways of removing as many |
| Balancer.FairIsUnique | src/superscaler/scaler.py:344-409 | when no call fails there is only one fair outcome: the counts, the amount and the order of the nodes decide who gets what, ties included |
| Distribution.DistributeUp | src/superscaler/scaler.py:336-364 | ends fair to every surviving node, with ties going to the node listed first; calls are the answers plus one per failed node, at most total plus nodes; stops only at the total or with no node left; every node was called exactly that often and executed what it is credited with, plus at most the one call that failed |
| Distribution.DistributeDown | src/superscaler/scaler.py:379-411 | the mirror; no node is asked for more than it was seen to have, no count goes negative; what the pending list of each node gained is exactly what its replies named, with multiplicity |
| Distribution.StopOne | src/superscaler/scaler.py:391-409 | the names of an answered call are appended to the pending list of that node; a failed call appends nothing |
| Distribution.GatherLoads | src/superscaler/scaler.py:291-312 | one entry per configured node that answered, in the order of the list, with the number of active processes in its answer; the answers describe the groups as they were while gathering, every configured node was asked exactly as often as it is listed and no answer is dropped |
| Distribution.CountActiveCountsGroup | src/superscaler/scaler.py:306-307 | the gathered count is the number of RUNNING, STARTING and BACKOFF processes in the group at that moment |
| Distribution.EligibleSlots | src/superscaler/scaler.py:332-335 | exactly the nodes with nothing pending take part |
| Distribution.EligibleInOrder | src/superscaler/scaler.py:332-335 | in the order they had |
| Desired.CeilDivIsLeast | src/superscaler/scaler.py:321 | the ceiling is the least number of workers that covers the queue |
| Desired.WorkersMeaning | src/superscaler/scaler.py:321-322 | the wanted count is within the limits, closest there to the least covering number, and covers the queue unless max forbids it |
| Desired.WorkersMonotone | src/superscaler/scaler.py:321-322 | a longer queue never calls for fewer workers |
| Desired.Binary64IsWide | src/superscaler/scaler.py:321 | binary64 is one of the formats the ceiling result is about |
| Desired.ExactQuotientRoundsToItself | src/superscaler/scaler.py:321 | an integer quotient rounds to itself and to nothing else |
| Desired.FloatCeilExactly | src/superscaler/scaler.py:321 | for queue lengths below 2^53 the ceiling of any correctly rounded quotient (IEEE 754-2019, section 4.3.1) is the integer ceiling if and only if the quotient does not underflow |
| Rounding.RoundedExists | src/superscaler/scaler.py:321 | every quotient below 2^prec has a number of the format it rounds to, ties included |
| Rounding.FloatCeilExists | src/superscaler/scaler.py:321 | so for every queue below 2^53 the float ceiling exists, and is the integer one if and only if the quotient does not underflow |
| Rounding.TinyQuotientIsLost | src/superscaler/scaler.py:321 | an input where it is not: a queue of 1 over 2^1075 tasks per worker, for binary64 |
| Pm2Path.BandIsInvariant | src/superscaler/scaler.py:143-176 | the band of one step around the wanted count is never left, and the limits are never crossed |
| Pm2Path.BandIsApproached | src/superscaler/scaler.py:143-176 | from outside the band an acting tick lands in it or gets strictly closer without passing the wanted count |
| Pm2Path.CloserExactly | src/superscaler/scaler.py:143-176 | an acting tick gets closer if and only if the step it may take, cut off at the limits, is less than twice the distance |
| Pm2Path.OvershootMovesAway | src/superscaler/scaler.py:143-176 | an input where it does not: wanted 4, active 3, step 4 |
| Pm2Path.Converges | src/superscaler/scaler.py:140-176 | with a constant queue the count is in the band after at most its distance many ticks not held up by a cooldown, and stays |
| Pm2Path.ConvergesToDesired | src/superscaler/scaler.py:140-176 | with both steps 1 it reaches the wanted count |
| Pm2Path.Pm2.Scale | src/superscaler/scaler.py:149-175 | PM2 as a counter: a scale command that succeeds is obeyed at once, one that fails may have been, and no other application changes |
| Pm2Path.ScaleDownIsSureExactly | src/superscaler/scaler.py:169-175 | scaling down to the count computed from the active instances is sure to leave that many active if and only if every instance is active or that count is 0 |
| Pm2Path.ScaleDownMayLeaveFewer | src/superscaler/scaler.py:169-175 | an application where it does not: three active, one stopped, two wanted |
| Timers.WindowBound | src/superscaler/scaler.py:84-97 | events of at most step each, a gap apart, sum to at most step * (floor(T / gap) + 1) in any window of length T |
| Timers.ClocksSpace | src/superscaler/scaler.py:326-364 | in any run of ticks acknowledged additions are spaced by the longer of poll interval and cooldown, stops likewise |
| Timers.RateBound | src/superscaler/scaler.py:326-411 | the rate bound for additions and stops in every window of every run of ticks |
| Verdicts.TickedIsClockStep | src/superscaler/scaler.py:88-97 | a tick respects poll interval and cooldowns, and moves a timer exactly when something was acknowledged |
| Verdicts.WantedExactly | src/superscaler/scaler.py:321-322 | the desired count is the one count within the limits that covers the queue, at tasks_per_worker each, unless max_workers forbids it, and of which one fewer would not unless min_workers forbids that |
| Verdicts.TotalIsActive | src/superscaler/scaler.py:305-320 | the total it is compared with is the number of active processes in all answers |
| Verdicts.ActsExactly | src/superscaler/scaler.py:319-369 | on the parameters: there is something to add if and only if the cooldown is over, total < max_workers, and total < min_workers or total * tasks_per_worker < queue length; something to remove if and only if the other cooldown is over, total > min_workers, and total > max_workers or (total - 1) * tasks_per_worker >= queue length |
| Verdicts.TickBounds | src/superscaler/scaler.py:319-370 | of a whole tick: reachable total plus acknowledged additions stays within max_workers, minus acknowledged stops at least min_workers; calls at most scale_up_step when adding, scale_down_step when removing, plus participating nodes |
| Verdicts.TickAmounts | src/superscaler/scaler.py:325-411 | how much: if a node takes part and no call fails, exactly min(scale_up_step, max_workers - total); in general that much or every node failed; for a removal exactly min(scale_down_step, total - min_workers), or no surviving node has an active process left |
| Verdicts.LoadsWereActive | src/superscaler/scaler.py:305-307 | the load weighed for a node is the number of active processes its group really had at some moment of that tick |
| Verdicts.ExecutedBounds | src/superscaler/scaler.py:344-362 | over all nodes, the calls executed lie between the calls answered and the calls made |
| Verdicts.TickEffectBounds | src/superscaler/scaler.py:324-411 | what a tick really had executed on the nodes exceeds those limits by at most one worker per node that failed, and is never both additions and stops |
| Verdicts.OnlyFreeNodes | src/superscaler/scaler.py:332-335 | no node with something pending after phase 1 is called, and every other reachable one takes part |
| Verdicts.SpreadIsOptimal | src/superscaler/scaler.py:324-411 | a tick in which no call failed spreads its workers optimally over the nodes that take part |
| Verdicts.FollowedMovesNext | src/superscaler/scaler.py:143-176 | with every instance active, a tick whose command succeeded moves the application as the convergence results say |
| Verdicts.WeighsExactly | src/superscaler/scaler.py:272-318 | a supervisor target that is due gets to phase 4 if and only if its backend exists and gives a length and some node answers; with a length exactly the listed nodes that are configured are asked, without one none |
| Verdicts.DecidesExactly | src/superscaler/scaler.py:111-140 | a PM2 target that is due is decided on if and only if its backend exists and gives a length and PM2 lists the instances; with a length PM2 is always asked |
| Verdicts.CommandExactly | src/superscaler/scaler.py:124-170 | the PM2 command on the parameters: which, and by how much, from the active count, the queue length and the cooldowns |
| Verdicts.CommandWithinLimits | src/superscaler/scaler.py:143-176 | the PM2 command keeps the count within the limits |
| Convergence.PilotRunIs | src/superscaler/scaler.py:84-184 | a run of PM2 ticks with their own timers, reports and application moves the count as the abstract run does, and from the second tick on no cooldown holds it up |
| Convergence.BandIsNear | src/superscaler/scaler.py:124-176 | the band in terms of queue length, tasks_per_worker, limits and steps |
| Convergence.PilotConverges | src/superscaler/scaler.py:84-184 | with ticks a poll interval and cooldown apart, a queue that answers with a constant length and a PM2 that reports no error, the count is within a step of what the queue calls for, stated on the parameters, after at most one tick more than its distance, and stays |
| Engine.SpreadLoad | src/superscaler/scaler.py:319-411 | phases 4 to 6 do what Spread says, and the nodes executed what it reports; TickAmounts and ActsExactly say what that is on the parameters |
| Engine.SuperviseTarget | src/superscaler/scaler.py:262-411 | phase 1 always runs; then it is skipped exactly with what the backend said, asking no node without a queue length and every configured one with it, or else spread; every call, getGroupInfo included, and every effect is accounted for node by node, what the report says nodes answered was true during the tick, and no other target is touched |
| Engine.PilotTarget | src/superscaler/scaler.py:106-184 | the PM2 branch is skipped exactly with what the backend said, or when PM2 does not list the instances, which it is asked for whenever there is a length; otherwise it issues exactly the decided command, moves a timer only when it succeeded, and leaves pending names and other applications alone; every run of the pm2 command is on record |
| Engine.ScalerEngine.constructor | src/superscaler/scaler.py:25-54 | every configured target starts with all timers zero and nothing pending |
| Engine.ScalerEngine.EnsureTargetStates | src/superscaler/scaler.py:43-54 | exactly the missing states are created, existing ones kept |
| Engine.ScalerEngine.ProcessPm2Target | src/superscaler/scaler.py:106-184 | the PM2 handler on the engine state |
| Engine.ScalerEngine.ProcessSupervisorTarget | src/superscaler/scaler.py:262-411 | the supervisor handler on the engine state; its report is an honest account of what was executed, seen and called |
| Engine.ScalerEngine.ProcessTarget | src/superscaler/scaler.py:99-104 | dispatch by type |
| Engine.ScalerEngine.TickTarget | src/superscaler/scaler.py:88-97 | a target that is not due is left alone; one that is due has last_tick set and is processed |
| Engine.ScalerEngine.Tick | src/superscaler/scaler.py:84-97 | every target makes its own step from its own old state, by what its backend said; no lookup misses; the reports are an honest account of every call placed, getGroupInfo included, every run of the pm2 command in order, every effect on a node and every state seen during the tick, and no group of another target is called; the history of each target grows by exactly what its report says |
| Engine.ScalerEngine.DropTargets | src/superscaler/scaler.py:74-76 | removed targets lose their state, pending names included; what happened stays on record |
| Engine.ScalerEngine.ReloadConfig | src/superscaler/scaler.py:56-82 | afterwards the states are those of the new targets: kept ones unchanged, new ones with all timers zero; histories of unchanged targets go on, and what happened stays on record |
| Engine.EngineRateBound | src/superscaler/scaler.py:84-97 | in every reachable engine, the rate bound holds for each target over its whole history, which every tick extends and every reload that keeps the target leaves alone |
| Engine.EnginePendingIsTop | src/superscaler/scaler.py:186-260 | in every reachable engine, what it holds pending for a group with a benign history is the top process or gone, and the group has no hole |
| Engine.EngineRemovalsAreSafe | src/superscaler/scaler.py:238-248 | every removal that ever happened was of a stopped process that the engine had been told about and had pending ever since; with a benign history up to there it is the very process that was named |
| Backends.CreateNodeClient | src/superscaler/node_client.py:67-93 | a client, built from the given parameters, if and only if the type is supervisor and one can be made for the node |
| Backends.CreateQueueMonitor | src/superscaler/main.py:142-145 | a monitor, built from the given type and parameters, if and only if the backend can be connected to |
| Daemon.RebuildMonitors | src/superscaler/main.py:134-145 | monitors of unchanged queues are the same objects, all others newly built; it fails if and only if one of those cannot be built |
| Daemon.RebuildClients | src/superscaler/main.py:147-161 | clients of nodes with the same url, username and password are the same objects, all others newly built; it fails if and only if one of those cannot be built |
| Daemon.ReusedIsBuilt | src/superscaler/main.py:134-161 | after reuse, keys are those of the new configuration and every monitor and client has its present parameters |
| Daemon.UnchangedBackendsReload | src/superscaler/main.py:129-173 | a reload in which every queue and every endpoint is as before needs nothing but a file that parses |
| Daemon.ReloadAgreesExactly | src/superscaler/main.py:150-162 | the clients are those of a rebuild if and only if no node keeps its endpoint while its type changes |
| Daemon.TypeChangeGoesUnnoticed | src/superscaler/main.py:152-158 | a reload that succeeds with a node type no rebuild accepts |
| Daemon.OneTypeAgrees | src/superscaler/main.py:147-162 | with nodes of the supported type, and only then, the clients are those of a rebuild after any number of reloads |
| Daemon.IntervalIsLeast | src/superscaler/main.py:168-169 | the sleep is the shortest poll interval, and 2 without a target |
| Daemon.Daemon.constructor | src/superscaler/main.py:104-107 | daemon and engine start out with the same configuration, monitors and clients |
| Daemon.Daemon.Reload | src/superscaler/main.py:129-173 | succeeds if and only if the file parses and every monitor and client that is not taken over can be built; all or nothing: a failed reload leaves daemon, engine and pending names unchanged; a successful one swaps in exactly the reused and rebuilt parts, carries kept targets and their histories over and keeps what happened on record |
| Daemon.Daemon.RunOne | src/superscaler/main.py:127-177 | one iteration: a reload if one was asked for, taken over exactly when it can be, then a tick of every target from what that left, by what the backends said, with an honest report and the history of each target longer by it |
| Daemon.Daemon.Run | src/superscaler/main.py:127-183 | over any rounds of reloads and ticks the daemon runs on the last configuration that parsed and could be built; every report goes by what the backends then in force said in its round; a target kept throughout has its history longer by exactly one tick per round, at its time and with the outcome it reported |

## Left out

- Cluster.Cluster.ScaleUp: a call whose effect comes after the client gave up waiting (a delayed request) is not modelled; an effect happens between the call and its fault, or not at all.
- Cluster.Cluster.Confirm: same as above.
- Cluster.Cluster.ScaleDown: same as above.
- Plugin.SupervisorNode.ScaleUp: the section disappearing from a re-read configuration is treated like any other failed re-read; a program name given twice in several files is read by the editor's rule (first file), not by Supervisor's.
- Plugin.SupervisorNode.UpdateNumprocs: a disk write is atomic; truncated or partly written files, file permissions, and the caching and globbing of include files are not modelled.
- Engine.ScalerEngine.TickTarget: a malformed reply, or anything else that raises outside a remote call and is caught around the whole target, is not modelled.
- Protocol.GoodRun: requires that no step of the run is of the two kinds that break the invariant, which Protocol.GoodStep shows to be the only ones.
- Agreement.ViewsAgreeExactly: requires that no confirmScaleDown stops between its deletions and the update of the list; nothing there raises, and Agreement.SettledExactly covers it if it did.
- Protocol.SettledRun: requires that re-reads work; the exact statement for runs in which they fail is Agreement.SettledExactly.
- Cluster.GroupsStaySettled: same as above; the exact statement is Cluster.GroupsSettledExactly.
- Protocol.RemovedOnce: a name that stays pending; one whose node is dropped from the configuration is forgotten by design.
- Desired.FloatCeilExactly: queue lengths of 2^53 and more, where the length itself need not be a binary64 number.
- Verdicts.ActsExactly: the wanted count of the engine is the integer ceiling; it is what the code computes for every queue length below 2^53 unless the division underflows (Desired.FloatCeilExactly).
- Convergence.PilotConverges: assumes a constant queue, every instance active and no errors; what PM2 does when it scales down an application with inactive instances is only bounded (Pm2Path.ScaledTo), and an instance changing by itself within a tick is not modelled.
- Engine.ScalerEngine.Tick: says nothing about PM2 applications as a whole, since targets may share one; each target's part is in Engine.ScalerEngine.TickTarget.
- Backends.CreateQueueMonitor: which parameters a backend accepts, and connecting to it; which monitors can be built at a moment is an input.
- Backends.CreateNodeClient: same as above, for the clients of the supported type.
- That every pending process is eventually removed: one that was EXITED and restarts by itself is never stopped again.
- That the total over all nodes stays within max_workers: unreachable nodes are not counted, and the bounds are about the nodes that answered.
- Queue drivers, XML-RPC transport, credentials, PM2 subprocess handling: a number or an outcome.
- Parsing of the daemon's own configuration: its accepted results are the precondition; target, queue and node names are unique.
- Supervisor internals: spawning, signals, autorestart policy, `[group:x]` sections, child log files; the environment may change any process state at any time.
- Start-up checks, signal delivery, sleeping, logging, and the `supervisor` attribute kept for old callers.
