# Device mounter: a verified model

The device mounter gives a running container access to further devices, and takes it away again. It creates
slave pods that reserve the devices, rewrites the container's device permissions (the eBPF filter of cgroup v2,
or the device list of cgroup v1), creates or removes device files, and keeps the tables of its plugins. This
project models that core in Dafny and proves what it keeps.

| module | what it models |
|---|---|
| `Bpf` | an interpreter for the eBPF instructions of device filters (RFC 9669, sections 4.1, 4.3 and 5.1) |
| `DeviceFilter`, `FilterEditor` | the filter rewriter: specification functions, and the methods that compute them in place |
| `FilterSemantics`, `FilterRefinement`, `FilterEdits` | lists of clauses of which the first match decides; the bytecode refines them, before and after any edits |
| `FilterTheorems`, `FilterRuns`, `FilterRoundTrip` | other devices are left alone; repeated requests; mount followed by unmount |
| `FilterSwap` | exchanging the attached filter, with rollback |
| `SlavePods`, `DeviceFiles`, `MountTransaction` | pods, polling, device files, and the mount and unmount transactions over all of them |
| `CgroupV1` | the merge of device rules for cgroup v1, and its rollback |
| `VgpuRegion` | the shared table of the vGPU interception library |
| `DeviceCodec` | the annotation in which assigned vGPUs are listed |
| `GpuCollector` | the GPU index that follows the kubelet's listing |
| `NodeLabels` | the JSON patch that reconciles scheduling labels |

Objects that the program updates are classes here, and its loops are methods with invariants; each method is
proved against a specification function or against the property itself. The specification functions are in turn
related to statements that do not use them: letters, numbers, bytes, and places in a listing. External calls
succeed or fail arbitrarily, and what plugins answer is a parameter. Ghost fields record failures (`callFailed`, `undoFailed`) and the attached filters over time
(`history`), so that a contract can say what holds when nothing failed.

The clauses are the reference meaning of a filter. `Encodes(p, pro, bs, cs, otherwise)` says that `p` is a
prologue that loads the request into R2 to R5, at least one block, and a default, and that the blocks implement
the clauses `cs`. `RuntimeFilterEncodes` shows that the programs of the OCI runtime have this form.

## Where the code does less than its comments or names promise

The code is modelled as it is. Each of these is stated as an exact condition, or as what happens instead.

- A rule whose major or minor exceeds the largest int32 never matches: `EffectIsMeaningIffFits`.
- Applying a rule twice changes nothing exactly when it has both numbers and they fit; any other rule is added
  again and again: `SecondApplicationIff`, and for lists `SecondRequestChangesNothing`.
- Denying a device with all accesses after allowing it with fewer has no effect, because the shorter block does
  not replace the longer one and is added behind it: `OtherPermissionsUndoIff`.
- Rewriting a default-allow filter denies every request that none of its clauses matches, on any other device:
  `DefaultAllowIsLost`.
- A filter without rule blocks is not recognized, and rules added to it are never reached:
  `RulelessProgramIgnoresRules`.
- Loading does not take back the tail of every finalized program: `LoadUndoesFinalizeIff`, `FinalizedAlready`.
- A program that is too short, such as the bare return of a constant filter, makes `hasEndExit` index before the
  start: `RewritePanicsIff`, `ConstantFilterPanics`. In a mount, such a filter leaves the created pods behind and
  the directory open, and a panic of the plugin's own actions leaves the new filter and files, too: `MountDevice`.
- Without `BPF_F_REPLACE`, undoing a finished swap leaves no filter at all, and then every access is allowed:
  `NoFilterAllowsAll`, `UndoRestores`.
- When every rule allows all accesses, a failed change of the filter is reported as success, and only
  then: `SetDeviceRules`.
- Undoing the creation of device files also removes files that were there before, and undoing their removal also
  creates files that were not: `CreateUndoneIff`, `DeleteUndoneIff`.
- The cgroup v1 rollback keeps what the request granted to devices without an entry: `RollBackRestoresIff`.
- Detaching vGPUs that are not the last live slots loses a survivor: `DetachExactIff`. A name that does not have
  40 bytes is stored but not found again: `StoredNameIsFoundIff`.
- A container index beyond 31 bits is clamped, and a single empty list is decoded as no list:
  `DecodeUndoesRenderIff`.
- Label keys are escaped for slashes only, and a node without labels cannot be patched:
  `EscapeIsFaithfulIff`, `NoLabelsObjectIff`.

## Model

| member | source | states |
|---|---|---|
| Bpf.HaltedStays | pkg/util/ebpf/device.go:162-168 | a run that has returned or faulted stays there, so a decision does not depend on how many steps are allowed |
| Bpf.MaskKeepsSubset | pkg/util/ebpf/device.go:178-183 | masking the access bits leaves them whole exactly when the requested accesses are a subset of the permitted ones, which is what the test against R3 needs |
| DeviceFilter.FlattenGroups | pkg/util/ebpf/device.go:229-254 | joining the groups of any program gives the program back |
| DeviceFilter.GroupsFlatten | pkg/util/ebpf/device.go:229-254 | splitting a concatenation of groups with one final Exit each (the last may lack it) gives the groups back |
| DeviceFilter.GroupsSplit | pkg/util/ebpf/device.go:239-254 | every group but the last ends at its only Exit, and the last is such a group or a non-empty rest without Exit |
| FilterEditor.SplitAtExits | pkg/util/ebpf/device.go:239-254 | the loop computes the split, whose concatenation is the input |
| FilterEditor.ReadPermissions | pkg/util/ebpf/device.go:62-74 | read, write and mknod are permitted exactly when r, w and m occur, and any other letter is an error |
| FilterEditor.GroupNames | pkg/util/ebpf/device.go:88-105 | the three flags are found exactly when the group holds an immediate test of R2, R4 and R5 for the rule's type, major and minor |
| FilterEditor.FindGroup | pkg/util/ebpf/device.go:79-109 | the last group that names the rule's device, or -1 when none does |
| FilterEditor.FillOffsets | pkg/util/ebpf/device.go:207-217 | afterwards every jump of the block points at the instruction after the block, and nothing else has changed |
| FilterEditor.BuildBlock | pkg/util/ebpf/device.go:170-217 | the block of the rule, of which BlockImplements gives the meaning |
| FilterEditor.JoinGroups | pkg/util/ebpf/device.go:229-232 | the concatenation of the groups |
| FilterEditor.Instructions.LoadInstructions | pkg/util/ebpf/device.go:15-41 | nil is an error, too short a program a panic, and otherwise the tail is dropped when an Exit stands before it |
| FilterEditor.Instructions.AppendRule | pkg/util/ebpf/device.go:43-237 | fails, changing nothing, exactly for a rule that is not accepted; otherwise the rule's block takes the place of the last group that names the device if it is not shorter, else comes at the end |
| FilterEditor.Instructions.Finalize | pkg/util/ebpf/device.go:256-264 | the default-deny tail is added unless the program already ends with one |
| FilterEditor.RewriteProgram | pkg/util/cgroupv2.go:187-200 | load, add every non-nil rule until one is refused, finalize; errors and panics of each step are passed on |
| DeviceFilter.LettersAre | pkg/util/ebpf/device.go:62-74 | a permission string is accepted exactly when it has no letters but r, w and m, and permits the accesses whose letters it has |
| FilterSemantics.AcceptedIff | pkg/util/ebpf/device.go:44-74 | a rule is accepted exactly when its type is c or b, its numbers are at most 4294967295 and its permissions have no letters but r, w and m |
| FilterSemantics.EffectIsAsWritten | pkg/util/ebpf/device.go:44-205 | the block of an accepted rule decides exactly the requests of type 2 for c and 1 for b, with the rule's numbers, whose accesses all have their letter in the rule, and none if a number exceeds 2147483647 |
| FilterSemantics.DocumentedBlock | pkg/util/ebpf/device.go:162-168 | the block of c 195:0 rw is, instruction by instruction, the one that the comments list |
| FilterSemantics.AccessBitsAre | pkg/util/ebpf/device.go:65-70 | mknod, read and write are bits 1, 2 and 4 |
| FilterSemantics.EffectIsMeaningIffFits | pkg/util/ebpf/device.go:54-61 | a block decides exactly the requests its rule speaks of if and only if major and minor are at most the largest int32 |
| FilterSemantics.EvalSimulates | pkg/util/ebpf/device.go:207-217 | inside a program a block runs as it does on its own, and either returns or falls through to the instruction after it, within its length |
| FilterSemantics.BlockIsGood | pkg/util/ebpf/device.go:170-217 | a rule's block only writes scratch registers and R0, jumps only past its end, and its length depends on wildcards and full permissions |
| FilterSemantics.BlockImplements | pkg/util/ebpf/device.go:170-217 | with the request loaded, the block of a rule returns the rule's verdict on exactly the requests that match its effect, and falls through on the others, for the runtime's scratch register as for this tool's |
| FilterRefinement.RuntimePrologueIsValid | pkg/util/ebpf/device.go:116-160 | the runtime's five loads put type, access, major and minor into R2 to R5 from any registers |
| FilterRefinement.PrologueHasFour | pkg/util/ebpf/device.go:116-160 | no sequence of straight-line instructions that loads the request is shorter than four |
| FilterRefinement.RuntimeFilterEncodes | pkg/util/ebpf/device.go:116-168 | a runtime filter of any non-empty rule list encodes the effects of its rules, so everything below applies to it |
| FilterRefinement.BlocksDecide | pkg/util/ebpf/device.go:207-217 | from the first instruction of any block, the rest of the program returns the first-match decision of the remaining clauses |
| FilterRefinement.ProgramRefinesClauses | pkg/util/ebpf/device.go:15-264 | refinement: on every request and from any registers the flat bytecode returns the decision of the first matching clause, or the default, within its length |
| FilterRefinement.JumpsAreSafe | pkg/util/ebpf/device.go:207-217 | every jump of an encoding program goes forward to the instruction after the next Exit: a block's first or the tail's |
| FilterRefinement.ReachableStates | pkg/util/ebpf/device.go:116-168 | in every reachable state no fault has happened, the program counter is inside the program, and behind the prologue R2 to R5 hold the request |
| FilterEdits.GroupsOfBody | pkg/util/ebpf/device.go:239-254 | splitting a loaded program gives the prologue with the first block, and then block by block |
| FilterEdits.LoadAndFinalize | pkg/util/ebpf/device.go:20-41 | loading strips the default of any encoding program, be it allow or deny, and finalizing always puts denial there |
| FilterEdits.PrologueGroupIsKept | pkg/util/ebpf/device.go:219-227 | the group with the prologue is longer than any block, so no rule ever overwrites it |
| FilterEdits.MergeEditsBlocks | pkg/util/ebpf/device.go:219-227 | one edit of the group list is one edit of the block list at the same place |
| FilterEdits.AppendRuleEncodes | pkg/util/ebpf/device.go:43-237 | adding an accepted rule to a program that implements a clause list gives one that implements the list with the rule's effect replaced in place or added last |
| FilterEdits.RewriteRefines | pkg/util/cgroupv2.go:187-200 | for any list of rules: a refused rule makes the call fail; otherwise the result encodes, and decides every request by, the clause list edited rule by rule, with default denial |
| FilterEdits.RewrittenProgramIsSafe | pkg/util/ebpf/device.go:207-264 | after any list of accepted rules every jump lands on the next group or the tail, and every reachable state of every run is inside the program with the request loaded |
| FilterEdits.LoadUndoesFinalizeIff | pkg/util/ebpf/device.go:20-41 | for every program, loading what finalizing made of it gives it back exactly when it ends at an Exit and is not taken for one that has its tail already |
| FilterEdits.FinalizedAlready | pkg/util/ebpf/device.go:256-264 | Exit, R0 := 0, Exit is left alone by finalizing and shortened by loading |
| FilterEdits.RulelessProgramIgnoresRules | pkg/util/ebpf/device.go:37-41 | a program of a prologue and a return keeps its constant decision on every request whatever list of accepted rules is added |
| FilterEdits.RewritePanicsIff | pkg/util/ebpf/device.go:28-41 | rewriting panics exactly for the empty program, a lone Exit, or an Exit behind one instruction that writes R0 or has the constant 0; without any rule also for a program that is such without its tail |
| FilterEdits.RewriteFailsIff | pkg/util/cgroupv2.go:187-200 | rewriting returns an error exactly when some rule is not accepted, unless it panics before |
| FilterEdits.ConstantFilterPanics | pkg/util/ebpf/device.go:28-41 | a filter that only returns a constant makes rewriting panic with any rules |
| FilterTheorems.OtherDevicesKeepTheirDecision | pkg/util/ebpf/device.go:88-109 | frame: rules for concrete devices leave the decision on every request for another device as it was, also when blocks are replaced in the middle |
| FilterTheorems.NamingBlockMisses | pkg/util/ebpf/device.go:88-105 | a block found by the search decides no request about another device, whoever wrote it |
| FilterTheorems.RuleAppliesUnlessShadowed | pkg/util/ebpf/device.go:219-227 | the rewritten program gives a request that the added rule matches the rule's verdict, unless a clause before the rule's place decides it |
| FilterTheorems.DefaultAllowIsLost | pkg/util/ebpf/device.go:256-264 | after rules for other concrete devices, the decision on a request is kept exactly when the program denied by default or a clause matches the request; otherwise it turns from allowed to denied |
| FilterRuns.BlockNames | pkg/util/ebpf/device.go:88-105 | a built block is found again for exactly the rules with its type and with its numbers after the conversion to int32 |
| FilterRuns.SecondRequestChangesNothing | pkg/util/cgroupv2.go:191-206 | a list of rules for concrete devices, each device always by the same rule, applied to its own result gives the identical program exactly when all its numbers fit an int32 |
| FilterRuns.SecondApplicationIff | pkg/util/ebpf/device.go:82-109 | one rule applied twice is the same as once exactly when it has both numbers and they fit an int32 |
| FilterRuns.MergeAgainIff | pkg/util/ebpf/device.go:219-227 | the same on the group list, for any groups |
| FilterRoundTrip.MountAppends | pkg/util/ebpf/device.go:219-227 | rules for devices that the program does not name are added behind all others, in order |
| FilterRoundTrip.RulesArePlaced | pkg/util/ebpf/device.go:219-227 | for devices that the program does not name, a rule whose numbers fit takes the place of the added rule for its device, any other comes last, and blocks and clauses follow |
| FilterRoundTrip.SetRuleDecides | pkg/util/cgroupv2.go:187-200 | after rules are set on a program that may already have added rules, a request that one of them speaks of, by letters and numbers, gets its verdict, unless an old clause matches it |
| FilterRoundTrip.MountedRuleDecides | pkg/util/cgroupv2.go:187-200 | after mounting rules for concrete devices that the program does not name, each device always by the same rule, a request that a rule speaks of gets its verdict and one that none speaks of is denied, unless an old clause matches it |
| FilterRoundTrip.UnmountDenies | pkg/util/ebpf/device.go:88-109 | after unmounting, every added rule that still allows has numbers that do not fit, and so matches nothing |
| FilterRoundTrip.MountThenUnmount | pkg/util/ebpf/device.go:82-109 | round trip: mounting any rules for concrete devices that the default-deny program does not name, each device always by the same rule, and unmounting them, gives back the decision on every request |
| FilterRoundTrip.DenyOnly | pkg/util/ebpf/device.go:219-227 | unmounting devices that were never allowed changes no decision |
| FilterRoundTrip.OtherPermissionsUndoIff | pkg/util/ebpf/device.go:219-227 | a denial with other permissions gives back every decision exactly when the allow rule had all accesses or the denial has not |
| FilterSwap.Cgroup.RollBackRules | pkg/util/cgroupv2.go:242-272 | a rollback whose kernel call succeeds puts the old program in the new one's place, or takes the new one away; a failed one changes nothing |
| FilterSwap.LoadAttachCgroupDeviceFilter | pkg/util/cgroupv2.go:158-285 | only a single old program is exchanged, only for its own rewriting, and only if that differs or the program read back is annotated; every intermediate state is old, new or both; an error means a failed call, not exactly one program or a refused rule, and a panic a program too short to rewrite |
| FilterSwap.SwapNeverOpens | pkg/util/cgroupv2.go:232-284 | in every state of a swap something is attached, and an access the kernel allows is one that the old or the new program allows |
| FilterSwap.NoFilterAllowsAll | pkg/util/cgroupv2.go:255-271 | taking the new program away after the old one was detached leaves no program, and every access is allowed |
| FilterSwap.UndoRestores | pkg/util/cgroupv2.go:242-283 | the rollback restores exactly the old program with BPF_F_REPLACE and after a failed detach; after a completed detach it leaves none |
| FilterSwap.CanSkipEbpfError | pkg/util/cgroupv2.go:47-84 | errors may be passed over exactly when every rule allows and names r, w and m |
| FilterSwap.IsRWMIff | pkg/util/cgroupv2.go:71-84 | for an accepted rule, naming r, w and m means permitting every access |
| FilterSwap.SetDeviceRules | pkg/util/cgroupv2.go:23-43 | a success puts the rewritten program in force unless there are no rules or an error was passed over, which happens exactly for rules that are all full allows once the directory is open; an error has a cause; a panic comes exactly, unless a call fails first, from a program that is too short, and leaves the directory open; otherwise the closer closes the directory exactly when it is open |
| FilterSwap.SecondSettingLeavesKernelAlone | pkg/util/cgroupv2.go:202-207 | setting rules a second time, when they are in force and their numbers fit, attaches nothing, for a program read back without annotations |
| FilterSwap.AccessRoundTrip | pkg/util/cgroupv2.go:158-285 | a successful mount and a successful unmount of the same rules leave, on the attached programs, every access as it was, also when the mount passed over an error |
| SlavePods.KeyMeansItsPod | pkg/api/types.go:36-47 | the key made from a pod means the pod of that name exactly if it has the same UID |
| SlavePods.Cluster.Delete | pkg/server/mounter/util.go:147-166 | a pod with the name but another UID than the key's is left alone and the key reported as failed, no other pod is touched, and success means that no pod of that name is left |
| SlavePods.Cluster.GarbageCollect | pkg/server/mounter/util.go:140-168 | a pod stays when every key for its name has another UID; every key not reported as failed has no pod left; without failures exactly the pods of the keys are gone, and unless a call fails only keys for another pod of the name are reported |
| SlavePods.Poll | pkg/server/mounter/util.go:177-231 | the polling condition adds the ready and the skipped pods of the round to the lists, or empties them and asks to be called again for the first key that has to wait, or fails for the first key that is neither |
| SlavePods.WaitSupportPodsReady | pkg/server/mounter/util.go:170-234 | both lists are empty at the start of every round; the wait succeeds exactly when some round has all keys ready or skipped and all rounds before end in waiting, and then reports that round |
| SlavePods.GivesUpOrSettles | pkg/server/mounter/util.go:177-232 | when all rounds wait, or the first that does not stops with an error, no round settles |
| SlavePods.ChosenPartition | pkg/server/mounter/util.go:195-230 | the ready and the skipped pods of a successful round are together the pods of the keys, each once |
| SlavePods.ChosenInOrder | pkg/server/mounter/util.go:195-230 | each of the two lists is in key order |
| SlavePods.ChosenComesFrom | pkg/server/mounter/util.go:195-230 | every reported pod has the name of some key and the UID found under it, and was judged with the status of its list |
| DeviceFiles.Container.CreateDeviceFiles | pkg/server/mounter/util.go:403-423 | existing files stay as they are; a new one has the type, major and minor of an allowed entry for its path and mode 0666; and unless a call failed every allowed entry has a file |
| DeviceFiles.Container.DeleteDeviceFiles | pkg/server/mounter/util.go:425-445 | only files of entries that are not allowed go, and unless a call failed all of them do |
| DeviceFiles.Container.RollBackCreate | pkg/server/mounter/util.go:412-421 | removes every listed path, created or not |
| DeviceFiles.Container.RollBackDelete | pkg/server/mounter/util.go:434-443 | creates every listed path that is missing, from its first entry |
| DeviceFiles.CreateUndoneIff | pkg/server/mounter/util.go:403-423 | whichever creations succeeded, the rollback restores the files exactly when none of the listed paths existed before |
| DeviceFiles.DeleteUndone | pkg/server/mounter/util.go:425-445 | whichever removals succeeded, the rollback restores the files if every listed path existed and was as listed |
| DeviceFiles.DeleteUndoneIff | pkg/server/mounter/util.go:425-445 | after removals that all succeeded it does so exactly in that case |
| MountTransaction.CreateSlavePods | pkg/server/mounter/server.go:163-176 | the keys are those of exactly the pods that were added, one for each template up to the first failure |
| MountTransaction.ReadyAndSkippedSplit | pkg/server/mounter/server.go:203-217 | ready and skipped pods are disjoint and together the created ones |
| MountTransaction.AwaitPods | pkg/server/mounter/server.go:207-217 | succeeds exactly when the replies let the pods get ready in time and at least one is ready; the created pods are then shared out between ready and skipped, as judged in one round |
| MountTransaction.PreparePods | pkg/server/mounter/server.go:163-217 | fails only for a failed call, no templates, a name that is taken or pods that do not get ready |
| MountTransaction.InForceDecides | pkg/server/mounter/server.go:241-246 | when the rules of a device list are in force, every request that a listed device's rule speaks of is allowed exactly as it says, unless an old clause matches |
| MountTransaction.SettingHasCause | pkg/server/mounter/server.go:241-253 | setting the rules fails only for a failed call, not exactly one filter or a refused device, and a success that passed over no error decides as listed |
| MountTransaction.MountContainer | pkg/server/mounter/server.go:219-270 | the plugin's answers, the rules, the files and the plugin's actions in this order: what each end leaves of filter, files and directory, and its cause |
| MountTransaction.RulesAreUndone | pkg/server/mounter/server.go:180-196 | a filter rollback that succeeds leaves the original filter, or none after a finished swap without BPF_F_REPLACE |
| MountTransaction.RollBackMount | pkg/server/mounter/server.go:180-196 | the deferred function restores filter, files and pods, as far as its calls succeed, from every point where the body can stop |
| MountTransaction.MountDevice | pkg/server/mounter/server.go:163-284 | atomicity: a failed run ends with the old filter, the old files exactly when they were untouched or the listed paths were absent, and the old pods; a successful one keeps exactly the old and the ready pods, opens every listed device that it allows to the accesses of its letters, and creates the listed files; errors and panics have a cause, so that a run succeeds when all calls and answers do; the filters only pass through states of the swap; the directory is not left open; no earlier pod is touched; a panic, of the plugin or from a filter that is too short, leaves all created pods, and what it leaves of filter, files and directory is stated for each |
| MountTransaction.RollBackUnmount | pkg/server/mounter/server.go:418-432 | the deferred function restores files that were as listed, and the filter |
| MountTransaction.UnMountDevice | pkg/server/mounter/server.go:402-463 | a failed run deletes no pod, restores filter and files, and has a cause; a successful one closes every listed device that is denied, also where it was added by a mount, removes the files and exactly the pods that the cleanup list means, and spares a pod that has another UID; a panic deletes no pod, and either comes from a filter that is too short and leaves only the directory open, or from the plugin's actions and leaves the new filter and files |
| MountTransaction.MountAndUnmount | pkg/server/mounter/server.go:163-463 | a mount and an unmount of the same devices that both succeed leave every access, the files and the pods as they were, the files and pods as far as no removal failed |
| CgroupV1.MergeRules | pkg/util/cgroup.go:416-431 | the list becomes the request followed by the present rules for devices that it does not mention |
| CgroupV1.GrantedIff | pkg/util/cgroup.go:432-437 | an access is granted to a device exactly when some rule for it allows the access and no later one for it denies it |
| CgroupV1.MergedGrants | pkg/util/cgroup.go:416-437 | the merged list grants the request on every requested device, and what was granted before on all others |
| CgroupV1.Controller.Transition | pkg/util/cgroup.go:441-470 | the writes, removals first, bring every device's permissions to the target; if one fails, every device keeps what it had and the target has, and has nothing that neither grants |
| CgroupV1.Controller.SetDeviceRules | pkg/util/cgroup.go:401-489 | on success every device of the request has exactly the accesses that the request allows last, and every other its old entry; without a failed call it fails only for an allow rule without accesses; however it ends, every device is between its old and its wanted permissions |
| CgroupV1.Controller.RollBack | pkg/util/cgroup.go:446-460 | a completed rollback gives its old permissions to every device that had an entry, and leaves the others as they are; it completes unless a call fails, and then stops between the two |
| CgroupV1.RollBackRestoresIff | pkg/util/cgroup.go:446-460 | after a successful request, that restores all permissions exactly when the request grants nothing to a device without an entry |
| CgroupV1.PartialRollBackRestores | pkg/util/cgroup.go:446-470 | such a request is undone by a completed rollback also when its writes stopped half-way |
| CgroupV1.SetAndRollBack | pkg/util/cgroup.go:401-489 | both, for the setter and the rollback that it returns, whether it succeeded or failed |
| CgroupV1.DenialsGrantNothing | pkg/util/cgroup.go:432-437 | a list of denials grants nothing to any device |
| CgroupV1.DenyAndRollBack | pkg/util/cgroup.go:401-489 | a request that only denies is undone exactly, also when it failed half-way |
| VgpuRegion.QuantitiesAre | pkg/devices/volcano/vgpu/device_info.go:330-331 | memory is the MiB times 1048576 and cores are as given, modulo 2^64, so that a negative quantity becomes a number just below 2^64 |
| VgpuRegion.StoredNameIsFoundIff | pkg/devices/volcano/vgpu/util.go:340-347 | a stored name is followed by zero bytes only, and is what the table is searched by exactly when it has 40 bytes |
| VgpuRegion.SharedRegion.UpdateKnown | pkg/devices/volcano/vgpu/device_info.go:327-338 | the first live slot of every listed device gets its limits, and the remaining map holds exactly the devices that are not live |
| VgpuRegion.SharedRegion.AppendNew | pkg/devices/volcano/vgpu/device_info.go:339-348 | in any map order every device gets its own slot behind the live ones; an index panic happens exactly when the table is too small or a name too long |
| VgpuRegion.SharedRegion.Attach | pkg/devices/volcano/vgpu/device_info.go:326-350 | live devices are updated in place, all others are stored behind them, and it panics exactly when these do not fit into the 16 slots or a name is too long; with distinct UUIDs every listed device then has a slot with its memory in bytes and its cores |
| VgpuRegion.AttachedOnce | pkg/devices/volcano/vgpu/device_info.go:326-350 | after attaching to a table with distinct UUIDs they are still distinct, and every device has exactly one slot, with its memory in bytes and its cores |
| VgpuRegion.SharedRegion.Detach | pkg/devices/volcano/vgpu/device_info.go:478-489 | UUID and limits of the removed slots become zero where they are, all other slots stay, and the live count drops by the number of the removed |
| VgpuRegion.DetachExactIff | pkg/devices/volcano/vgpu/device_info.go:478-489 | the live prefix then holds exactly the survivors, in order, if and only if the removed slots were a suffix of it |
| VgpuRegion.DetachUndoesAttachments | pkg/devices/volcano/vgpu/device_info.go:326-350 | any sequence of attachments of fresh devices, in any map orders, followed by one detachment of them all, restores count, UUIDs and limits |
| VgpuRegion.SharedRegion.AddResources | pkg/devices/volcano/vgpu/device_info.go:261-275 | every live slot of a listed device grows by its memory in bytes and its cores, modulo 2^64, and the others stay |
| VgpuRegion.SharedRegion.SubResources | pkg/devices/volcano/vgpu/device_info.go:277-291 | every live slot of a listed device shrinks by its memory in bytes and its cores, modulo 2^64, and the others stay |
| VgpuRegion.ReducedUndoesExpanded | pkg/devices/volcano/vgpu/device_info.go:261-291 | taking back an expansion restores every limit, also when an addition wrapped around |
| DeviceCodec.SplitJoin | pkg/devices/volcano/vgpu/util.go:209-225 | splitting undoes joining for parts without the separator |
| DeviceCodec.ParseFormat | pkg/devices/volcano/vgpu/util.go:226-233 | parsing with 32 bits gives back every int32, and clamps larger unsigned values |
| DeviceCodec.ParseIsDecimal | pkg/devices/volcano/vgpu/util.go:226-233 | each further digit makes ten times the number plus the digit |
| DeviceCodec.ParseSigns | pkg/devices/volcano/vgpu/util.go:226-233 | a minus sign negates the number and a plus sign changes nothing |
| DeviceCodec.ParseJunk | pkg/devices/volcano/vgpu/util.go:226-233 | a field that is empty or has another character behind its digits counts as zero |
| DeviceCodec.DecodesFields | pkg/devices/volcano/vgpu/util.go:225-234 | five fields between commas are container index, UUID, type, memory and cores, in this order |
| DeviceCodec.DecodesSeparators | pkg/devices/volcano/vgpu/util.go:204-238 | a colon adds the devices of the next piece to the container, and a semicolon starts the next container |
| DeviceCodec.TrailingColonIsSkipped | pkg/devices/volcano/vgpu/util.go:223-224 | a colon behind the last device changes nothing |
| DeviceCodec.DecodeContainerDevices | pkg/devices/volcano/vgpu/util.go:216-238 | the devices of all pieces with a comma, in order; a piece with too few fields is an index panic |
| DeviceCodec.DecodePodDevices | pkg/devices/volcano/vgpu/util.go:204-214 | one list for each part, in order, and none for the empty annotation |
| DeviceCodec.PodRoundTrip | pkg/devices/volcano/vgpu/util.go:204-238 | decoding any rendered list of device lists gives it back up to clamping of the container index, except a single empty list |
| DeviceCodec.DecodeUndoesRenderIff | pkg/devices/volcano/vgpu/util.go:204-238 | it comes back unchanged exactly when it is not a single empty list and every container index has 31 bits |
| DeviceCodec.GetPodDevMap | pkg/devices/volcano/vgpu/util.go:298-307 | every UUID leads to the last device in the annotation that carries it, and no other UUID is a key |
| GpuCollector.NvidiaGPU.ResetState | pkg/devices/nvidia/gpu/collector.go:228-233 | the GPU is free and has no owner |
| GpuCollector.Collector.GetGPUByUUID | pkg/devices/nvidia/gpu/collector.go:175-182 | a listed GPU with the UUID, and an error exactly when there is none |
| GpuCollector.Collector.ResetGPUStatus | pkg/devices/nvidia/gpu/collector.go:184-188 | the index agrees with an empty listing |
| GpuCollector.Collector.Assign | pkg/devices/nvidia/gpu/collector.go:125-149 | one mention keeps UUIDs distinct and the index in agreement with the mentions so far |
| GpuCollector.KnownIs | pkg/devices/nvidia/gpu/collector.go:125-139 | a UUID is known in the end exactly when it was before, or is mentioned and described by the driver |
| GpuCollector.ClaimsAreMentions | pkg/devices/nvidia/gpu/collector.go:117-153 | in the listing, a UUID belongs to the container of its last mention in an entry for the resource, with its pod's name and namespace, and to none without a mention |
| GpuCollector.ListedIff | pkg/devices/nvidia/gpu/collector.go:125-139 | a GPU is listed in the end exactly when it was before, or the listing mentions it and the driver knows it |
| GpuCollector.Collector.UpdateGPUStatus | pkg/devices/nvidia/gpu/collector.go:100-156 | UUIDs stay distinct; every GPU is allocated to the pod name, namespace and container of its last mention in the listing, and free without one; listed are the old ones and those that are mentioned and known to the driver; a failed listing changes nothing |
| GpuCollector.Collector.GetPodGPUResources | pkg/devices/nvidia/gpu/collector.go:71-83 | for a named pod, exactly the listed GPUs whose last mention in the listing is by a container of that pod, in index order |
| GpuCollector.OwnedIsMentionedLast | pkg/devices/nvidia/gpu/collector.go:71-156 | a named pod owns a GPU exactly when one of its containers mentions it and no later mention follows |
| NodeLabels.LabelKeyIs | pkg/watchdog/node_labeller.go:43-43 | the key of a device type is scheduling.device-mounter.io/ and the type with its capitals in lower case |
| NodeLabels.ContainsDeviceTypes | pkg/watchdog/node_labeller.go:41-48 | true exactly for the label key of some device type |
| NodeLabels.ReconciledIs | pkg/watchdog/node_labeller.go:117-167 | reconciled labels are, key by key, "true" for the device types, absent for other keys under the prefix, and as before for the rest |
| NodeLabels.UpdateLabels | pkg/watchdog/node_labeller.go:117-167 | the patch adds missing labels, removes unwanted prefixed ones once, replaces wrong values; applied to a node with labels it reconciles them, it is empty for reconciled labels, and without labels it is applicable exactly when no type is wanted |
| NodeLabels.PatchReconciles | pkg/watchdog/node_labeller.go:150-167 | for a node with labels, and keys without tilde, every operation is applicable, and afterwards exactly the wanted prefixed labels are there, set to "true", and no other label has changed |
| NodeLabels.ReconciledNeedsNoPatch | pkg/watchdog/node_labeller.go:117-168 | the next patch of such a node is empty |
| NodeLabels.EscapeIsFaithfulIff | pkg/watchdog/node_labeller.go:151-163 | the escaped key names the label, by section 4 of RFC 6901, exactly when it holds no tilde |
| NodeLabels.NoLabelsObjectIff | pkg/watchdog/node_labeller.go:150-167 | on a node without labels the patch is applicable exactly when no type is wanted |
| NodeLabels.CleanupLabels | pkg/watchdog/node_labeller.go:83-99 | the patch removes every label under the prefix once, and leaves exactly the others when applied |
| NodeLabels.CleanupRemovesAll | pkg/watchdog/node_labeller.go:83-99 | applying it takes away the labels under the prefix, and no others |

## Left out

- FilterSwap.LoadAttachCgroupDeviceFilter: the symbols and line information that the library may attach to instructions are one flag per program: for equal instructions of an annotated program the comparison goes either way. The library is not part of this model.
- FilterSwap.LoadAttachCgroupDeviceFilter: the list of attached programs and the flag for BPF_F_REPLACE are given; how the kernel is asked for them is not modelled, nor are programs that a security module hides.
- FilterSwap.SetDeviceRules: the device rules are not nil and `SkipDevices` is false, as the mount server builds them; nil rules are handled in the rewriter.
- FilterRuns.SecondRequestChangesNothing: is stated for rules with both numbers; SecondApplicationIff says what happens to the others one by one.
- MountTransaction.MountDevice: starts with the creation of slave pods; the checks before it only read. The plugin's status checks, device list and own actions may succeed, fail or panic arbitrarily, paths and process ids may be missing; no one else changes the pods, the filter or the files meanwhile, and the lister sees the pods as they are.
- MountTransaction.MountDevice: a failed run without BPF_F_REPLACE may leave no filter; see FilterSwap.UndoRestores.
- MountTransaction.MountDevice: after a panic nothing is rolled back; the contract says what is left behind.
- MountTransaction.UnMountDevice: restores only files that were as listed; DeviceFiles.DeleteUndoneIff shows why.
- SlavePods.WaitSupportPodsReady: sees finitely many rounds, after which its context is cancelled; retries of one lookup or deletion count as one call.
- VgpuRegion.AttachedOnce: is stated for UUIDs of 40 bytes, the length under which a slot is looked up; Attach says what is stored for all names.
- CgroupV1.Controller.SetDeviceRules: the emulator is not part of the repository; it is a map of permissions in whitelist mode that may refuse any rule. Blacklist mode and conflicts with wildcard entries are not modelled.
- CgroupV1.Controller.SetDeviceRules: is not composed with the mount transaction, which uses the cgroup v2 setter.
- Disruption budgets, events, killing of processes, the gRPC and HTTP servers, informers and leader plumbing.
- The effects of the plugins' own actions on a mount, except those on the shared vGPU region.
- Memory mapping and locking of the shared vGPU region, and its fields besides count, UUIDs and limits.
- The rendering of the vGPU annotation, which the scheduler does; the rendering here joins containers by `;`, devices by `:` and fields by `,`.
- UUIDs and label keys are ASCII. Label keys hold no tilde, as Kubernetes requires.
- The enumeration of GPUs by the driver is a map from UUIDs to minor numbers that may lack any UUID.
- The controller's caches, TLS and authentication settings, file watching and version checks.
