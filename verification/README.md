# Sweetcomb: what the change callbacks, the init registry and the recovery protocol do

Sweetcomb turns sysrepo (NETCONF/YANG) change streams into operations on the VOM object
database, which drives VPP. This project models the parts of it that hold state, loops or
arithmetic, and proves what they do for every input, every run and every interleaving.
`dafny verify dfyconfig.toml` checks all of it.

| file | what it models |
|---|---|
| `InitRun.dfy` | a run of the init functions as a depth-first search over their dependencies, on values |
| `InitTrace.dfy` | the same run event by event, each decided by the log so far |
| `InitRegistry.dfy` | the intrusive linked list: registration, removal, and the runs that walk it |
| `HealthCheck.dfy` | plugin init and health check as a state machine, interleaved with crashes, restarts and configuration changes |
| `VppPid.dfy` | the match of a process command line in a 14-byte buffer |
| `Text.dfy`, `SysUtil.dfy` | decimal text, `std::stoi`, dotted quads, class `prefix`, `netmask_to_plen` |
| `Sysrepo.dfy`, `ObjectStore.dfy` | return codes, events and operations; VOM's object manager and its keys |
| `AddressChanges.dfy`, `AddressReadings.dfy` | the address change-stream interpreter, and what it calls, read off the records |
| `AddressEffects.dfy`, `AddressOrder.dfy` | its effect on the store: net, and exact where order matters |
| `AddressBatches.dfy`, `AddressLaws.dfy` | its effect per batch and across batches |
| `InterfaceChanges.dfy` | the IETF and the OpenConfig interface callbacks |
| `NatChanges.dfy` | the NAT mapping builder, its callback and the mapping table |
| `InterfaceCommits.dfy` | commits through the three IETF callbacks: an interface created with its addresses, deleted with them, and both in turn |
| `PluginRuns.dfy` | whole runs of all callbacks over one store |

Methods follow the code (heap list, objects with fields, loops over the records) and are
proved equal to functions on values; the lemmas are about those functions. Every lemma
switches off Dafny's automatic induction: inductions are written out.

## What turned out differently from what the code says about itself

- A failed init cannot be repaired by running it again: later runs skip what failed and may
  return OK (`InitRun.CompletedIffAllWork`).
- The health check keeps "recorded process implies connected and configured" exactly as long
  as no check that failed to read the pid disconnects the recorded process and VPP refuses
  no change that VOM keeps (`HealthCheck.Safety`, `MisreadBreaksSync`, `RefusalBreaksSync`).
  A crash of VPP during init, between connecting and recording the pid, breaks it from the
  start (`InitExact`); health checks do not notice until VPP crashes again or a pid read
  fails (`StuckPersists`), and a failed read then repairs it (`MisreadRepairs`).
- Address batches also bind each new address with the length of the block before it. A
  batch that mixes creations and deletions over several interfaces acts on the wrong
  interface (`AddressLaws.Misfire`, exactly when: `SideExact`), which does harm only
  sometimes (exactly when: `AsAsked`, `HarmlessMisfire`).
- An address moved from one interface to another is lost again if another is created there
  after it (`AddressOrder.MovedAddress`). If a batch deletes the last object that kept an
  interface alive, the creations after it are lost (`AddressLaws.NothingLost`).
- Changing only a prefix length or netmask, which the file header promises, or replacing one
  by the other, is accepted and lost (`AddressLaws.ModifiedLengthsAreLost`,
  `RespelledLengthIsLost`).
- Deleting an interface together with its addresses empties the store, but may report an
  error: the interface's own object goes first, and each address is removed twice, so the
  second removal of the last one may no longer find its interface
  (`InterfaceCommits.DeletionCommitInverts`; for two /24 addresses on an interface that
  nothing else refers to it does not, `OneFamilyCode`).
- One commit creates at most one interface, the last one named, even if that record is a
  deletion (`InterfaceChanges.CommitCreatesLastName`).
- A NAT batch acts on its last index only (`NatChanges.BatchHandlesLastIndex`).
- `nat_static_builder::build` does not do what the comment above it documents, because
  `prefix::empty` is never true (`NatChanges.BuildExact`).
- `netmask_to_plen` rounds up to whole octets (`SysUtil.MaskLength`).

## Assumptions

- VOM's object manager maps a string key to a set of objects: `write` inserts under the key
  and then pushes to VPP, whose answer may depend on anything (a function parameter);
  `remove` drops the key. A write that VPP refuses stays in the database. An interface's key
  is its name, and `interface::find` succeeds while a stored object refers to it. What
  `OM::populate` finds at start is exactly what VPP runs, and is filed under the key "boot".
- Within a commit all three callbacks run, in order of priority, whatever the earlier ones
  return.
- The address library reads back what it prints, prints no underscore, and does not read the
  empty text (`SysUtil.Sound`; `SysUtil.SoundCodecExists` shows these are consistent). IPv4
  text is the dotted quad without leading zeros.
- The flags `create`, `remove` and `modify` and the builder's `m_state`, which the code
  leaves uninitialised, start as false.
- Pids are never reused, one VPP runs at a time, VOM survives VPP, and a replay over a live
  connection is accepted and leaves VPP with exactly VOM's configuration. A single change may
  be refused.
- Init functions are registered once each, do not edit the list, and consist of calls to
  their dependencies followed by their own work; what they return is fixed per function,
  which loses nothing because each is entered at most once.
- The host is little-endian.
- A batch that kills the process (the null dereference of the OpenConfig callback, an
  uncaught exception of a NAT setter) ends a run.

## Model

| member | source | states |
|---|---|---|
| InitRun.BodyKeeps | src/plugins/sc_init.h:78-91 | a call re-entered anywhere in a run leaves the set of functions that are entered and not returned as it found it, keeps every function's entry and return unique, and, starting from a log without errors, returns one exactly when one was logged |
| InitRun.CallEachKeeps | src/plugins/sc_init.c:23-32 | the same for a series of calls; when it returns OK every registered function in the series has been called |
| InitRun.EnteredAtMostOnce | src/plugins/sc_init.c:18-34 | over any number of runs, on any dependency graph, cyclic ones included, no function is entered twice and each that was entered has returned |
| InitRun.SuccessIsFinal | src/plugins/sc_init.c:23-33 | after a run that returned OK another run calls nothing and returns OK |
| InitRun.RunOkIffAllWork | src/plugins/sc_init.c:18-34 | a run from fresh flags returns OK if and only if the own work of every registered function succeeds, on every dependency graph, cyclic ones included |
| InitRun.CompletedIffAllWork | src/plugins/sc_init.c:18-34 | after any positive number of runs, every registered function has completed exactly once if and only if the own work of each of them succeeds |
| InitRun.OrderedIffAcyclic | src/plugins/sc_init.h:77-91 | when the own work of every registered function succeeds, every registered dependency completes before its dependent if and only if the registered dependency graph is acyclic |
| InitRun.ExitRunCompletes | src/plugins/sc_init.c:36-47 | the exit run from fresh flags runs every registered exit function exactly once |
| InitTrace.RunIsTrace | src/plugins/sc_init.c:18-34 | a run of the recursive functions produces its log event by event: after a failure every function on the stack returns it, otherwise the innermost calls its first registered and uncalled dependency or does its work and returns, and with nothing on the stack the first uncalled function of the list is next; it ends where nothing is next, with the last failure as its code |
| InitTrace.TraceUnique | src/plugins/sc_init.c:18-34 | that leaves no choice of log |
| InitTrace.RunsAreTraces | src/plugins/sc_init.c:18-34 | the same for each of any number of runs in one process |
| InitTrace.FailurePropagates | src/plugins/sc_init.h:85-88 | after a failing return there are only returns with its code, no function is entered, and the run returns that code |
| InitTrace.FailureIsWork | src/plugins/sc_init.c:27-30 | the code is what the own work of the first failing function returns, after all its registered dependencies were called |
| InitTrace.CalledUpToFailure | src/plugins/sc_init.c:23-33 | of functions that do not depend on each other those up to the first that fails are called, and no other |
| InitRegistry.PluginMain.Register | src/plugins/sc_init.h:42-52 | the node becomes the head of the heap list, not called, and the rest of the list and its flags stay |
| InitRegistry.PluginMain.Unregister | src/plugins/sc_init.h:53-70 | exactly the function's node leaves the list, wherever it is; order and flags of the others stay; an unlisted function changes nothing |
| InitRegistry.PluginMain.CallInitFunction | src/plugins/sc_init.h:78-91 | the list walk of the dependency macro performs the search step of the value model and keeps the list |
| InitRegistry.PluginMain.CallAllInitFunction | src/plugins/sc_init.c:18-34 | the walk over the heap list, with re-entrant calls changing flags behind it, is the run of the value model |
| InitRegistry.PluginMain.Invoke | src/plugins/sc_init.h:23-24 | an init function calls its dependencies in order, stops at the first error, then does its work |
| InitRegistry.LiveIsLastRegistered | src/plugins/sc_init.h:42-70 | after any allowed sequence of registrations and removals the list holds exactly the functions whose last operation is a registration |
| InitRegistry.LiveIsNewestFirst | src/plugins/sc_init.h:48-51 | and holds them most recently registered first |
| InitRegistry.LiveNoDup | src/plugins/sc_init.h:42-70 | and none of them twice |
| InitRegistry.Replay | src/plugins/sc_init.h:42-70 | the same operations on a heap list leave a well-formed, null-terminated list of exactly those functions |
| HealthCheck.Safety | src/plugins/sc_plugins.c:165-191 | in every interleaving after an init without a crash, "the live process, if it is the recorded one, is connected and runs VOM's configuration" holds at every state if and only if no check that failed to read the pid disconnects the recorded process, VPP refuses no change while recorded, and no process is recorded that differs from VOM by an earlier refusal |
| HealthCheck.SafetyAllTaken | src/plugins/sc_plugins.c:165-191 | where VPP refuses nothing, the first of these conditions alone decides |
| HealthCheck.MisreadBreaksSync | src/plugins/sc_plugins.c:168-177 | a run that breaks it: a failed pid read with no crash at all disconnects a process still recorded as configured |
| HealthCheck.RefusalBreaksSync | src/plugins/sc_plugins.c:168-171 | another: one refused change leaves a connected and recorded process unlike VOM |
| HealthCheck.StepKeepsLinked | src/plugins/sc_plugins.c:165-191 | the invariant every step keeps, refused changes included, which ties each phase of the check to what holds of the process it read |
| HealthCheck.StepKeepsInv | src/plugins/sc_plugins.c:165-191 | and the one on configurations, which every step but a refused change keeps |
| HealthCheck.InitExact | src/plugins/sc_plugins.c:116-150 | when init records a live pid, that process is connected if and only if VPP did not crash between the connection and the recording, and configured too if it refused nothing until then |
| HealthCheck.InitOutcome | src/plugins/sc_plugins.c:145-150 | init records the live pid, -ESRCH or the read error, and fails if and only if that is negative |
| HealthCheck.FailedInitIsFinal | src/plugins/sc_plugins.c:147-148 | after a failed init nothing of the plugin happens, whatever VPP does |
| HealthCheck.AnythingBetween | src/plugins/sc_plugins.c:165-191 | crashes, restarts and changes, accepted or refused, can come between any two steps |
| HealthCheck.OnlyBy | src/plugins/sc_plugins.c:165-191 | VPP's configuration, VOM, the connection and the recorded pid each change by the steps that should change them only, and VPP's over a live connection only |
| HealthCheck.StepEffects | src/plugins/sc_plugins.c:183-186 | what a crash, a restart and a change do to VPP and VOM |
| HealthCheck.StuckPersists | src/plugins/sc_plugins.c:168-171 | a recorded process without a connection, as such a crash leaves it, stays so through all health checks and configuration changes until VPP crashes again or a pid read fails |
| HealthCheck.MisreadRepairs | src/plugins/sc_plugins.c:173-188 | a check that fails to read the pid then connects to the process and configures it |
| HealthCheck.Convergence | src/plugins/sc_plugins.c:168-190 | if one process stays up throughout a check then, whatever came before, the check ends with it recorded; with it connected and configured if it was so when recorded before, or was not recorded; and not, if it was recorded without a connection. Where VPP refused nothing before, this is an if and only if |
| HealthCheck.CheckCanFinish | src/plugins/sc_plugins.c:170-190 | a check is never stuck: from any phase its own steps take it back to idle while VPP is up |
| HealthCheck.Plugin.HealthCheckCb | src/plugins/sc_plugins.c:165-191 | the callback as a program, with crashes, restarts, refused connects and changes between any two of its steps: its own steps are those of one check in order; it ends with the pid it read recorded, and in sync unless VPP crashed or refused something after the connection |
| VppPid.MatchCmdline | src/plugins/sc_plugins.c:75-94 | the in-place buffer algorithm answers whether the line, behind its leading spaces, begins with the word "vpp" or "/usr/bin/vpp" as far as 13 bytes reach; no write leaves the 14-byte buffer |
| VppPid.NamesWithoutBlanks | src/plugins/sc_plugins.c:35-94 | without leading spaces that is: the line is one of the two, or one of them followed by a space or a NUL and anything |
| VppPid.NamesBehindBlanks | src/plugins/sc_plugins.c:75-94 | and the exact answer behind any number of spaces |
| VppPid.Strtok | src/plugins/sc_plugins.c:87-91 | the string left at the returned position is the first space-delimited token |
| VppPid.PrefixMatchExact | src/plugins/sc_plugins.c:52-94 | matching on 13 bytes agrees with matching on the whole line except for four families of lines with leading spaces, and those exactly |
| VppPid.NoLeadingSpace | src/plugins/sc_plugins.c:75-94 | it agrees on every line that does not start with a space |
| SysUtil.PrefixRoundTrip | src/plugins/sys_util.cpp:15-47 | parsing a printed prefix gives it back, for every length the field holds and any address codec that round-trips, even one whose text contains a slash |
| SysUtil.PrefixRoundTripV4 | src/plugins/sys_util.cpp:15-47 | in particular for every dotted-quad IPv4 address |
| Text.StoiReads | src/plugins/sys_util.cpp:23 | a number is read behind blanks and an optional sign, up to the first character that is no digit, if it fits an `int` |
| Text.StoiNeedsDigit | src/plugins/sys_util.cpp:23 | and nothing is read where no digit follows |
| SysUtil.PrefixReads | src/plugins/sys_util.cpp:15-24 | how any text is read: the address before the last slash, and the possibly signed number that the rest begins with, reduced to 16 bits |
| SysUtil.PrefixTextRoundTrip | src/plugins/sys_util.cpp:15-47 | a text parses and prints back as itself exactly when it is canonical |
| SysUtil.QuadRoundTrip | src/plugins/sys_util.cpp:22 | every IPv4 address reads back from its dotted quad |
| SysUtil.NeverEmpty | src/plugins/sys_util.cpp:42-59 | no prefix value, default-constructed ones included, is ever empty |
| SysUtil.NetmaskToPlen | src/plugins/sys_util.h:80-105 | the shift loop terminates with eight times the index of the last non-zero octet plus that octet's bit length, within 0 to 32 |
| SysUtil.MaskLength | src/plugins/sys_util.h:77-105 | on the contiguous mask of length p that is p rounded up to a multiple of eight, so p itself exactly when eight divides p |
| ObjectStore.L3KeyInjective | src/plugins/ietf/ietf_interface.cpp:227 | two bindings share a key only if interface and prefix are the same, whatever characters the names hold |
| ObjectStore.KeyText | src/plugins/ietf/ietf_interface.cpp:227 | 192.168.0.1/24 on eth0 is filed under "l3_eth0_192.168.0.1/24" |
| ObjectStore.KeysDisjoint | src/plugins/ietf/ietf_interface.cpp:185-236 | binding keys, NAT keys, the boot key and clean interface names never coincide |
| AddressChanges.ParseAddress | src/plugins/ietf/ietf_interface.cpp:248-268 | the leaf parser's effect on its two reference parameters, exceptions included, is that of its value model |
| AddressReadings.LeafShows | src/plugins/ietf/ietf_interface.cpp:248-268 | and that is: a list entry clears the address, an ip sets it, a prefix length sets the length to its value, a netmask to the bits up to its highest, and a missing value or an unreadable netmask throws and sets nothing |
| AddressChanges.ConfigAddRemove | src/plugins/ietf/ietf_interface.cpp:209-246 | one add or remove: unknown interface, unparsable address, refused write and success |
| AddressChanges.AddressChangeCb | src/plugins/ietf/ietf_interface.cpp:275-369 | the callback's store and code are those of the calls that the accumulators fire, which do not depend on the store |
| AddressReadings.CallsAreExpected | src/plugins/ietf/ietf_interface.cpp:311-357 | for every stream of records, which calls those are, in order: after each record the removal of the address and length last shown on the old side, then the addition of those last shown on the new one, for that record's interface, up to the first record without one |
| AddressReadings.ByEvent | src/plugins/ietf/ietf_interface.cpp:298-321 | applied and aborted commits and failed iterators do nothing, with the code for each; a record without interface key makes the code an error |
| AddressEffects.NetEffect | src/plugins/ietf/ietf_interface.cpp:349-357 | for any series of calls in which nothing is both added and removed, repetition does not matter: the store is the old one minus the removed bindings plus the added ones, except that all additions on an interface are lost if the removals before the first of them take its last referent |
| AddressEffects.LastCallWins | src/plugins/ietf/ietf_interface.cpp:349-357 | for any series of calls on any store, the exact contents of every key: decided by the last call for it that found its interface, with what was there before kept unless a removal came by, and unchanged if there is none |
| AddressOrder.ExactEffect | src/plugins/ietf/ietf_interface.cpp:209-246 | for any series of calls on a tidy store, bindings both added and removed included, from the list of calls alone: a binding is there afterwards if and only if something kept its interface alive at every point and the last call for it added it, or there was none and it was there before; all else stays |
| AddressOrder.SettledUnique | src/plugins/ietf/ietf_interface.cpp:209-246 | that determines the store |
| AddressOrder.ExactCode | src/plugins/ietf/ietf_interface.cpp:209-246 | and the code: an invalid argument if nothing kept the last call's interface alive, a failure if its address does not parse or VPP refuses the addition, OK otherwise |
| AddressOrder.RootedBinding | src/plugins/ietf/ietf_interface.cpp:217-236 | on any store, for a binding on an interface that outlives all removals, the last call for it decides, and the exact contents of its key |
| AddressOrder.MovedAddress | src/plugins/ietf/ietf_interface.cpp:311-359 | an address deleted on one interface and created on another is gone again at the end if and only if a later block creates another address on the new interface |
| AddressBatches.StreamCalls | src/plugins/ietf/ietf_interface.cpp:324-357 | the set of calls a batch fires, stale lengths and repeated calls for later blocks included |
| AddressBatches.BatchEffect | src/plugins/ietf/ietf_interface.cpp:311-359 | the exact store after a batch in which nothing is both added and removed, over any interfaces in any interleaving, interfaces that lose their last referent on the way included |
| AddressBatches.CreatedBatch | src/plugins/ietf/ietf_interface.cpp:311-359 | an all-created batch adds each address with its own length and with the length of the block before it, 0 for the first, and changes nothing else |
| AddressReadings.CreatedExactly | src/plugins/ietf/ietf_interface.cpp:256-359 | in terms of the blocks alone: after an all-created batch a binding is under its key if and only if it was before, or its interface exists and a block has its address and its length, or has its address and the block before its length |
| AddressReadings.CreatedLength | src/plugins/ietf/ietf_interface.cpp:261-266 | so each address is bound with the prefix length given, or with the length of its contiguous netmask rounded up to whole octets |
| AddressBatches.DeletedBatch | src/plugins/ietf/ietf_interface.cpp:311-359 | an all-deleted batch removes exactly the same keys, also when it takes the last referent of an interface on the way |
| AddressBatches.TidyIsTraceable | src/plugins/ietf/ietf_interface.cpp:227-236 | where every binding key holds its own binding and nothing else, every series of removals can be traced, whatever keeps the interfaces alive |
| AddressLaws.SideExact | src/plugins/ietf/ietf_interface.cpp:316-357 | with distinct addresses, one side of a mixed batch makes the calls it would make alone if and only if no block of the other kind comes between for another interface |
| AddressLaws.InterleavedBatch | src/plugins/ietf/ietf_interface.cpp:324-357 | a mixed batch without such misfires, such as any on one interface, and without an address both created and deleted on one interface, leaves the store minus the deleted keys plus the created ones on interfaces that outlive the deletions before their first creation |
| AddressLaws.AsAsked | src/plugins/ietf/ietf_interface.cpp:311-359 | any batch that adds and removes no binding both, misfiring or not, leaves exactly what was asked for if and only if its stray removals miss everything stored, its stray additions bind nothing new, and every binding asked for comes while its interface is there |
| AddressLaws.AsAskedInAnyCase | src/plugins/ietf/ietf_interface.cpp:311-359 | on a tidy store any batch at all, moves between interfaces included, leaves exactly what was asked for if and only if for each binding the last call and the survival of its interface agree with it |
| AddressLaws.HarmlessMisfire | src/plugins/ietf/ietf_interface.cpp:316-357 | deleting one address and creating another on a second interface always misfires, and does harm if and only if the second interface holds the deleted address with the same length |
| AddressLaws.NothingLost | src/plugins/ietf/ietf_interface.cpp:217-221 | under the conditions of `InterleavedBatch`, exactly what was asked for comes out if and only if each interface it creates on outlives the deletions before the first creation there |
| AddressLaws.OneInterface | src/plugins/ietf/ietf_interface.cpp:316-322 | a batch on a single interface never misfires |
| AddressLaws.Misfire | src/plugins/ietf/ietf_interface.cpp:316-357 | creating an address on one interface and then deleting one, the same or another, on a second binds the created address to the second interface too |
| AddressLaws.CreateThenDelete | src/plugins/ietf/ietf_interface.cpp:326-357 | a creation batch followed by a deletion batch restores the store if and only if the deletions touch every binding made, stale ones included, and nothing older |
| AddressLaws.DeletionInvertsCreation | src/plugins/ietf/ietf_interface.cpp:326-357 | deleting the same blocks in the same order undoes their creation, if none of the keys was there before, whatever keeps the interfaces alive |
| AddressLaws.CreatedBatchCode | src/plugins/ietf/ietf_interface.cpp:349-362 | the returned code tells about the last call only: OK if and only if the last block's interface exists, its address parses and VPP takes its binding; earlier failures are overwritten |
| AddressLaws.DeletedBatchCode | src/plugins/ietf/ietf_interface.cpp:349-362 | the code of a deletion batch is OK if and only if the last address parses and something keeps its interface alive until the last of the calls, two for each block |
| AddressLaws.NoIpNoEffect | src/plugins/ietf/ietf_interface.cpp:326-357 | a batch fires no call if and only if none of its records shows an ip; then it changes nothing and returns OK |
| AddressLaws.ModifiedLengthsAreLost | src/plugins/ietf/ietf_interface.cpp:330-357 | a batch that only modifies prefix lengths or netmasks changes nothing and returns OK |
| AddressLaws.RespelledLengthIsLost | src/plugins/ietf/ietf_interface.cpp:324-357 | replacing a prefix length by a netmask, or the other way round, changes nothing and returns OK |
| InterfaceChanges.IetfInterfaceCreateCb | src/plugins/ietf/ietf_interface.cpp:96-206 | the IETF callback with its builder object computes the store and code of its record-by-record model |
| InterfaceChanges.OcInterfacesConfigCb | src/plugins/openconfig/openconfig_interfaces.cpp:81-193 | the OpenConfig callback likewise, with the null dereference on a deletion |
| InterfaceChanges.CallbacksAgree | src/plugins/openconfig/openconfig_interfaces.cpp:110-193 | on streams with interface keys, both callbacks give the same code and store, early failures included, if and only if no deletion comes up |
| InterfaceChanges.CommitCreatesLastName | src/plugins/ietf/ietf_interface.cpp:132-190 | a commit creates at most one interface: the one of the last name record, created or deleted, with the last created state, and only if an Ethernet type was among the records; every other interface gets the last state given for it and keeps its type |
| InterfaceChanges.CommitSetsStates | src/plugins/ietf/ietf_interface.cpp:132-190 | a commit of state changes sets on every interface the last state given for it and keeps its type, leaves the others alone, and files the last interface under its name, with the code for it |
| InterfaceChanges.CommitRemovesLastName | src/plugins/ietf/ietf_interface.cpp:156-195 | without creation or state change only the last deleted name is removed |
| InterfaceChanges.CommitWithoutEffect | src/plugins/ietf/ietf_interface.cpp:165-199 | without any of these nothing happens |
| InterfaceChanges.IetfStops | src/plugins/ietf/ietf_interface.cpp:137-163 | at a moved record or a change of an unknown interface the callback returns the error for it and files nothing; states changed before stay changed |
| InterfaceChanges.OcStops | src/plugins/openconfig/openconfig_interfaces.cpp:110-156 | the OpenConfig callback ends at the first deletion, missing key, moved record or change of an unknown interface, with a crash or the error for it; states changed before stay changed |
| InterfaceChanges.CrashExact | src/plugins/openconfig/openconfig_interfaces.cpp:110-113 | it crashes if and only if the first of these is a deletion, and the IETF one never does |
| InterfaceChanges.ByEvent | src/plugins/ietf/ietf_interface.cpp:114-126 | both callbacks act on verified commits only, and differ where the changes cannot be had |
| NatChanges.NatStaticBuilder.BuildPair | src/plugins/ietf/ietf_nat.cpp:89-104 | an entry comes out exactly when the type is static, and then pairs the two source addresses, set or not, never the destination ones |
| NatChanges.BuildExact | src/plugins/ietf/ietf_nat.cpp:74-139 | for every sequence of setter calls that parse, the built pair is the documented one exactly when the type is not static, or both source prefixes were set, or both destination prefixes were set to the addresses the source members hold |
| NatChanges.NatMappingTableConfigCb | src/plugins/ietf/ietf_nat.cpp:152-257 | the callback's effect on store and mapping table, early errors, refused writes and uncaught setter exceptions included |
| NatChanges.BatchHandlesLastIndex | src/plugins/ietf/ietf_nat.cpp:178-248 | for every batch, from its records alone: an exception if a created field that is no prefix comes before any record that neither creates nor deletes, unsupported and nothing done if such a record comes first; otherwise it comes down to its last index, with the source addresses of all its created records together: created if any index was, else removed if any was |
| NatChanges.ByEvent | src/plugins/ietf/ietf_nat.cpp:169-176 | other events than verify are ignored, and the iterator's error is returned |
| NatChanges.MirrorExact | src/plugins/ietf/ietf_nat.cpp:222-248 | from a faithful mapping table a batch leaves a faithful one if and only if what it creates repeats an entry, or is fresh and accepted by VPP |
| InterfaceCommits.CommitInterfaceWithAddresses | src/plugins/ietf/ietf_interface.cpp:571-587 | a commit of one interface with any number of IPv4 and IPv6 addresses, through the three callbacks in priority order, ends with the interface and every requested binding stored; each code is OK if and only if VPP takes the last object that callback writes |
| InterfaceCommits.CommitDeletesInterface | src/plugins/ietf/ietf_interface.cpp:571-587 | a commit that deletes an interface with its addresses removes exactly their keys, though the address callbacks run after the interface's own object is gone; an address callback returns OK if and only if the interface is still there for its last call |
| InterfaceCommits.DeletionCommitInverts | src/plugins/ietf/ietf_interface.cpp:571-587 | deleting an interface and its addresses right after the commit that created them gives the store back; the first code is OK, and each address callback's is OK if and only if the store before or a binding not yet removed keeps the interface alive until its last call |
| InterfaceCommits.OneFamilyCode | src/plugins/ietf/ietf_interface.cpp:349-362 | after creating an interface with distinct addresses of one family, the code of deleting them with it is OK if and only if something else keeps the interface alive or the last length differs from the one before |
| PluginRuns.CallbacksIsolated | src/plugins/ietf/ietf_interface.cpp:185-236 | with clean interface names each callback leaves the other two kinds of object as they are and every object under a key of its kind |
| PluginRuns.AddressesOnEveryRun | src/plugins/ietf/ietf_interface.cpp:275-369 | on every run that mixes interface, address and NAT batches, every address batch, of any records, has the exact effect that its records determine, and none if it is applied or aborted |
| PluginRuns.BatchKills | src/plugins/openconfig/openconfig_interfaces.cpp:110-113 | which batches end such a run, from their records alone |
| PluginRuns.BatchEffectOnEveryRun | src/plugins/ietf/ietf_interface.cpp:209-246 | every store reached on such a run is tidy, so the net effect of a batch that adds and removes no binding both needs no condition on what keeps the interfaces alive |
| PluginRuns.DeletionCommitOnEveryRun | src/plugins/ietf/ietf_interface.cpp:571-587 | at any point of such a run a commit that deletes an interface with any of its addresses removes exactly the keys named |
| PluginRuns.MirrorOnEveryRun | src/plugins/ietf/ietf_nat.cpp:72-248 | on every run that mixes interface, address and NAT batches, with VPP answering each batch as it likes, the mapping table is faithful throughout if and only if every NAT creation repeats an entry, or is fresh and accepted |

## Left out

- The state callbacks (`ietf_interface_state_cb`, `interface_statistics_cb`, `oc_interfaces_state_cb`, `nat_cap_state_cb`): straight-line filling of reply arrays.
- `vpp-oper`, VOM, sysrepo and boost: libraries or thin wrappers; their behaviour enters as the assumptions above.
- IPv6 text: the codec is a parameter, only its IPv4 part is written out.
- The IPv6 branch of `netmask_to_plen`: the netmask leaf is IPv4 only (section 4 of RFC 7277); here an IPv6 netmask counts as one that does not parse.
- The `/proc` walk in `get_vpp_pid`: its outcome is a step of the state machine; only the match on the bytes read is modelled.
- Memory release, logging, xpath parsing: a record carries its operation, node, interface key and value; the missing key of a malformed xpath is the empty string.
- `nat_instance_config_cb`, subscription calls, cleanup: no effect on the modelled state beyond the order of priorities.
- The second, identical list of exit functions: exit functions return nothing, so a run over them is an init run in which all work succeeds.
- HealthCheck.Plugin.HealthCheckCb: watches the connect loop, which is unbounded in the code, for a given number of attempts, and says so when the callback is still in it; the interleaved state machine has no such bound.
- HealthCheck.Convergence: leaves open what becomes of a process that is connected, recorded and unlike VOM through a refusal: later changes may or may not make up for it.
- AddressEffects.NetEffect: asks that no binding is both added and removed, and that each interface with removals either outlives all of them or owns, by something about it, every removed key that is present (`Traceable`). `AddressOrder.ExactEffect` asks for neither on a tidy store, and `AddressEffects.LastCallWins` on no store.
- AddressBatches.BatchEffect: under the same two conditions; without them `PluginRuns.AddressesOnEveryRun`.
- AddressBatches.DeletedBatch: on traceable deletions; as AddressLaws.CreateThenDelete and AddressLaws.DeletedBatchCode. `PluginRuns.BatchEffectOnEveryRun` shows this of every store the plugin reaches.
- AddressLaws.AsAsked: under the two conditions of `NetEffect`; without them `AddressLaws.AsAskedInAnyCase`.
- AddressLaws.InterleavedBatch: where no address is both created and deleted on one interface, on traceable deletions and without misfires; `AddressLaws.NothingLost` likewise. `AddressLaws.AsAsked` covers misfires, `AddressLaws.AsAskedInAnyCase` all of it.
- AddressLaws.HarmlessMisfire: for an interface kept alive by something other than a binding, as a created one is by its own object; likewise `AddressOrder.MovedAddress`.
- InterfaceCommits.CommitDeletesInterface: for keys owned by the interface, as after every creation (`DeletionCommitInverts`) and in every store the plugin reaches (`PluginRuns.DeletionCommitOnEveryRun`).
- A record that modifies an ip: `ip` is the key of the address list (src/plugins/yang/ietf/ietf-ip@2014-06-16.yang:202-203), so a change of it arrives as a deletion and a creation. What the branch would do is in `AddressLaws.ModifiedAddressMoves`.
- The attributes of a deleted interface: `InterfaceCommits.DeletionCommitInverts` is about the database; the attribute map keeps an entry that no reference reaches.
