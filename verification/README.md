# GameMode daemon: a verified model

GameMode is a daemon that games register with. While at least one game is registered it
changes settings of the computer (cpu governor, platform profile, online cores, priorities of
the game's tasks) through small root helpers, and it puts them back when the last game is gone.
This project models that daemon in Dafny and proves what it promises about the list of clients,
about entering and leaving game mode, and about restoring the machine.

| file | models |
|---|---|
| `Clients.dfy` | the linked list of clients, spliced in place, with its count and the reference counts |
| `Interleaving.dfy` | the D-Bus thread and the reaper thread on that list, one shared access at a time |
| `Mode.dfy` | entering and leaving: saving, changing and restoring settings, the iGPU check |
| `Configured.dfy` | what the configuration comes to: who may register, what is written |
| `Context.dfy` | register, unregister, query, restart, reload and automatic expiry |
| `Governor.dfy` | the governor and profile setting over whole runs, with helpers that fail |
| `Energy.dfy` | differences of energy counters cut to 32 bits |
| `CpuList.dfy` | the text form of core lists: parser, printer, round trip, length |
| `CpuPark.dfy`, `CpuCoreCtl.dfy` | printing the cores to park into a fixed buffer, and the root helper that acts on the text |
| `CpuSelect.dfy` | choosing the cores that stay in use |
| `CoreRuns.dfy` | the online cores over whole runs of enter, leave and reload |
| `Daemon.dfy` | the settings and cores over every interleaving of the two threads |
| `Priority.dfy` | nice levels and i/o priorities: one function that applies and undoes |
| `Sessions.dfy` | the priorities of one client's tasks from registration to removal, through reloads |
| `Config.dfy` | the layered configuration with its fixed-size lists and errno |
| `Capture.dfy` | running a helper and capturing its output in a fixed buffer |
| `Machine.dfy`, `Common.dfy` | the settings of the computer; shared value types |

Three models of the same daemon fit together. `Clients.Registry` and `Context.GameModeContext` are
classes whose methods do what the source's functions do, each as one step, and whose `Valid()`
says what holds between steps. The functions `AfterEnter`, `AfterLeave` and so on say what those
methods do to the machine, and the lemmas about runs are about them. `Interleaving` takes the
same operations apart into single accesses of two threads; without interruption they do to the
pids, the count and the calls what the class does (`RegisterAgrees`, `UnregisterAgrees`). `Daemon`
puts the same functions on the steps of an interleaving, so that what is proved of runs of the
governor and the cores holds of every interleaving.

What the model takes as given:

- A run of the governor or profile helper may write any of the files before it ends, and each
  write puts the whole name; which files, and whether the daemon takes the run for a success, are
  inputs (`Governor.HelperRun`, `Capture.HelperRunOf`). While game mode has changed a setting
  nobody else writes it.
- A core helper that is killed part-way is one whose remaining writes are refused.
- The kernel prints the list of online cores as ascending, separated runs. Core numbers are below
  a bound small enough for the text of all of them to fit the helper's argument.
- The platform profile file either exists throughout or never does.
- Executables of processes, lists of tasks, liveness, sysfs readings, refused writes, results of
  `strtof` and of memory allocation are inputs. Every method takes them as parameters.
- errno is state in the configuration model: `strtol` and `strtof` may set it to ERANGE, only a
  failed `fopen` changes it otherwise, and logging leaves it alone.
- `long` has 64 bits and `int` 32; the cpu number `to + 1` in the loops over a parsed range is
  taken not to overflow.

Where the documentation and the code disagree the model follows the code. `ioprio=off` does not
turn the feature off but is clamped to level 0 (`Priority.ConfigIoprio`); a negative
`igpu_power_threshold` does not turn the iGPU check off (`Mode.IgpuEnabledIff`);
`pin_cores=no` without `park_cores` asks to pin to a list that reads "no"
(`CpuSelect.WantedOf`).

Some promised properties hold only under a condition, which is then proved to be exact:

- Enter and leave alternate in every interleaving if and only if no restart leaves while the
  count is zero (`Interleaving.AlternatesIff`). A restart tests the count before it takes the
  lock, so this can happen (`Interleaving.StaleRestart`), namely if and only if it leaves although
  the reaper took the last client away in between (`Interleaving.StaleIffOvertaken`).
- Automatic expiry ends if and only if `require_supervisor` is unset or nobody is dead
  (`Context.ExpiryEndsIff`).
- A client the reaper has found dead is still in memory when its pid is read if and only if it is
  listed, held, or not yet released by the thread removing it (`Interleaving.FoundIsLiveIff`);
  it need not be (`Interleaving.FoundAndFreed`).
- A task gets its nice level or i/o level back if and only if it did not start at the value the
  removal looks for (`Priority.NiceSessionIff`, `Priority.IoprioSessionIff`).
- However the helper of a leave ends, the governor files come back if and only if it counts as a
  success, the files it wrote read like all of them did before, and the others are as they were
  (`Governor.FilesRestoredIff`). The next enter saves the same name again if and only if the leave
  failed or the files it left read as that name (`Governor.SavedAgainIff`,
  `Governor.PartlyRestoredIff`); a helper killed at once leaves them otherwise
  (`Governor.KilledLeaveForgets`).
- A leave brings all cores back if and only if no write for a core that went offline is refused
  (`CoreRuns.LeaveRestoresIff`), and a reload reads all of them if and only if one of its
  unparks works for each (`CoreRuns.RereadIsBaseIff`).
- A stored cpu info that parks has something to print unless parking without a list is asked for
  and either the kernel's P-cores name every online core or, without P-cores, the L3 caches do not
  differ, no frequency is positive, and every online core has a frequency file or a leftover bit
  (`CoreRuns.PrintsIff`, an if and only if). It has nothing to print with cores 0 to 3 online and
  "0-7" for the P-cores (`CoreRuns.NothingToPrint`); then the helper acts on what an unset buffer
  reads as, and any core can be lost although no write is refused (`CoreRuns.LostCore`). So an enter
  and a leave that can write are sure to bring all cores back if and only if nothing is stored or
  there is a core to park (`CoreRuns.RestoresIff`). The runs of `CoreRuns` are those in which that
  condition is met whenever the cpu info is read (`CoreRuns.CanPark`).
- The cores the frequency filter keeps are all within a tenth of the maximum if and only if every
  reading that was at its time, with no starting over since, still is (`CpuSelect.WithinTenthIff`);
  100, 110, 121 are not (`CpuSelect.KeptFarBelowMaximum`).
- A number in the configuration is what the last line that names it says if and only if errno is
  not ERANGE there, or it was the same before (`Config.LastNumberIff`). An earlier number that
  overflows `long` sets errno (`Config.OverflowStopsLaterNumbers`), and only a file that cannot be
  opened clears it again (`Config.RangeIsStale`).

## Model

| member | source | states |
|---|---|---|
| Clients.Registry.constructor | daemon/gamemode-context.c:81-117 | a new registry is valid: empty list, count zero, nothing held or freed |
| Clients.Client.constructor | daemon/gamemode-context.c:1079-1109 | a new client has one reference, its creator's, and no next |
| Clients.Registry.HasClient | daemon/gamemode-context.c:694-709 | finds a pid exactly when some listed client has it |
| Clients.Registry.ListClients | daemon/gamemode-context.c:716-739 | returns the listed pids in order in an array of the count's size; the source's assertion `n > i` never fails |
| Clients.Registry.LookupClient | daemon/gamemode-context.c:741-762 | a client is returned exactly when the pid is listed, with one more reference held; the invariant with its ownership account survives |
| Clients.Registry.Unref | daemon/gamemode-context.c:1114-1134 | along a chain of clients it frees exactly the leading ones with no other reference, and takes one reference from the next |
| Clients.Registry.Release | daemon/gamemode-context.c:1114-1126 | giving back a looked-up client frees it exactly when it is neither listed nor held any more, and never frees any other client |
| Clients.Registry.LinkFirst | daemon/gamemode-context.c:846-864 | a client with a new pid goes to the head, is counted, and is reported as first exactly when the list was empty; all of the invariant is kept |
| Clients.Registry.Unlink | daemon/gamemode-context.c:926-964 | removes exactly the client with the pid, keeping the order of the others, also at the head where prev is the client itself; frees it unless a lookup holds it; reports the last one |
| Clients.Registry.Splice | daemon/gamemode-context.c:937-945 | rewriting `prev->next` and the head leaves exactly the other clients linked, and the removed one with no next |
| Clients.Registry.Drop | daemon/gamemode-context.c:945-946 | giving up the list's reference keeps every client's count equal to its place in the list plus the references held |
| Clients.LinkedFrom | daemon/gamemode-context.c:68-74 | any rest of the list is again a list, and its head is not in it further on |
| Clients.LinkedWithout | daemon/gamemode-context.c:937-945 | links that skip position k go through exactly the list without it |
| Interleaving.StepKeepsInv | daemon/gamemode-context.c:662-1214 | every step of either thread keeps lock exclusion, a list without repeated clients or pids, the count against the length, the reference account, and what each thread relies on where it stands |
| Interleaving.RunsKeepInv | daemon/gamemode-context.c:662-1214 | the same over every interleaved run from the empty daemon |
| Interleaving.UnwrittenListIsSound | daemon/gamemode-context.c:716-739 | whenever no thread holds the lock for writing, clients and pids are distinct and the count is the length; a listing thread has read the length it will find |
| Interleaving.PointersAreSound | daemon/gamemode-context.c:741-762 | even in the middle of an insertion or removal the pointers from the head go once through the list; no unref has ever gone on to the next client |
| Interleaving.SpliceKeepsPointers | daemon/gamemode-context.c:937-942 | rewriting `prev->next` or the head skips exactly the one client, which is the only one with a dangling next |
| Interleaving.SpliceKeepsOwned | daemon/gamemode-context.c:937-946 | the list's reference passes to the thread that removes the client |
| Interleaving.InsertKeepsRest | daemon/gamemode-context.c:817-853 | the checked pid is still unlisted when the client is inserted, because only one thread registers |
| Interleaving.DropKeepsRest | daemon/gamemode-context.c:944-946 | a removed client that is freed has had its next cleared, so its unref stops there |
| Interleaving.ReleaseStops | daemon/gamemode-context.c:1114-1126 | giving back the last reference of a looked-up client, without the lock, finds it out of the list and with no next |
| Interleaving.LiveIffReferred | daemon/gamemode-context.c:1114-1134 | a client's memory is there exactly while the list, a lookup or a thread adding or removing it refers to it |
| Interleaving.FoundIsLiveIff | daemon/gamemode-context.c:670-676 | the client whose pid the reaper reads after unlocking is still there exactly if listed, held, or not yet released by the bus |
| Interleaving.FoundAndFreed | daemon/gamemode-context.c:670-676 | a run after which it is not there: the bus unregisters the same client between the reaper's scan and its read |
| Interleaving.AlternatesIff | daemon/gamemode-context.c:1054-1072 | over every interleaving enter and leave alternate if and only if no restart leaves at count zero; then game mode is entered exactly when there is a client, except just before a call |
| Interleaving.StepKeepsPhase | daemon/gamemode-context.c:862-964 | one step keeps the alternation exactly if it is not a stale restart |
| Interleaving.StepKeepsBroken | daemon/gamemode-context.c:1067-1068 | a broken alternation stays broken |
| Interleaving.StaleOnlyIfOvertaken | daemon/gamemode-context.c:1058-1068 | a restart is stale only if the reaper removed the last client between its test and its lock |
| Interleaving.StaleIffOvertaken | daemon/gamemode-context.c:1058-1068 | a run has no stale restart exactly when no restart that was overtaken goes on to leave |
| Interleaving.OvertakenIff | daemon/gamemode-context.c:1058-1068 | the restart under way was overtaken exactly when it is past its test and the count is zero |
| Interleaving.StaleRestart | daemon/gamemode-context.c:1058-1068 | a run in which that happens: game mode is left twice and is entered at the end without a client |
| Mode.IgpuEnabledIff | daemon/gamemode-context.c:465-480 | the heuristic is enabled exactly when both energies are read and the configured threshold is below 10000, negative ones included |
| Interleaving.RegisterAlone | daemon/gamemode-context.c:817-864 | a registration that nobody interrupts puts the new client at the head with one reference, counts it, calls enter exactly for the first, and releases the lock |
| Interleaving.UnregisterAlone | daemon/gamemode-context.c:926-964 | a removal that nobody interrupts, by either thread: one client is out in its place, with no next and one reference less, and leave is called exactly for the last |
| Interleaving.RegisterAgrees | daemon/gamemode-context.c:817-864 | the steps of such a registration do to pids, count and calls the same function as a successful GameModeContext.Register in one step |
| Interleaving.UnregisterAgrees | daemon/gamemode-context.c:926-964 | the steps of such a removal do the same function as a successful GameModeContext.Unregister |
| Interleaving.LookupAndRelease | daemon/gamemode-context.c:741-762 | a lookup that nobody interrupts holds a client with the pid exactly if one is listed, and giving it back restores everything |
| Mode.GameMode.constructor | daemon/gamemode-context.c:146-180 | a fresh daemon is not entered, at the defaults, with the cpu info initialise_cpu finds on the machine under the configuration |
| Mode.GameMode.StoreGovernor | daemon/gamemode-context.c:347-359 | the saved name changes only at the default, to what all governor files say |
| Mode.GameMode.SetGovernor | daemon/gamemode-context.c:361-404 | the mode changes only if the helper counts as a success, the files as far as it wrote them; away from the default the saved name stays that of the last default |
| Mode.GameMode.StoreProfileState | daemon/gamemode-context.c:406-418 | the same for the profile, and nothing without a profile file |
| Mode.GameMode.SetProfileState | daemon/gamemode-context.c:420-463 | the same for the profile, and nothing without a profile file |
| Mode.GameMode.CheckIgpuEnergy | daemon/gamemode-context.c:487-550 | switches only away from the default, by the wrap-proof ratio of the two differences, and stores both samples; failed readings turn the check off |
| Mode.TotalIsSum | daemon/gamemode-context.c:524-527 | for cpu and iGPU alike, what a run of checks adds up from its stored samples is the sum of 32-bit differences of the counter |
| Mode.ChecksTelescopeIff | daemon/gamemode-context.c:487-550 | over a whole run of checks that is, for either counter, all the energy used exactly when no two samples are 2^32 or more apart |
| Mode.CheckFollowsEnergy | daemon/gamemode-context.c:487-550 | a check asks for the iGPU governor exactly when the true energy of the iGPU since the last one exceeds the threshold's share of the cpu's, for the desired one otherwise, and for none when the cpu used nothing |
| Mode.CheckWithoutEnergy | daemon/gamemode-context.c:487-522 | a check at the default or turned off does nothing, and one that cannot read an energy turns the heuristic off |
| Mode.EnterTurnsIgpuOn | daemon/gamemode-context.c:465-485 | an enter turns the heuristic on, with both samples, when the governor is set and both energies can be read, and a leave turns it off |
| Mode.GameMode.StoreDefaults | daemon/gamemode-context.c:552-561 | both settings are saved, from the files as they are before anything changes, if they are at their default |
| Mode.GameMode.EnterSettings | daemon/gamemode-context.c:575-587 | profile before governor, the heuristic only after a governor that was set; the cores untouched |
| Mode.GameMode.Enter | daemon/gamemode-context.c:569-612 | one more Entered call, the machine as AfterEnter says, and the invariants of calls, governor, profile and cores kept |
| Mode.GameMode.Leave | daemon/gamemode-context.c:620-654 | one more Left call, the machine as AfterLeave says, and the same invariants kept |
| Mode.LeaveUndoesEnter | daemon/gamemode-context.c:569-654 | when nothing goes wrong a leave undoes an enter: all cores are back, and the files of governor and profile exactly if each were uniform |
| Mode.GameMode.Park | daemon/gamemode-cpu.c:382-425 | after an enter no core outside the parked ones is missing, whatever writes are refused |
| Mode.GameMode.Unpark | daemon/gamemode-cpu.c:427-470 | after a leave whose writes work all cores that were read are back, whatever earlier leaves could not write |
| Mode.GameMode.Reconfigure | daemon/gamemode-cpu.c:220-225 | the cores are unparked before the online list is read, and the new info is what initialise_cpu makes of it under the new settings |
| Mode.GameMode.Reread | daemon/gamemode-cpu.c:227-352 | reading the machine again starts over with all of its online cores, whichever info is stored |
| Context.GameModeContext.constructor | daemon/gamemode-context.c:146-180 | starts valid, with no client |
| Context.GameModeContext.Register | daemon/gamemode-context.c:781-880 | the verdict in the source's order of checks; on success the pid is at the head, game mode is entered exactly for the first client, and its tasks are set; otherwise nothing changes |
| Context.GameModeContext.Unregister | daemon/gamemode-context.c:895-974 | the verdict; on success the other pids remain in order, game mode is left exactly when none remains, and the tasks are set back; otherwise nothing changes |
| Context.GameModeContext.QueryStatus | daemon/gamemode-context.c:976-1029 | 0 exactly when game mode is not entered, 2 exactly when the client is registered, 1 otherwise, -1 and -2 from the supervisor check |
| Context.GameModeContext.Restart | daemon/gamemode-context.c:1031-1072 | with a client a leave and an enter, without one 1 and no change; the set of clients never changes |
| Context.GameModeContext.Reload | daemon/gamemode-context.c:1183-1214 | removes every client's changes under the old configuration, leaves, unparks, looks at the cores under the new one, enters and applies under it; the clients stay; without clients no enter or leave |
| Context.GameModeContext.RemoveAll | daemon/gamemode-context.c:1191-1194 | sets back the tasks of every client in list order |
| Context.GameModeContext.ApplyAll | daemon/gamemode-context.c:1207-1209 | applies the settings to the tasks of every client in list order |
| Context.GameModeContext.FirstDead | daemon/gamemode-context.c:669-680 | finds the first dead client of the list, or that there is none |
| Context.GameModeContext.ExpireRound | daemon/gamemode-context.c:665-688 | a round takes away exactly the first dead client, and with require_supervisor set nothing |
| Context.GameModeContext.AutoExpire | daemon/gamemode-context.c:662-689 | terminates with exactly the live clients in their order, having left game mode exactly when a non-empty list became empty, and with every dead client's tasks set back |
| Context.GameModeContext.CheckIgpuEnergy | daemon/gamemode-context.c:1240-1241 | the reaper's check with the configuration in use; no enter or leave |
| Context.ExpiryEndsIff | daemon/gamemode-context.c:662-689 | some number of rounds leaves no dead client if and only if require_supervisor is unset or nobody was dead |
| Context.EnoughRounds | daemon/gamemode-context.c:662-689 | as many rounds as there are dead clients are enough |
| Context.RefusedRounds | daemon/gamemode-context.c:921-924 | with require_supervisor set no number of rounds changes the list |
| Context.RoundTakesFirst | daemon/gamemode-context.c:668-680 | a round removes one list position, and the dead clients left are the rest of those before |
| Context.MinusOne | daemon/gamemode-context.c:926-946 | with distinct pids, taking out a pid is taking out one position |
| Context.NiceOf | daemon/gamemode-config.c:795-805 | the renice value in use is between 0 and 20 |
| Context.IoprioOf | daemon/gamemode-config.c:810-840 | the i/o priority level in use is between 0 and 7, for any text |
| Configured.SupervisorGateIff | daemon/gamemode-context.c:1029-1052 | 0, -1 or -2 by whether the supervisor's executable is found, contains an entry of the whitelist if there is one, and none of the blacklist |
| Configured.RegisterVerdictIff | daemon/gamemode-context.c:764-843 | a registration succeeds exactly when the requester may ask, the pid is new, the client may play and there is memory; -2 exactly when a requester that is found, or oneself, may not ask |
| Configured.UnregisterVerdictIff | daemon/gamemode-context.c:895-974 | a removal succeeds exactly when the requester may ask and the pid is registered |
| Configured.EnterWrites | daemon/gamemode-context.c:361-463 | desiredgov and desiredprof, or "performance", are what a working enter writes into every file |
| Configured.LeaveWrites | daemon/gamemode-context.c:361-463 | defaultgov and defaultprof, or what was saved, are what a working leave writes |
| Configured.SwitchWrites | daemon/gamemode-context.c:361-404 | igpu_desiredgov, or "powersave", is what a working switch writes |
| Configured.IoprioNumber | daemon/gamemode-config.c:810-840 | a configured number is the level, cut to 0 to 7 |
| Configured.NothingConfigured | daemon/gamemode-config.c:378-482 | with nothing configured games may register themselves, nobody is refused and nothing is reniced |
| Governor.GetGovState | common/common-governors.c:100-153 | reads the one name all files agree on, skipping empty files, or "malformed" |
| Governor.MixedIsMalformed | common/common-governors.c:133-141 | two files with different names read as "malformed", wherever they are |
| Governor.WriteBackIff | common/common-governors.c:100-153 | writing back what was read reproduces the files exactly when they were uniform |
| Governor.ChangeKeepsInv | daemon/gamemode-context.c:347-404 | enter, leave, iGPU switch and, at the default, outside changes keep the saved name equal to that of the last default |
| Governor.SavedIsBaseline | daemon/gamemode-context.c:347-463 | the same over every run, with helpers failing or killed at will and the configuration changing |
| Governor.LeaveEndsIff | daemon/gamemode-context.c:361-404 | however the helper ends, a leave ends at the default with the chosen name in every file exactly when it counts as a success and wrote every file with another name; after a failure the mode stays |
| Governor.EnterEndsIff | daemon/gamemode-context.c:347-404 | however the helper ends, an enter ends with the desired name or "performance" in every file exactly when it counts as a success and wrote every file with another name; what they said before is saved |
| Governor.SwitchEndsIff | daemon/gamemode-context.c:361-404 | the same for the iGPU governor, or "powersave", and back |
| Governor.FilesRestoredIff | daemon/gamemode-context.c:361-404 | the files of the last default come back exactly when the helper counts as a success, those it wrote read like all did, and the others are as they were; for a helper that writes all, exactly when they were uniform |
| Governor.SavedAgainIff | daemon/gamemode-context.c:347-404 | the next enter saves the same name again exactly when the leave failed or the files it left read as that name; a leave that writes all of them ensures that |
| Governor.PartlyRestoredIff | common/common-governors.c:100-153 | after a leave that wrote only some files that is exactly when it wrote all that said something else and one says the name |
| Governor.ReadsAsIff | common/common-governors.c:100-153 | files read as a proper name exactly when one says it and the others say it or nothing |
| Governor.SetGovState | util/cpugovctl.c:42-66 | the helper's loop writes the files it can open and write, skips one it cannot open, and reports only a failed write |
| Governor.KilledLeaveForgets | common/common-external.c:151-186 | a leave whose helper is killed before it writes leaves the files, and the next enter saves the game's own value |
| Governor.ProfileIsSetting | daemon/gamemode-context.c:406-463 | with a profile file, the profile behaves as the governor does |
| Governor.FreshSetting | daemon/gamemode-context.c:81-117 | the zeroed context satisfies the invariant |
| Energy.DeltaExactIff | daemon/gamemode-context.c:524-527 | the 32-bit difference is the true increase exactly when that is below 2^32, across any wrap |
| Energy.DeltasTelescopeIff | daemon/gamemode-context.c:524-527 | over a whole run of samples the differences add up to the total increase exactly when no two successive ones are 2^32 apart |
| Energy.ChoiceFromTrueCounters | daemon/gamemode-context.c:529-542 | the governor chosen is the one the full counters call for |
| Energy.ChoiceIff | daemon/gamemode-context.c:529-549 | the choice without division: by comparing the iGPU's energy with the threshold times the cpu's |
| CpuList.RoundTrip | common/common-cpu.c:35-71 | parsing the text of any set of cores visits exactly those cores, each once, in increasing order |
| CpuList.ParseOfRender | common/common-cpu.c:35-71 | parsing the text of any runs gives exactly those runs |
| CpuList.RenderFromLeft | daemon/gamemode-cpu.c:354-380 | the printer, which appends, and the parser, which takes from the front, agree on the text |
| CpuList.ScanOfDecimal | common/common-cpu.c:43-60 | reading a printed number gives the number and stops where it ends |
| CpuList.ParseOfRun | common/common-cpu.c:35-71 | a printed run followed by the end or a comma parses as that run |
| CpuList.CoresOfAddCore | daemon/gamemode-cpu.c:391-409 | adding the next core to the runs adds it to the cores they stand for |
| CpuList.CoresOfRunsOf | daemon/gamemode-cpu.c:391-409 | the runs of a set stand for its members in increasing order |
| CpuList.AscendingMembers | daemon/gamemode-cpu.c:391-409 | those are all members, strictly increasing |
| CpuList.RenderLength | daemon/gamemode-cpu.c:354-380 | with at most d digits a core the text has at most d + 1 characters a core |
| CpuList.RunsOfEmpty | daemon/gamemode-cpu.c:382-411 | there is nothing to print exactly when no core is parked |
| CpuPark.Snprintf | daemon/gamemode-cpu.c:357-371 | the buffer holds what was there up to the position and as much of the text as fits, then NUL |
| CpuPark.LogState | daemon/gamemode-cpu.c:354-380 | appends a run and, unless first, a comma; fails exactly when the whole does not fit, and then leaves a cut-off text |
| CpuPark.PrintCore | daemon/gamemode-cpu.c:391-408 | the loop body for one core extends or starts the open run, and fails exactly when the run before it does not fit |
| CpuPark.PrintCores | daemon/gamemode-cpu.c:382-411 | the loop prints exactly the text of the runs of online minus to_keep, cut to the buffer, and gives up exactly when all but the last run do not fit |
| CpuPark.PrinterAtIsPrinterOf | daemon/gamemode-cpu.c:391-409 | the loop's first, last and text are a function of the runs seen so far |
| CpuPark.ParkOrUnpark | daemon/gamemode-cpu.c:382-470 | the machine's cores change as the helper acting on the printed text changes them, the same text for both directions; with nothing to print, on what the unset buffer reads as |
| CpuPark.CTextOfHeld | daemon/gamemode-cpu.c:411-417 | the string the helper receives is the text before the NUL |
| CpuPark.HelperTextFits | daemon/gamemode-cpu.c:354-411 | with 6 * num_cpu at most ARG_MAX no print is cut, and the helper parses back exactly the parked cores |
| CpuPark.HelperWritesTargets | util/cpucorectl.c:75-120 | so the helper writes exactly those cores in increasing order |
| CpuCoreCtl.SetState | util/cpucorectl.c:75-120 | the nested loops write the parsed cores one by one, stopping where the source does; the return value says whether they did |
| CpuCoreCtl.WriteRun | util/cpucorectl.c:83-104 | the same for one run, including skipping core 0 |
| CpuCoreCtl.WriteAllAppend | util/cpucorectl.c:83-104 | writing two lists one after the other, unless the first stopped |
| CpuCoreCtl.ParkedCores | util/cpucorectl.c:75-120 | parking takes offline some of the listed cores and touches no other, also when it stops part-way |
| CpuCoreCtl.ParkedExactly | util/cpucorectl.c:83-104 | parking an ascending list takes offline exactly the listed cores that are not refused and come before any refused one except core 0 |
| CpuCoreCtl.UnparkedCores | util/cpucorectl.c:75-120 | unparking brings back exactly the listed cores whose write is not refused |
| CpuSelect.AddListed | daemon/gamemode-cpu.c:76-84 | adds exactly the cores a text names that fit the set |
| CpuSelect.ApplyListed | daemon/gamemode-cpu.c:205-215 | adds or removes exactly the named cores that are online |
| CpuSelect.WalkString | daemon/gamemode-cpu.c:191-218 | the cores to keep are online minus the list, or online in the list |
| CpuSelect.WalkSysfs | daemon/gamemode-cpu.c:108-189 | the two filters run over the listed cores, and the cache filter decides unless it keeps none or all; CacheKeepsLargest and KeptIff say what each keeps |
| CpuSelect.CacheKeepsLargest | daemon/gamemode-cpu.c:118-147 | the cache filter keeps exactly the readable cores whose L3 size is the maximum, in any order of cores |
| CpuSelect.FreqKeeps | daemon/gamemode-cpu.c:149-170 | in any order, every core that reaches the maximum with a tenth added is kept, and every kept core is tied to the maximum by a chain of readings each within a tenth of the next |
| CpuSelect.KeptIff | daemon/gamemode-cpu.c:149-170 | exactly which cores the frequency filter keeps: those with a reading within a tenth of the maximum at its time and no starting over since, and the leftover bits if it never starts over |
| CpuSelect.WithinTenthIff | daemon/gamemode-cpu.c:149-170 | all kept cores are within a tenth of the maximum exactly when every such reading is within a tenth of the largest, a condition on the readings |
| CpuSelect.GarbageCleared | daemon/gamemode-cpu.c:112-170 | what the allocation left in freq_cores is forgotten exactly when some reading is positive, also when the cutoff wraps |
| CpuSelect.KeptFarBelowMaximum | daemon/gamemode-cpu.c:149-170 | readings for which they are not |
| CpuSelect.FindMax | daemon/gamemode-cpu.c:282-287 | the largest core number the online list names |
| CpuSelect.MaxCoreBounds | daemon/gamemode-cpu.c:282-297 | no listed core exceeds it, so every listed core fits the sets |
| CpuSelect.MaxCoreListed | daemon/gamemode-cpu.c:282-297 | the largest core number is 0 or one of the listed |
| CpuSelect.InitialiseCpu | daemon/gamemode-cpu.c:227-352 | an info is stored exactly when one is wanted, a core beyond 0 is online, at least four cores are kept and parking does not keep simply all; which error or success is returned otherwise |
| CpuSelect.ListIsStored | daemon/gamemode-cpu.c:191-307 | if a list is to be parked the stored info parks and keeps the online cores it does not name; if one is to be pinned, it pins and keeps those it does |
| CpuSelect.StoredForListed | daemon/gamemode-cpu.c:278-337 | any stored info is for exactly the cores the kernel lists and keeps at least four |
| CpuSelect.NoListIsStored | daemon/gamemode-cpu.c:86-106 | without a list the P-cores that fit are kept, or what sysfs tells if there is no list of P-cores |
| CpuSelect.SysfsIsStored | daemon/gamemode-cpu.c:108-189 | what sysfs tells is the cores of the largest L3 cache if the caches differ, else what the frequency filter keeps |
| CpuSelect.StoredIff | daemon/gamemode-cpu.c:227-352 | something is stored exactly when not both settings say no, a core beyond 0 is listed, four cores are kept and parking does not keep just the online ones; the return value is -1 exactly when that fails for another reason than the first two |
| CpuSelect.SaysIff | daemon/gamemode-cpu.c:241-269 | which texts turn parking and pinning on and off, in any case of letters |
| CpuSelect.CacheUnits | daemon/gamemode-cpu.c:127-137 | 1024 of one unit of cache size are one of the next, in 64 bits |
| CpuSelect.ChooseCores | daemon/gamemode-cpu.c:305-318 | which of the configured list, the P-cores and sysfs decides |
| CpuSelect.KeepsWithinOnlineIff | daemon/gamemode-cpu.c:108-218 | only online cores are kept exactly when a list decides, the P-cores that fit are online, or sysfs has a cache difference or a positive frequency to go by or only online leftover bits |
| CpuSelect.CacheDecidesIff | daemon/gamemode-cpu.c:118-182 | for cores that fit, the cache filter decides exactly when a core has a readable cache and another has none or one of another size |
| CpuSelect.SysfsKept | daemon/gamemode-cpu.c:112-182 | sysfs keeps only online cores if caches or a positive frequency tell them apart, else the leftover bits and the cores that read as 0 |
| CpuSelect.LeavesNoneIff | daemon/gamemode-cpu.c:108-189 | sysfs keeps all online cores and more exactly when neither tells the cores apart and each reads as 0 or has a leftover bit |
| CpuSelect.NoTargetsIff | daemon/gamemode-cpu.c:320-325 | there is nothing to park exactly when every online core is kept |
| CoreRuns.ParkEffect | daemon/gamemode-cpu.c:382-425 | parking loses only cores that were to be parked |
| CoreRuns.ParkExactly | util/cpucorectl.c:75-120 | after an enter a core to park is still online exactly if its write is refused, or that of another one before it except core 0; all other cores are as before |
| CoreRuns.ParksAll | daemon/gamemode-cpu.c:382-425 | with nothing refused exactly the cores to park go offline |
| CoreRuns.UnparkEffect | daemon/gamemode-cpu.c:427-470 | unparking brings back exactly the parked cores whose write is not refused |
| CoreRuns.EnterKeepsCores | daemon/gamemode-cpu.c:382-425 | after an enter only cores to park are missing from those that were read, whatever is refused now or was before |
| CoreRuns.LeaveRestoresIff | daemon/gamemode-cpu.c:427-470 | a leave ends with all cores that were read exactly when no write for an offline one is refused, whatever earlier leaves could not write |
| CoreRuns.RereadIsBaseIff | daemon/gamemode-context.c:1183-1214 | reload reads the cores that were there before exactly when one of its unparks works for each: two of them if there are clients, else one |
| CoreRuns.ReloadReads | daemon/gamemode-context.c:1183-1214 | a reload leaves and enters exactly if there are clients, entered or not, and ends with the info for the list it read in between |
| CoreRuns.Step | daemon/gamemode-context.c:1183-1214 | enter, leave and reread, in any order and with any writes refused, keep it that only cores to park are missing from those last read, and outside game mode some are exactly when the last leave could not write; those last read stay the same exactly when a reread can unpark |
| CoreRuns.RunKeepsCores | daemon/gamemode-context.c:1183-1214 | the same over every run |
| CoreRuns.CoresConserved | daemon/gamemode-context.c:603-633 | over every run from the first look at the machine no core is gained, and only parked ones are missing; those last read are the first ones exactly when every reread could unpark, and outside game mode all of them are online exactly when the last leave could write |
| CoreRuns.NextLeaveRestoresIff | daemon/gamemode-cpu.c:427-470 | after any run, refused writes included, the next leave brings back all cores last read exactly when its own writes work |
| Daemon.CallsAreDeeds | daemon/gamemode-context.c:662-1214 | the calls an interleaving makes are the enters and leaves it does to the machine, in order |
| Daemon.OneAtATime | daemon/gamemode-context.c:662-1214 | in every reachable state at most one thread can touch the machine |
| Daemon.GovernorIsRun | daemon/gamemode-context.c:347-404 | over every interleaving the governor goes through a possible run of enters, leaves, switches and outside changes, so the saved name is that of the last default |
| Daemon.ProfileIsRun | daemon/gamemode-context.c:406-463 | over every interleaving each enter and each leave changes the profile as it changes the governor, under the profile's names, so the saved profile is that of the last default |
| Daemon.DeedIsProfileChange | daemon/gamemode-context.c:406-463 | with a profile file each enter is a Governor.Enter of it and each leave a Governor.Leave |
| Daemon.CoresAreRun | daemon/gamemode-cpu.c:220-470 | over every interleaving the cores go through a run of enters, leaves and rereads |
| Daemon.InterleavedCores | daemon/gamemode-context.c:603-633 | so over every interleaving, stale restarts included, the cores are conserved as CoresConserved says |
| Daemon.EnteredIffClients | daemon/gamemode-context.c:862-964 | if no overtaken restart leaves, the machine is entered exactly when there is a client, except just before a call |
| Daemon.IdleIsWhole | daemon/gamemode-context.c:926-964 | and when no client is left the machine has all the cores last read exactly when the last leave could write, and all it started with exactly when also every reread could unpark |
| Daemon.ReloadAgrees | daemon/gamemode-context.c:1183-1214 | from any reachable state a reload that nobody interrupts, by either thread, with or without clients, takes the machine to what GameModeContext.Reload makes of it: left under the old settings, reread, and entered under the new |
| Daemon.ReloadDeedsAgree | daemon/gamemode-context.c:1183-1214 | the deeds of a reload are AfterReload of the machine and ReloadOps of the cores |
| Daemon.RestartAgrees | daemon/gamemode-context.c:1058-1072 | a restart that nobody interrupts leaves and then enters under the settings in use |
| Daemon.VisitAgrees | daemon/gamemode-context.c:487-550 | a check by the reaper that nobody interrupts is that of GameModeContext.CheckIgpuEnergy |
| CoreRuns.OnlineListReadBack | daemon/gamemode-cpu.c:267-295 | the kernel's online list read by initialise_cpu is the set of online cores |
| CoreRuns.InfoIsForMachine | daemon/gamemode-cpu.c:278-297 | a new info is for exactly the online cores and large enough for their numbers |
| CoreRuns.StoredIsAccepted | daemon/gamemode-cpu.c:297-341 | what initialise_cpu stores is as the runs need it exactly when a parking info has something to print, that is when some online core is not kept |
| CoreRuns.PrintsIff | daemon/gamemode-cpu.c:305-341 | a stored parking info has something to print exactly unless no list is configured and the P-cores name every online core, or without P-cores sysfs cannot tell the online cores apart and keeps each: a condition on settings and files |
| CoreRuns.CanParkIff | daemon/gamemode-cpu.c:227-352 | what is stored is as the runs need it exactly when nothing is stored or that condition leaves a core to park |
| CoreRuns.CoveredIsSilent | daemon/gamemode-cpu.c:297-341 | whenever the P-cores cover the online ones, at least four are kept and they are not the same, an info is stored that prints nothing |
| CoreRuns.NothingToPrint | daemon/gamemode-cpu.c:305-341 | for instance cores 0 to 3 online and P-cores "0-7" |
| CoreRuns.LostCore | daemon/gamemode-cpu.c:382-470 | with nothing to print, an enter whose unset buffer reads as a core's number and a leave whose buffer reads as nothing lose that core, with no write refused |
| CoreRuns.RestoresIff | daemon/gamemode-cpu.c:382-470 | from a fresh start every enter and unrefused leave brings all cores back exactly when nothing is stored or there is a core to park |
| Priority.ApplyRenice | daemon/gamemode-sched.c:72-150 | moves exactly the listed tasks found at the expected nice level, and no other |
| Priority.NiceCycleIff | daemon/gamemode-sched.c:72-150 | remove undoes apply on a task exactly unless it started at minus renice or only the removal was refused |
| Priority.NiceSessionIff | daemon/gamemode-context.c:1191-1209 | over any number of reloads with changing values a task gets its level back exactly unless it started at minus some configured value |
| Sessions.SessionIsNiceSession | daemon/gamemode-context.c:1191-1209 | register, any reloads with any clients registered, and unregister, as GameModeContext applies and removes, do NiceSession to a task of the client |
| Priority.ConfigRenice | daemon/gamemode-config.c:795-805 | values outside 0 to 20 become 0 |
| Priority.ApplyIoprio | daemon/gamemode-ioprio.c:114-190 | moves exactly the listed tasks reported at the expected level, all to the same value although it is encoded again each round |
| Priority.UnreadableNeverWritten | daemon/gamemode-ioprio.c:96-105 | a task whose value cannot be read is never written, because -2 cut to 13 bits is no level to change from |
| Priority.PrioBits | daemon/gamemode-ioprio.c:96-105 | encoding twice is encoding once, levels survive encoding, and an unreadable task reads as 8190 |
| Priority.IoprioCycleIff | daemon/gamemode-ioprio.c:114-190 | remove undoes apply on a level exactly unless it could be read and started at a configured level other than 4 |
| Priority.IoprioSessionIff | daemon/gamemode-context.c:1191-1209 | the same over any number of reloads with changing levels |
| Sessions.SessionIsIoprioSession | daemon/gamemode-context.c:1191-1209 | the same for its i/o priority level and IoprioSession |
| Priority.ConfigIoprio | daemon/gamemode-config.c:810-840 | a level between 0 and 7; "off" and "default" both give 0 |
| Config.AppendValueToList | daemon/gamemode-config.c:130-158 | a bounded append: non-empty entries stay a prefix, a rejected value changes nothing |
| Config.ListContains | daemon/gamemode-config.c:227-236 | decides exactly whether some entry is a substring of the executable |
| Config.OccursIff | daemon/gamemode-config.c:227-236 | an entry occurs exactly when it is a substring |
| Config.Whitelisted | daemon/gamemode-config.c:630-648 | an empty whitelist admits everything |
| Config.EntriesAre | daemon/gamemode-config.c:227-236 | the slots before the first empty one are all entries |
| Config.GameModeConfig.constructor | daemon/gamemode-config.c:502-528 | six separate lists without entries |
| Config.GameModeConfig.SetLong | daemon/gamemode-config.c:163-179 | a number is assigned exactly when it reads to the end and errno is not ERANGE, from this or an earlier value |
| Config.GameModeConfig.AppendTo | daemon/gamemode-config.c:130-158 | one list is appended to and the other lists do not change |
| Config.GameModeConfig.Handler | daemon/gamemode-config.c:271-373 | one line of a file assigns to the one field its section and name select, with [gpu] only in protected files |
| Config.KeyIsUnique | daemon/gamemode-config.c:271-373 | only one section and name reach a field |
| Config.LongReached | daemon/gamemode-config.c:271-373 | and they do, for each number |
| Config.StringReached | daemon/gamemode-config.c:271-373 | each string |
| Config.ListReached | daemon/gamemode-config.c:271-373 | and each list |
| Config.GameModeConfig.LoadConfigFiles | daemon/gamemode-config.c:378-482 | the load loop refines reading all lines of all files in order over cleared values |
| Config.LongIsLastAssignment | daemon/gamemode-config.c:404-474 | a number ends as its last valid assignment in location order, or its default |
| Config.LastNumberIff | daemon/gamemode-config.c:163-179 | a number ends as the last line naming it says exactly when errno is not ERANGE there or it had that value before |
| Config.LaterLineDecides | daemon/gamemode-config.c:404-474 | of several files the later one decides a number, and in a file the later line |
| Config.ThresholdIsLastAssignment | daemon/gamemode-config.c:404-474 | the iGPU threshold ends as its last valid assignment in location order, or 0.3 |
| Config.StringIsLastAssignment | daemon/gamemode-config.c:404-474 | a string ends as its last assignment, cut to 255 characters, or empty |
| Config.ListIsFirst32 | daemon/gamemode-config.c:404-474 | a list ends as the first 32 storable values in location order |
| Config.GpuFromProtectedFiles | daemon/gamemode-config.c:271-373 | every [gpu] field is a function of the protected files alone |
| Config.GpuFieldsProtected | daemon/gamemode-config.c:311-338 | no line of an unprotected file changes a [gpu] field |
| Config.NeverStale | daemon/gamemode-config.c:163-179 | when no number overflows, errno stops no assignment |
| Config.OverflowStopsLaterNumbers | daemon/gamemode-config.c:163-179 | one overflowing number stops a later valid one |
| Config.FailedOpenAllowsNumbers | daemon/gamemode-config.c:163-221 | unless a file that cannot be opened comes between them |
| Config.RangeIsStale | daemon/gamemode-config.c:163-221 | errno after a load is ERANGE exactly when some number overflowed with no failed open since |
| Capture.ReadChildStdout | common/common-external.c:42-103 | returns 0 exactly when the end of the output comes first, -1 when a failed select or read does, -2 when a timeout or the end of the time does; on success the buffer holds exactly the first 1023 characters of the output, or all of it, then NUL |
| Capture.EnoughReads | common/common-external.c:57-100 | more readable rounds than there are characters, and none that fails, always capture the output |
| Capture.Asked | common/common-external.c:76-90 | no read asks for zero characters, which would look like the end, nor for more than fits |
| Capture.RunExternalProcess | common/common-external.c:108-187 | fails exactly when there is no pipe, the child cannot be waited for, or it exits with a non-zero code, so not when it is killed or cannot be forked; the text is the captured prefix or empty |

## Left out

- D-Bus transport, signals, the client library, command line, logging, the signal-handler
  shutdown path, and waking and joining of threads.
- GPU settings, x3d mode, split-lock mitigation, custom scripts, the idle inhibitor, wine path
  resolution, scheduling policy and core pinning of tasks: none of them is tied to the
  properties above, and undoing core pinning has no inverse to prove.
- Context.GameModeContext.Restart: the test of the count and the restart are one step there;
  `Interleaving` takes them apart.
- Context.GameModeContext.AutoExpire: nobody registers meanwhile and liveness is fixed, as the exact
  end list needs; `Interleaving` has the scan and the removal as separate steps with anything in
  between. It is called only when the source's loop ends; `Context.ExpiryEndsIff` and
  `Context.GameModeContext.ExpireRound` cover the case in which it does not.
- Context.GameModeContext.Register: of a client's optimisations only the nice level and i/o priority.
- Context.GameModeContext.Unregister: the same.
- Context.GameModeContext.Reload: the same for each client.
- Context.GameModeContext.RemoveAll: the same; undoing core pinning is left out.
- Context.GameModeContext.ApplyAll: the same; scheduling policy and core pinning are left out.
- Mode.GameMode.StoreDefaults: the saved values of split lock and x3d, which have no guard like the
  governor's and no restore property.
- Mode.GameMode.Enter: GPU, x3d, split lock, idle inhibitor and scripts. It is not called while
  entered; the interleavings of `Daemon` have enters and leaves in any order.
- Mode.GameMode.Leave: the same.
- Interleaving.Enabled: of the checks before registering only the one of the pid; the others make
  the thread give up.
- Interleaving.StepKeepsInv: atomic accesses are sequentially consistent, and the writes to settings
  between a call of enter or leave and its return are one step.
- Interleaving.FoundIsLiveIff: says when the read meets memory that is still there, not what a
  read of other memory returns; the model lets it return anything.
- CpuPark.ParkOrUnpark: an unset buffer without any NUL reads as far as its end.
- CpuPark.PrintCores: the log messages that name ranges of cores.
- CpuCoreCtl.SetState: the first and last of each range, which are only logged.
- CoreRuns.CoresConserved: whenever the cpu info is read, nothing is stored or there is a core to
  park, which by `CoreRuns.RestoresIff` is exactly when an enter and a leave are sure to conserve
  the cores; and nobody else changes core states.
- Daemon.InterleavedCores: the same; Daemon.IdleIsWhole too.
- Daemon.GovernorIsRun: what somebody else writes at the default is seen only between steps that do
  nothing to the machine.
- CpuSelect.FreqKeeps: readings below a tenth of 2^64, so that the cutoff does not wrap; the same
  for CpuSelect.KeptIff.
- Config.GameModeConfig.Store: what `strtof` makes of a value is an input; inih's parsing is the
  sequence of its handler calls.
- config_needs_reload and the inotify watches, and the locking of the configuration object.
- The inner loops over a parsed range of cores are methods of their own, called by the outer loop.
