# cloudmesh-queue: job-queue bookkeeping and text protocol in Dafny

This project models the core of cloudmesh-queue. cloudmesh-queue runs shell
jobs on local or remote hosts. It keeps their records in keyed YAML stores
and tracks their state through marker lines in log files. The model covers
three source files.

- `cloudmesh/queue/jobqueue.py` (modules `Jobs`, `Stores`, `Queues`).
  - A `Job` is a class whose fields construction, `set`, `generate_command`,
    `state`, `rpid` and `kill` update in place.
  - The command line, the launch script, the log markers, the `ps` table and
    the YAML text are pure functions over strings.
  - For the command split (`SplitKeepsTokens`), the launch script
    (`ScriptReadsBack`), the log markers (`MarkerRoundTrip`) and the YAML
    text (`YamlReadsBack`), a proof shows that the text one side writes is
    read back the same by the other side. The launch command is stated by
    its shape (`RemoteCommandShape`, `CdAndLaunchShape`). The `ps` line is
    written by `ps`, not by the program, so only its parse is stated
    (`PsTable`, `ZipLookup`).
  - `Queue`, `SchedulerFIFO` and `Cluster` are classes over an ordered keyed
    store (`Stores.Store`: the keys in insertion order plus a map). The store
    stands in for YamlDB's dictionary.
- `cloudmesh/queue/jobqueue-deprecated.py` (module `JobSets`).
  - The job set is a value with a host table and a job table. Each table is a
    keyed store.
  - `Policy` picks a host for a job. It is a class whose constructor fills in
    the availability table with a loop.
  - `run_job`, `kill_job` and `delete_job` are methods of a `JobQueue` class.
    Each loops over the jobs and is proved equal to a fold (`RunFrom`,
    `KillFrom`, `DeleteAll`) whose properties are proved as lemmas.
  - `expand_args` writes `arg2_expanded` into an arguments table held by a
    class.
- `cloudmesh/job/jobqueue.py` (module `JobSpecs`): `_location` and `define`
  as pure functions.

The model replaces the outside world with explicit inputs:

| outside call | model input |
|---|---|
| file contents (`get_process_file`) | `Option<string>`, where `None` means the read failed |
| return code of `os.system` | `int` |
| output of `ps` | `Option<string>` |
| `random.choice` | a `pick` index, taken modulo the number of candidates |
| the login name | `Option<string>` |
| `Parameter.expand` | a function parameter |
| whether a host is local | membership in `{"127.0.0.1", "localhost"}` or in a set `here` of the machine's own names |

An exception, caught or not, and an early error return become explicit
outcomes, never preconditions:

- `Fails` (from `Choose`) and `Raised` (from `RunFrom`) stand for the
  `IndexError` that `get_ip` raises on an empty availability table. `run_job`
  does not catch it.
- `KRaise` and `KillRaised` stand for the failed host lookup in `kill_job`
  when no host has the job's IP. `kill_job` does not catch it.
- `KMissingIp` and `MissingIp` are `kill_job`'s early `return ""` for a
  submitted job without an IP. They are not exceptions.
- `None` from `Queue.Get`, `Queue.ItemAt`, `Cluster.Get`, `Cluster.ItemAt`
  and `SchedulerFIFO.Next` stands for the `KeyError` or `IndexError` that the
  source lets escape. `None` from `Queue.Delete` stands for the exception its
  `except` catches.
- The `KeyError` that `Cluster.activate` lets escape for an unknown name
  becomes `ok == false`, with the hosts unchanged.

Two points where the code is followed over its documentation:

- Job status defaults to `"ready"`, and `run` does not change it.
- `state` falls back to the misspelt `"unkown"`.

## Model

| member | source | states |
|---|---|---|
| Text.StripIdempotent | cloudmesh/queue/jobqueue.py:255 | stripping a stripped string changes nothing |
| Text.TokensOfJoin | cloudmesh/queue/jobqueue.py:257-259 | re-tokenising tokens joined by one separator gives the same tokens back |
| Text.SplitUnlines | cloudmesh/queue/jobqueue.py:319 | splitting the lines of text written line by line gives back the lines |
| Text.SplitJoinedLines | cloudmesh/queue/jobqueue.py:291-301 | `"\n".join(lines).splitlines()` gives back lines that contain no line break |
| Text.CutAtFirst | cloudmesh/queue/jobqueue.py:325 | `split(":", 1)` on `t + ":" + rest`, where `t` has no colon, gives `t` and `rest` |
| Text.SplitNJoin | cloudmesh/queue/jobqueue.py:169 | `split(c, n)` of tokens joined by `c` gives the first `n` tokens, then the join of the rest |
| Text.SplitNCount | cloudmesh/queue/jobqueue.py:169 | `split(" ", n)` gives at most one part more than the number of spaces |
| Text.SpacesInJoin | cloudmesh/queue/jobqueue.py:169 | joining `k` tokens with single spaces puts exactly `k - 1` spaces in |
| Stores.WithoutFacts | cloudmesh/queue/jobqueue.py:510 | deleting a key keeps the other keys distinct and in order, and drops exactly that key |
| Stores.At | cloudmesh/queue/jobqueue.py:525-534 | a position is defined for `-len <= i < len`, Python's negative indices included |
| Stores.PutGet | cloudmesh/queue/jobqueue.py:545-552 | storing under a key is read back under that key, and other keys keep their values |
| Stores.PutOrder | cloudmesh/queue/jobqueue.py:566-568 | a new key goes last and the length grows by one; an existing key keeps its place and the length |
| Stores.PutPut | cloudmesh/queue/jobqueue.py:545-552 | the second store under a key overrides the first |
| Stores.RemovePut | cloudmesh/queue/jobqueue.py:496-514 | deleting a key just added gives back the store as it was |
| Stores.RemoveGet | cloudmesh/queue/jobqueue.py:496-514 | a deleted key is gone, other keys keep their values, and the length drops by one |
| Stores.LenIsKeys | cloudmesh/queue/jobqueue.py:493-494 | the number of entries is the number of keys in order |
| Stores.AtNegative | cloudmesh/queue/jobqueue.py:525-534 | index `i - len` names the same entry as index `i` |
| Jobs.SplitCommand | cloudmesh/queue/jobqueue.py:248-261 | with a space in the command, the executable is a non-empty whitespace-free token; without one, the executable is the stripped command and the arguments are untouched |
| Jobs.SplitKeepsTokens | cloudmesh/queue/jobqueue.py:256-259 | the executable followed by the re-split arguments gives exactly the command's tokens |
| Jobs.Job.constructor | cloudmesh/queue/jobqueue.py:142-159 | unset input, output, log and shell path take `name/input`, `name.out`, `name.log` and `/usr/bin/shell`; a truthy command is split; the script name, launch command and script are generated |
| Jobs.Job.Set | cloudmesh/queue/jobqueue.py:248-261 | the stored command is the stripped command, and executable and arguments are as `SplitCommand` defines |
| Jobs.IsLocal | cloudmesh/queue/jobqueue.py:270 | a host is local when it is `127.0.0.1`, `localhost` or one of the machine's own names; an unset host is not local |
| Jobs.Nohup | cloudmesh/queue/jobqueue.py:179-188 | the command starts with `nohup ` and ends with ` &`, so the script runs detached |
| Jobs.RemoteCommand | cloudmesh/queue/jobqueue.py:263-278 | changes into the job directory and runs the nohup command, through `ssh user@host` when the host is not local; `RemoteCommandShape` proves this shape |
| Jobs.CdAndLaunchShape | cloudmesh/queue/jobqueue.py:269-278 | the launch text starts with `cd directory/name` and ends with the launch command |
| Jobs.RemoteCommandShape | cloudmesh/queue/jobqueue.py:263-278 | the launch command starts with `ssh user@host` if and only if the host is not local; it always changes into the job directory; it ends with the nohup command, quoted for ssh |
| Jobs.ScriptIsWhatNohupRuns | cloudmesh/queue/jobqueue.py:179-188 | the file nohup runs, `name.shell`, is the last component of the script name construction builds |
| Jobs.Job.GenerateCommand | cloudmesh/queue/jobqueue.py:263-278 | sets the nohup command and the launch command for the job's host |
| Jobs.Job.GenerateScript | cloudmesh/queue/jobqueue.py:280-302 | sets the script text from the job's shell path, output, log and command |
| Jobs.ScriptReadsBack | cloudmesh/queue/jobqueue.py:289-301 | the script has exactly ten lines, each stated: the shebang with `-x`, the pid written, the old output and log removed, the start marker overwriting, a date line, the command appending to the output, a date line, the end marker appending, and the closing `#` |
| Jobs.ScriptSplitsIntoLines | cloudmesh/queue/jobqueue.py:291-301 | splitting the script text at line breaks gives back exactly the lines it was joined from |
| Jobs.Logging | cloudmesh/queue/jobqueue.py:304-308 | echoes the marker into `name.log`, appending or overwriting; `MarkerFacts` and `LoggingNoBreak` state what the written line holds |
| Jobs.ParseState | cloudmesh/queue/jobqueue.py:310-328 | the state a log text records; `MarkerRoundTrip` proves a marker reads back as its message and `UnmarkedLogIsUnknown` that no marker gives `"unkown"` |
| Jobs.MarkerFacts | cloudmesh/queue/jobqueue.py:304-308 | a marker holds `cloudmesh state:`, has no line break, and carries a space and the message after its first colon |
| Jobs.FindLinesWith | cloudmesh/queue/jobqueue.py:321 | every line found holds the searched text |
| Jobs.FindLinesWithAppend | cloudmesh/queue/jobqueue.py:321 | searching two runs of lines finds the first run's matches, then the second run's |
| Jobs.LastMarkerLine | cloudmesh/queue/jobqueue.py:321-325 | the last matching line is the marker when no later line holds the marker text |
| Jobs.MarkerLinesState | cloudmesh/queue/jobqueue.py:321-325 | lines whose last marker is `logging(msg)`'s marker have the state `msg` |
| Jobs.MarkerRoundTrip | cloudmesh/queue/jobqueue.py:304-328 | a log whose last marker is written by `logging(msg)` reads back as `msg` |
| Jobs.UnmarkedLogIsUnknown | cloudmesh/queue/jobqueue.py:316-327 | an unread log, or one without a marker line, has the state `"unkown"` |
| Jobs.RunningLogReadsBack | cloudmesh/queue/jobqueue.py:296-297 | the log of a job still running reads back as `start` |
| Jobs.FinishedLogReadsBack | cloudmesh/queue/jobqueue.py:296-300 | the log of a job that finished reads back as `end` |
| Jobs.KilledLogReadsBack | cloudmesh/queue/jobqueue.py:450-473 | the log of a job killed while running reads back as `kill` |
| Jobs.Job.State | cloudmesh/queue/jobqueue.py:310-328 | the returned and stored status is the state the log text records |
| Jobs.Job.Rpid | cloudmesh/queue/jobqueue.py:330-348 | a known pid is kept; otherwise the pid file's stripped text becomes the pid; a missing file gives `None` and the status `no pid` |
| Jobs.Job.Run | cloudmesh/queue/jobqueue.py:420-428 | launches the launch command and stores the pid as `rpid` finds it |
| Jobs.KillCommand | cloudmesh/queue/jobqueue.py:450-468 | kills the pid's children and the pid locally, or the pid's process group over ssh, then appends the `kill` marker; `KillLogsKill` proves the marker is written |
| Jobs.KillLogsKill | cloudmesh/queue/jobqueue.py:450-473 | the kill command, local or over ssh, appends the `kill` marker to the log |
| Jobs.Job.Kill | cloudmesh/queue/jobqueue.py:450-473 | the status becomes `kill` whatever the return code, and the code is returned unchanged |
| Jobs.PsFields | cloudmesh/queue/jobqueue.py:168-169 | with eight or more tokens, the fields are the first seven tokens, then the rest of the line joined by single spaces; with fewer, there are fewer than eight fields |
| Jobs.ZipKeys | cloudmesh/queue/jobqueue.py:170-174 | the built entry has exactly the listed keys |
| Jobs.ZipLookup | cloudmesh/queue/jobqueue.py:170-174 | each distinct key maps to the field at its position |
| Jobs.ZipStep | cloudmesh/queue/jobqueue.py:170-174 | adding one key extends the entry by that key alone |
| Jobs.PsTable | cloudmesh/queue/jobqueue.py:161-177 | a parsed `ps` entry maps each of the eight keys to its field, and `cmd` to the rest of the line |
| Jobs.Job.Ps | cloudmesh/queue/jobqueue.py:161-177 | the entry exists if and only if the output has a second line with enough fields; it is then the table `PsTable` describes |
| Jobs.YamlLineRoundTrip | cloudmesh/queue/jobqueue.py:435 | a line `  key: value` parses back to the key and the value |
| Jobs.YamlLines | cloudmesh/queue/jobqueue.py:430-436 | the YAML text is the `name:` heading, then one line per field in the listed order |
| Jobs.YamlKeysLower | cloudmesh/queue/jobqueue.py:432-433 | every field name written is lower-case |
| Jobs.YamlReadsBack | cloudmesh/queue/jobqueue.py:430-436 | the YAML text of a job without line breaks reads back as the heading, then every field under its own key with its own value |
| Jobs.Job.ToYaml | cloudmesh/queue/jobqueue.py:430-436 | the loop builds exactly the lines `YamlLines` describes |
| Queues.Records | cloudmesh/queue/jobqueue.py:561-564 | one record per job, in order, each the job's `to_dict` |
| Queues.PutAllKeyed | cloudmesh/queue/jobqueue.py:561-568 | adding jobs (or hosts) keeps every key equal to its record's name |
| Queues.PutAllLast | cloudmesh/queue/jobqueue.py:561-564 | after adding a list of jobs, a name holds the last job added under it |
| Queues.PutAllKeeps | cloudmesh/queue/jobqueue.py:561-564 | names not in the list keep their records |
| Queues.KeyedByKept | cloudmesh/queue/jobqueue.py:496-568 | `set` and `delete` keep every key equal to its record's name |
| Queues.AddThenDelete | cloudmesh/queue/jobqueue.py:496-568 | adding a new job and deleting it gives back the store |
| Queues.Queue.constructor | cloudmesh/queue/jobqueue.py:476-491 | the experiment defaults to `./experiment` and the file to `experiment/name-queue.yaml`; the given jobs are added to the loaded store |
| Queues.Queue.Len | cloudmesh/queue/jobqueue.py:493-494 | the length is the number of keys |
| Queues.Queue.Save | cloudmesh/queue/jobqueue.py:570-572 | writes only when the store is non-empty |
| Queues.Queue.Add | cloudmesh/queue/jobqueue.py:566-568 | stores the job's record under its name and saves |
| Queues.Queue.Set | cloudmesh/queue/jobqueue.py:545-552 | stores the job's record under its name without saving |
| Queues.Queue.AddJobs | cloudmesh/queue/jobqueue.py:561-564 | stores each job in turn and saves after each one; when any job was given, the last store saved is the final one |
| Queues.Queue.Get | cloudmesh/queue/jobqueue.py:536-543 | the record exists if and only if the name is stored, and it is that name's record |
| Queues.Queue.ItemAt | cloudmesh/queue/jobqueue.py:525-534 | the record exists if and only if `-len <= i < len`; it is the record at that position, counting from the end when negative |
| Queues.Queue.Delete | cloudmesh/queue/jobqueue.py:496-514 | a stored job that can be rebuilt is removed and saved; its status is `kill` if its log says `start`, and the log's state otherwise; any other name gives `None` and changes nothing |
| Queues.Stop | cloudmesh/queue/jobqueue.py:507-509 | a rebuilt job whose log says `start` is killed; otherwise its status is the log's state |
| Queues.Queue.ToDict | cloudmesh/queue/jobqueue.py:603-614 | the configuration holds name, experiment and file name; the jobs are the stored records |
| Queues.SchedulerFIFO.constructor | cloudmesh/queue/jobqueue.py:629-640 | the cursor starts at 0, and the size is the number of keys |
| Queues.SchedulerFIFO.Next | cloudmesh/queue/jobqueue.py:645-649 | returns the record at the cursor's position in key order and advances by one; past the last key it fails and the cursor stays |
| Queues.SyncPath | cloudmesh/queue/jobqueue.py:699-700 | a directory without `/` gets `./` in front; one with `/` is unchanged |
| Queues.SyncPathIdempotent | cloudmesh/queue/jobqueue.py:699-700 | applying the path rule twice is the same as once |
| Queues.Sync | cloudmesh/queue/jobqueue.py:687-705 | rsync runs if and only if the host is not local; the result is true locally, and otherwise exactly when rsync returns 0 |
| Queues.Cluster.constructor | cloudmesh/queue/jobqueue.py:742-754 | the experiment defaults to `./experiment` and the file to `experiment/name-cluster.yaml` |
| Queues.Cluster.Len | cloudmesh/queue/jobqueue.py:765-766 | the length is the number of keys |
| Queues.Cluster.Save | cloudmesh/queue/jobqueue.py:813-815 | writes only when the store is non-empty |
| Queues.Cluster.Add | cloudmesh/queue/jobqueue.py:809-811 | stores the host under its name and saves |
| Queues.Cluster.Set | cloudmesh/queue/jobqueue.py:788-795 | stores the host under its name without saving |
| Queues.Cluster.AddHosts | cloudmesh/queue/jobqueue.py:804-807 | stores each host in turn and saves after each one; when any host was given, the last store saved is the final one |
| Queues.Cluster.Delete | cloudmesh/queue/jobqueue.py:768-777 | removes exactly that name when it is stored, and changes nothing otherwise |
| Queues.Cluster.Get | cloudmesh/queue/jobqueue.py:779-786 | the host exists if and only if the name is stored |
| Queues.Cluster.ItemAt | cloudmesh/queue/jobqueue.py:756-763 | the host exists if and only if `-len <= i < len`; it is the host at that position |
| Queues.Cluster.Activate | cloudmesh/queue/jobqueue.py:869-883 | a stored host's status becomes `active` or `inactive` and nothing else changes; an unknown name, where the source raises an uncaught `KeyError`, gives `ok == false` and changes nothing |
| Queues.Cluster.ToDict | cloudmesh/queue/jobqueue.py:846-857 | the configuration holds name, experiment and file name; the hosts are the stored records |
| JobSpecs.Location | cloudmesh/job/jobqueue.py:31-39 | the base name has no `/` and, when it is not the whole path, follows a `/`, so with `LocationParts` it is the text after the last `/`; the name is a prefix of the base name without `.` |
| JobSpecs.LocationParts | cloudmesh/queue/jobqueue-deprecated.py:64-78 | the base name ends the path, or is the whole path when it has no `/`, with an empty directory; the name stops at the first `.` |
| JobSpecs.LocationOfPath | cloudmesh/job/jobqueue.py:31-39 | `dir/stem.ext` splits into `stem`, `dir` and `stem.ext` |
| JobSpecs.LocationOfFileName | cloudmesh/job/jobqueue.py:31-39 | `stem.ext` splits into `stem`, no directory and `stem.ext` |
| JobSpecs.Or | cloudmesh/job/jobqueue.py:95-106 | a truthy option is taken; a missing or empty one gives the default |
| JobSpecs.Define | cloudmesh/job/jobqueue.py:89-107 | `name` and `executable` are copied; `user` is the option when truthy, else the login name; every other field takes its option when truthy, else its default: `.` for `remotedir`, `r-003` for `ip`, `./data` for `input` and `output`, `ready` for `status`, `bash` for `shell`, and `""` for `gpu` and `arguments` |
| JobSpecs.DefineFillsDefaults | cloudmesh/job/jobqueue.py:89-107 | every field with a non-empty default is non-empty, and an empty status becomes `ready` |
| JobSpecs.DefineIdempotent | cloudmesh/job/jobqueue.py:89-107 | defining again from a definition's own fields changes nothing |
| JobSets.AvailabilityOf | cloudmesh/queue/jobqueue-deprecated.py:661-665 | the table built from the first `n` hosts is a well-formed store; `AvailabilityOfKeys` and `AvailabilityOfValues` state what it holds |
| JobSets.AvailabilityOfKeys | cloudmesh/queue/jobqueue-deprecated.py:661-665 | an IP is in the table built from the first `n` hosts if and only if one of them offers it with spare capacity |
| JobSets.AvailabilityOfValues | cloudmesh/queue/jobqueue-deprecated.py:661-665 | an IP's value is the spare capacity of one of the hosts that offer it |
| JobSets.AvailabilityExact | cloudmesh/queue/jobqueue-deprecated.py:661-665 | the table holds exactly the IPs of hosts with `max_jobs_allowed - job_counter > 0`, each with a positive value |
| JobSets.AvailabilityValue | cloudmesh/queue/jobqueue-deprecated.py:661-665 | when no other host shares its IP, a host with spare capacity is listed with exactly that capacity |
| JobSets.Policy.constructor | cloudmesh/queue/jobqueue-deprecated.py:648-665 | the loop fills in exactly the availability table |
| JobSets.Best | cloudmesh/queue/jobqueue-deprecated.py:692-702 | the position of the first entry with the most (smart) or least (frugal) capacity |
| JobSets.Choose | cloudmesh/queue/jobqueue-deprecated.py:669-709 | the job's own IP wins when it has spare capacity; any chosen IP is available; no choice if and only if the policy is unknown; failure if and only if a known policy finds nothing available; otherwise sequential takes the first available IP and random the one at position `pick` |
| JobSets.AvailabilityOfNone | cloudmesh/queue/jobqueue-deprecated.py:661-665 | when no host has spare capacity the table is empty |
| JobSets.AvailabilityOfFirst | cloudmesh/queue/jobqueue-deprecated.py:661-665 | the first IP in the table is that of the first host, in key order, with spare capacity |
| JobSets.SequentialTakesFirst | cloudmesh/queue/jobqueue-deprecated.py:683-686 | when the job's own IP has no spare capacity, `sequential` picks the IP of the first host with spare capacity |
| JobSets.ChosenHasSpare | cloudmesh/queue/jobqueue-deprecated.py:669-709 | a chosen IP belongs to a host with spare capacity; smart chooses a maximum and frugal a minimum |
| JobSets.Policy.GetIp | cloudmesh/queue/jobqueue-deprecated.py:669-709 | the chosen IP is in the availability table |
| JobSets.GetAvailableIp | cloudmesh/queue/jobqueue-deprecated.py:313-332 | the choice `Policy(ip, spec).get_ip()` makes |
| JobSets.HostnameFrom | cloudmesh/queue/jobqueue-deprecated.py:301-311 | a name found has the IP and no earlier host has it; `None` means no remaining host has the IP |
| JobSets.GetHostname | cloudmesh/queue/jobqueue-deprecated.py:301-311 | the first host with the IP; `None` if and only if no host has it |
| JobSets.ChosenHasHostname | cloudmesh/queue/jobqueue-deprecated.py:350-372 | an IP the policy chooses always has a host name |
| JobSets.SubmitStep | cloudmesh/queue/jobqueue-deprecated.py:346-401 | keeps the key order and the other jobs; a job that is not ready leaves the job set unchanged |
| JobSets.SubmitStepFacts | cloudmesh/queue/jobqueue-deprecated.py:346-401 | a ready job becomes `submitted` to the chosen IP, that host's counter rises by exactly 1 and nothing else changes; a job that is not ready is reported skipped with its status |
| JobSets.SubmitWithinBudget | cloudmesh/queue/jobqueue-deprecated.py:346-401 | when no two hosts share an IP, a submission keeps every host within `max_jobs_allowed` |
| JobSets.SharedIpOverfills | cloudmesh/queue/jobqueue-deprecated.py:301-311 | two hosts share an IP, the first full and the second free: the job is charged to the full one, which goes over its budget |
| JobSets.RunFrom | cloudmesh/queue/jobqueue-deprecated.py:346-417 | keeps the job keys and the host keys |
| JobSets.RunKeepsOthers | cloudmesh/queue/jobqueue-deprecated.py:346-401 | jobs not selected by name are unchanged |
| JobSets.KillStepOf | cloudmesh/queue/jobqueue-deprecated.py:435-468 | only the job killed changes; it stays as it was, or it was submitted and becomes `killed` with its other fields kept; a raise leaves it `killed` |
| JobSets.KillStepFacts | cloudmesh/queue/jobqueue-deprecated.py:435-468 | a job not submitted is skipped; a submitted job without an IP ends the run unchanged; otherwise the job is marked killed and the host its IP finds is charged one job less, or, when no host has that IP, the run raises with the hosts unchanged |
| JobSets.KillAfterSubmit | cloudmesh/queue/jobqueue-deprecated.py:346-468 | killing a job just submitted gives back the host table and leaves the job killed |
| JobSets.ChargeRefund | cloudmesh/queue/jobqueue-deprecated.py:445-452 | raising a host's counter and then lowering it gives back the host table |
| JobSets.ChargeKeepsHostname | cloudmesh/queue/jobqueue-deprecated.py:301-311 | changing a counter does not change which host an IP names |
| JobSets.KillFrom | cloudmesh/queue/jobqueue-deprecated.py:435-476 | keeps the job keys and the host keys |
| JobSets.KillKeepsOthers | cloudmesh/queue/jobqueue-deprecated.py:435-468 | jobs not selected by name are unchanged |
| JobSets.KillOnlyKills | cloudmesh/queue/jobqueue-deprecated.py:435-468 | every job either stays as it was, or was submitted and becomes `killed` with nothing else changed |
| JobSets.KillRaisedAfterKilling | cloudmesh/queue/jobqueue-deprecated.py:435-468 | when `kill_job` raises, a selected job has already been killed |
| JobSets.KillNoneSelected | cloudmesh/queue/jobqueue-deprecated.py:431-433 | when no remaining job is selected, `kill_job` finishes with the job set unchanged |
| JobSets.KillSingle | cloudmesh/queue/jobqueue-deprecated.py:435-468 | `kill_job([name])` on a job in the set ends in that job's own turn's state, and raises exactly when that turn raises |
| JobSets.DeleteStep | cloudmesh/queue/jobqueue-deprecated.py:490-505 | one name's turn of `delete_job`: the name ends gone or killed, its job only changes from submitted to killed, every other job is unchanged, and no key is added |
| JobSets.DeleteAll | cloudmesh/queue/jobqueue-deprecated.py:478-505 | after all the turns every named job is gone or killed, every other job is unchanged, and no key is added |
| JobSets.DeleteAfterSubmit | cloudmesh/queue/jobqueue-deprecated.py:346-505 | deleting a job just submitted gives back the host table it started from and removes exactly that job |
| JobSets.DeleteUnsubmitted | cloudmesh/queue/jobqueue-deprecated.py:493-496 | deleting a job that is not submitted leaves the hosts as they were and removes exactly that job, keeping the order of the others |
| JobSets.Repeat | cloudmesh/queue/jobqueue-deprecated.py:233-235 | `[x] * n` has `n` copies of `x` |
| JobSets.Expanded | cloudmesh/queue/jobqueue-deprecated.py:219-241 | succeeds if and only if the lengths match or one value is given for several jobs; the result has one value per job; a single value is replicated, and a list of the right length is taken as it is |
| JobSets.Arguments.ExpandArgs | cloudmesh/queue/jobqueue-deprecated.py:219-241 | returns `Expanded`, and `arg2_expanded` holds the expanded list |
| JobSets.JobQueue.UpdatePolicy | cloudmesh/queue/jobqueue-deprecated.py:515-535 | the policy changes if and only if it is one of the four known ones |
| JobSets.JobQueue.Submit | cloudmesh/queue/jobqueue-deprecated.py:346-401 | one pass of the `run_job` loop on the job set held by the object |
| JobSets.JobQueue.RunTurn | cloudmesh/queue/jobqueue-deprecated.py:346-417 | one job's turn: either the run ends with the outcome `RunFrom` gives from here, or the rest of the fold from the new state equals the fold from the old one |
| JobSets.JobQueue.RunJob | cloudmesh/queue/jobqueue-deprecated.py:334-417 | the loop ends in the state and reports of the fold `RunFrom` |
| JobSets.JobQueue.Kill | cloudmesh/queue/jobqueue-deprecated.py:435-468 | one pass of the `kill_job` loop on the job set held by the object |
| JobSets.JobQueue.KillTurn | cloudmesh/queue/jobqueue-deprecated.py:431-474 | one job's turn: either the run ends with the outcome `KillFrom` gives from here, or the rest of the fold from the new state equals the fold from the old one |
| JobSets.JobQueue.KillJob | cloudmesh/queue/jobqueue-deprecated.py:419-476 | the loop ends in the state and report of the fold `KillFrom` |
| JobSets.JobQueue.DeleteOne | cloudmesh/queue/jobqueue-deprecated.py:490-498 | the new job set, hosts included, is `DeleteStep` of the old one; the named job ends gone or killed, and every other job is unchanged |
| JobSets.JobQueue.DeleteJob | cloudmesh/queue/jobqueue-deprecated.py:478-505 | the new job set, hosts included, is the fold `DeleteAll` of the old one; every named job ends gone or killed, every other job is unchanged, and no key is added |

## Left out

- `shlex.split` quoting: commands are split on whitespace, so quoted arguments are not modelled.
- `get_process_file` retries until a read succeeds. Its result is an input, where `None` stands for the file never being read.
- `is_local`: a host name in the set `here` stands for the machine's own names.
- Side effects are not modelled: `os.system`, `Shell.run`, ssh, rsync, `mkdir`, file writes, `Console`/`banner`/`print`, and `sleep`. Only their inputs and results appear.
- YamlDB and Configuration persistence are not modelled. `Queue.save`/`Cluster.save` record the store they would write. The deprecated job set is one value that every loop iteration reads and writes back. This assumes that every Configuration opened on the same file shares one state; the Configuration class is not part of this model. `delete_job` relies on it most: it loads its own `spec`, calls `kill_job`, which opens and writes another, and then saves its own. The model, `DeleteAfterSubmit` included, holds only under that assumption; with separate copies, the save would undo the kill's counter change.
- `Job.sync`, `load_from_yaml`, `info`, `example`, `reset`, `to_json`, the get-log helpers, `Host.ping` and `Host.probe` are outside this model. So are the deprecated `template`, `add_template`, `add`, `update_spec`, `addhost`, `delete_host`, `print_hosts`, `print_jobs`, `show_list` and `set_attribute`.
- The counters are integers. The `int()`/`str()` round trip through the YAML text is not modelled.
- `JobSets.Choose`: the random policy is modelled as choosing position `pick` mod the number of available IPs, so only "some available IP" is meant.
- `JobSets.JobQueue.RunJob`: report fields that only echo the job's name, user and executable are left out. `picks(i)` stands for the random choice made for the `i`-th job.
- `JobSets.JobQueue.DeleteJob`: a call without names iterates over a live view of the keys while deleting. Python raises a RuntimeError there, so only a given list of names is modelled.
- `Jobs.Job.constructor`: it requires that a truthy command is not made only of spaces. `set` raises an IndexError on such a command, and that error is not modelled as an outcome.
- Markers always go to `name.log`, while `state` reads the file named by `log`. The model takes the log text as an input, so it does not model a custom `log` name that differs from `name.log`.
- The FastAPI services, the command-line front ends and the scheduler loops the command line refers to (the scheduler's `run`, `wait_on_running`, `refresh`, `reset` and `get_free_hosts`, and `SchedulerFIFOMultiHost`) are not part of this model. None of them is defined in the modelled files; `Job.run` and `Job.reset` are different methods.
- `Queues.SchedulerFIFO.Next`: `self.jobs.keys()` is indexed by position. The model assumes YamlDB's `keys()` returns a sequence in insertion order; YamlDB is not part of this model.
