# autohosts, modelled in Dafny

autohosts is a set of scripts that manage a numbered fleet of Incus
containers and register them with a Checkmk monitoring server. The
containers are named `generate_name(prefix, i)` for `i` in
`range(start, start + count)`. This project models:

- `autohosts/incus.py`, the wrapper around the `incus` command line,
  over an abstract hypervisor. The hypervisor is a `Hypervisor` object
  holding the fleet (a sequence of container records) and the trace of
  every command issued. An oracle set of failing commands decides exit
  statuses, and an oracle boot time decides how long a launched container
  takes to be Running.
- `autohosts/checkmk.py`, the `CheckmkAPI` REST client, over an abstract
  server. The server is a `Server` object holding folders, hosts,
  per-resource ETags, the number of completed activations and the log of
  every request. Existence probes are answered from that state; every
  other status code and body comes from an oracle `answer`.
- The four workflow scripts, each a loop over the range:
  `create_containers.py` (launch, SSH setup, address lookup, with the
  `--ignore-existing` skip), `script_containers.py` (run a script in every
  existing container), `remove_containers.py` (remove every existing
  container), and `create_and_register_checkmk.py` (create the monitoring
  folders, then register every existing container as a host and run the
  agent install script in it).

`run_command`'s `sys.exit(1)` and the uncaught `KeyError`/`IndexError` of
an address lookup end the process. Both are a `Fatal` error that travels
up through `Result` and `:-` and ends the workflow, as the Python
exception does. The pure string logic (the `~`-separated folder paths,
`str.split`/`join`/`strip`, zero-padded decimal names) is in functions
with lemmas. The code that changes state step by step is in methods, each
proved against a specification function or predicate whose own properties
are lemmas.

Files:
- `wrappers.dfy`: `Option`, `Result`.
- `text.dfy`: `str.split`, `str.join`, `in` on strings, `str.strip`.
- `naming.dfy`: `generate_name`, decimal numbers, and the names a range
  visits.
- `folder_path.dfy`: the folder-creation payload and the folder
  `create_folder_recursive` goes for.
- `checkmk.dfy`: the server and the client.
- `incus.dfy`: the hypervisor and the wrapper functions.
- `create_containers.dfy`, `script_containers.dfy`,
  `remove_containers.dfy` and `register.dfy`: the four workflows.

The model follows the code where it departs from what the project
describes:
- `create_folder_recursive` returns inside its first iteration, so only
  the first-level folder of a path is ever asked for. The model keeps that
  behaviour and proves its consequence: the folder phase can only create
  `~production`, `~test`, `~dev` and `~staging`.
- `generate_name` pads to at least three digits and never truncates, so
  names beyond 999 are longer but still distinct. The model proves
  injectivity for every number `n >= 0`.
- `container_info` catches `CalledProcessError`, but `run_command` never
  lets one escape (it exits first). A failed listing therefore ends the
  process in the model too, and never yields `{}`.

## Model

| member | source | states |
|---|---|---|
| Text.Split | autohosts/checkmk.py:59-61 | `str.split(sep)` gives at least one piece, no piece holds the separator, and joining the pieces with the separator gives back the input |
| Text.SplitJoin | autohosts/checkmk.py:59-61 | splitting undoes joining whenever no piece holds the separator |
| Text.SplitSingle | autohosts/checkmk.py:43-48 | a string splits into a single piece exactly when it holds no separator |
| Text.Strip | create_containers.py:28 | `str.strip()` leaves a piece of the input framed by whitespace only, and the result neither starts nor ends with whitespace |
| Text.TrimStart | create_containers.py:28 | the leading whitespace cut off is all whitespace, and what remains does not start with whitespace |
| Text.TrimEnd | create_containers.py:28 | the trailing whitespace cut off is all whitespace, and what remains does not end with whitespace |
| Naming.DecimalRoundTrip | autohosts/incus.py:11 | `str(n)` is a non-empty digit string without a leading zero, and it reads back as `n` |
| Naming.DecimalLength | autohosts/incus.py:11 | `str(n)` has at most `k` digits exactly when `n < 10^k` |
| Naming.LeadingZeros | autohosts/incus.py:11 | zero padding does not change the value a digit string reads as |
| Naming.NameShape | autohosts/incus.py:10-11 | a generated name is the prefix followed by at least three digits that read back as the number |
| Naming.ZeroPadSplit | autohosts/incus.py:11 | the `03d` format only puts zeros in front of the digits, and the result has at least three characters |
| Naming.NameSuffix | autohosts/incus.py:10-11 | the suffix is exactly three digits up to 999, and the plain, untruncated decimal from 1000 on |
| Naming.NameInjective | autohosts/incus.py:10-11 | within one prefix, equal names come from equal numbers |
| Naming.RangeVisits | create_containers.py:34-35 | `range(start, start + count)` visits exactly `count` names (none when `count <= 0`), and a name is visited exactly when it is `generate_name(prefix, i)` for some `i` with `start <= i < start + count` |
| Naming.RangeName | create_containers.py:34-35 | the name computed in iteration `i` is the `(i - start)`-th name the range visits |
| Naming.NameRangeSnoc | remove_containers.py:19-20 | one more iteration visits one more name, at the end: the names are visited in ascending order |
| Naming.NameRangePrefix | script_containers.py:29-30 | the first `j` names of a range are the names of the range cut short after `j` numbers |
| Naming.NameRangeMembers | remove_containers.py:19-20 | a name is visited exactly when it is generated from a number of the range |
| Naming.NameRangeDistinct | create_containers.py:34-35 | a range never visits the same name twice |
| FolderPath.PayloadFor | autohosts/checkmk.py:58-63 | the folder payload's name and title are the same separator-free last segment, a suffix of the path; a path without a `~` before that segment has parent `~` |
| FolderPath.PayloadOfShortPaths | autohosts/checkmk.py:59-61 | `~a~b` has name and title `b` and parent `~a`; `~a` has name and title `a` and parent `~` |
| FolderPath.PayloadRoundTrip | autohosts/checkmk.py:58-63 | for a canonical path, the parent joined with the name (as the server files the folder) is the path itself |
| FolderPath.FirstLevelFolder | autohosts/checkmk.py:41-48 | `create_folder_recursive` asks for no folder exactly when the path has no `~` |
| FolderPath.FirstLevelIsAncestor | autohosts/checkmk.py:41-48 | for a canonical path the folder asked for is its depth-one ancestor, a prefix ending at a segment boundary; a deeper path is never asked for itself |
| Checkmk.DefaultHeaders | autohosts/checkmk.py:24-27 | the stored headers never carry `If-Match` |
| Checkmk.Server.Send | autohosts/checkmk.py:33-37 | the server logs the request and answers it in its current state; only an accepted folder or host creation or a 200 activation changes its state |
| Checkmk.FolderCreated | autohosts/checkmk.py:74-80 | True exactly on 200 or 201; False exactly on a 400 whose body contains "already exists"; any other status is an exception carrying the body |
| Checkmk.HostCreated | autohosts/checkmk.py:115-118 | True exactly on 200 or 201, otherwise an exception; never False |
| Checkmk.EtagFrom | autohosts/checkmk.py:135-140 | the first phase succeeds exactly on a 200 with a present, non-empty ETag, and yields that ETag |
| Checkmk.CheckmkApi.constructor | autohosts/checkmk.py:18-28 | the base URL is `http://{server}/{site}/check_mk`, with the default headers and the given credentials |
| Checkmk.CheckmkApi.HasFolder | autohosts/checkmk.py:30-39 | one GET of the folder; true exactly when the server has it; nothing else changes |
| Checkmk.CheckmkApi.CreateFolder | autohosts/checkmk.py:50-80 | an existing folder gives False after the probe alone; otherwise one POST of the payload, classified as in `FolderCreated`, and the folder is recorded exactly when the POST was accepted; a folder created or found is present afterwards, so a second call is a probe answering False |
| Checkmk.CheckmkApi.CreateFolderRecursive | autohosts/checkmk.py:41-48 | a path without `~` does nothing and gives None; otherwise exactly the effect of `create_folder` on the first-level folder, with its result |
| Checkmk.CheckmkApi.HasHost | autohosts/checkmk.py:82-92 | one GET of the host; true exactly when the server has it; nothing else changes |
| Checkmk.CheckmkApi.CreateHost | autohosts/checkmk.py:94-118 | one POST and no existence check; on acceptance the host is stored with the given folder and address, otherwise an exception and no new host |
| Checkmk.CheckmkApi.GuardedPost | autohosts/checkmk.py:129-151 | a GET of the guarding resource; a non-200 or missing or empty ETag fails before any POST; otherwise one POST whose headers are the stored ones plus `If-Match` equal to the server's ETag |
| Checkmk.CheckmkApi.DiscoverServices | autohosts/checkmk.py:120-156 | the guarded POST of mode "new" on the host object's ETag; a non-200 reply is an exception; folders, hosts and activations are unchanged |
| Checkmk.CheckmkApi.ActivateChanges | autohosts/checkmk.py:158-196 | the guarded POST of the fixed activation body on the activation ETag; it succeeds exactly on a 200 reply, and then counts as one more activation |
| Incus.FirstNamed | autohosts/incus.py:31-37 | `container_info`'s answer is empty exactly when no entry has the name, and otherwise an entry with that name |
| Incus.FirstNamedIndex | autohosts/incus.py:31-33 | the entry found is the first one with the name |
| Incus.ListingKeepsFirst | autohosts/incus.py:29-33 | searching the filtered `incus list NAME` output for the exact name finds what searching the whole fleet finds |
| Incus.RemoveNamedSpec | autohosts/incus.py:80-82 | `incus rm --force NAME` takes exactly that name out of the fleet and keeps names unique |
| Incus.RemoveNamedKeeps | autohosts/incus.py:80-82 | removing one name leaves the first entry of every other name as it was |
| Incus.Tick | autohosts/incus.py:57 | a second of waiting keeps the fleet's names and order |
| Incus.TickKeepsRunning | autohosts/incus.py:57 | a Running container is still Running after a second of waiting |
| Incus.UntilFailureSpec | autohosts/incus.py:16-24 | commands run in order until the first failure; the failing one is the last to run, and with no failure all of them run |
| Incus.Hypervisor.Execute | autohosts/incus.py:19 | the command is recorded; it succeeds as the oracle says (a launch of an existing name fails), and only a successful command has its effect |
| Incus.Hypervisor.Sleep | autohosts/incus.py:57 | one second passes on the fleet; no command is issued |
| Incus.RunCommand | autohosts/incus.py:16-24 | the command is issued; a non-zero exit ends the process with status 1 and has no effect |
| Incus.RunInOrder | autohosts/incus.py:60-78 | successive `run_command` calls inside containers: the trace grows by the commands up to the first failure, the process ends exactly when one fails, and the fleet is unchanged |
| Incus.ContainerInfo | autohosts/incus.py:27-37 | one listing; a failed listing ends the process (never `{}`); otherwise the first entry with the name, or nothing |
| Incus.FindNamed | autohosts/incus.py:29-31 | the loop over the listing returns the first entry whose name is exactly the one asked for, and nothing when there is none |
| Incus.ContainerExists | autohosts/incus.py:43-45 | one listing; true exactly when the fleet has a container of that name |
| Incus.Ipv4Of | autohosts/incus.py:41 | the first eth0 address when the container, its eth0 and an address are there; a missing container is a `KeyError` |
| Incus.ContainerIpv4 | autohosts/incus.py:39-41 | one listing; status 1 exactly when it fails; otherwise the first eth0 address of the container, or a lookup error |
| Incus.ContainerCreate | autohosts/incus.py:47-57 | a launch followed only by listings of that name; on success the name was new, the fleet grew by it alone, and it is Running; on failure the fleet is unchanged or grew by that new name alone; a container that was Running stays Running |
| Incus.LaunchKeepsRunning | autohosts/incus.py:50 | a launched container joins the fleet at the end, so every container that was Running is still found Running |
| Incus.AwaitRunning | autohosts/incus.py:53-57 | the poll issues only listings of the name and keeps the fleet's names; it returns only once the container is Running, and every container that was Running stays Running |
| Incus.ContainerSetupSsh | autohosts/incus.py:60-78 | the six commands in order, up to the first failure, which ends the process; the fleet is unchanged |
| Incus.ContainerRemove | autohosts/incus.py:80-82 | one removal; on success exactly that name leaves the fleet, on failure the process ends and nothing changes |
| Incus.ScriptStopsAtFailure | autohosts/incus.py:90-94 | push, exec and delete run in that order; a failed push runs nothing else, and a failed exec leaves the file undeleted |
| Incus.ScriptFails | autohosts/incus.py:90-94 | the script ends the process exactly when its push, exec or delete fails |
| Incus.ScriptRunsOnce | autohosts/incus.py:90-94 | the script's commands run it at most once, only in its own container, and exactly once when none fails |
| Incus.ContainerExecuteScript | autohosts/incus.py:84-94 | the trace grows by push, exec and delete up to the first failure; the process ends exactly when one fails; the fleet is unchanged |
| CreateContainers.TargetsSpec | create_containers.py:37-42 | the names to create are the visited names, less the existing ones with `--ignore-existing`; without it every visited name |
| CreateContainers.TargetsPrefix | create_containers.py:34-42 | what a shorter run is to create is a prefix of what a longer one is to create |
| CreateContainers.GrownAppend | create_containers.py:43 | appending SSH setup commands inside containers this run created keeps the run's state grown: each such command still comes after that container's launch, and the launches of the run grow by those of the appended commands |
| CreateContainers.GrownAdd | create_containers.py:42 | a new container launched during this run joins the created ones |
| CreateContainers.CreateIssued | autohosts/incus.py:50-57 | a creation adds one launch of its name, followed by listings that run in no container; the commands it adds launch exactly that name |
| CreateContainers.Boot | create_containers.py:42 | `container_create`: on success the name is created and launched, and it is Running; containers that were Running stay Running; on failure the process ends, with the fleet grown by the name or not at all |
| CreateContainers.Configure | create_containers.py:43-48 | for a created container that is Running, the SSH setup commands run until the first failure, followed by the address listing only when none failed; on success the trace grew by exactly the six SSH setup commands and the listing; the fleet is unchanged, nothing is launched, and nothing else runs inside a container |
| CreateContainers.SshKeepsGrown | autohosts/incus.py:60-78 | the SSH setup commands, up to the first failure, keep the run's state grown and launch nothing |
| CreateContainers.ListKeepsGrown | create_containers.py:43-46 | when no SSH setup command failed, those commands and the address listing are exactly the whole setup of the name, and they keep the run's state grown |
| CreateContainers.Provision | create_containers.py:42-48 | create, then SSH setup, then the address lookup: the trace extends the old one and its next command is the launch of the name with the given image and instance type, the only launch it issues; on success that launch is followed by status listings of the name and then by exactly the whole setup of the name, which ends the trace; the fleet has grown by the name alone, launched once, the name and all earlier created containers are Running, and every SSH setup command comes after the launch of its container; on failure the fleet grew by the name or not at all |
| CreateContainers.ProvisionLaunches | autohosts/incus.py:47-78 | the launch a provisioning issues is the only one it issues, so every new launch carries its image and instance type |
| CreateContainers.BootThenSetup | create_containers.py:42-48 | a launch with its status listings, followed by the whole setup of the name, is a successful provisioning of that name |
| CreateContainers.ProvisionSetUp | create_containers.py:38-48 | provisioning keeps the names already set up set up, and a successful one sets up its name as well |
| CreateContainers.SetUpExtends | create_containers.py:34-48 | a name set up in a trace stays set up in any longer trace that extends it |
| CreateContainers.SetUpAdd | create_containers.py:43-46 | a name whose whole setup occurs in the trace after the run began joins the names set up |
| CreateContainers.Existing | create_containers.py:38 | `container_exists` under `--ignore-existing`: one listing of the name, true exactly when the container existed when the run began; the fleet and what was set up are unchanged |
| CreateContainers.CreateOne | create_containers.py:37-48 | the first command of an iteration is the existence listing with `--ignore-existing` and the launch without it, so no existence check is made without the flag; with it a name that existed is skipped and nothing is created for it; otherwise it is created with the command-line image and instance type and, on success, set up: the fleet and the launches grow by exactly the names created, all of them are Running, and each of them has had its whole SSH setup and address listing |
| CreateContainers.NextTarget | create_containers.py:37-42 | the next name has not been created yet, and it is the next to create unless `--ignore-existing` skips it |
| CreateContainers.FailedPrefix | create_containers.py:34-48 | a run that stops early has created a prefix of what the whole run is to create |
| CreateContainers.CreateStep | create_containers.py:35-48 | one iteration: on success the fleet has grown by the targets so far plus this one, each of them set up; on failure by a prefix of all targets, all but possibly the last of them set up; every launch since the start carries the command-line image and instance type |
| CreateContainers.CreateLoop | create_containers.py:34-48 | the loop leaves the fleet grown by all targets, launched in ascending order with the command-line image and instance type and all Running, with the whole SSH setup and the address listing run for each target, SSH commands only in created containers and each after that container's launch; if it stops early, grown by a prefix of them, all but possibly the last set up, with the same order of launch before SSH setup |
| CreateContainers.CreateContainers | create_containers.py:27-48 | an unreadable key exits with status 1 before any command; otherwise the stripped key is used, the loop's outcome holds and every launch of the run is of `args.image` with `args.type` |
| CreateContainers.LaunchesJoin | create_containers.py:34-42 | launches of the given image and type before and after a point of the trace make launches of that image and type over the whole extension |
| CreateContainers.CreateRange | create_containers.py:34-48 | a complete run leaves every name of the range present and adds no other name; without `--ignore-existing`, none of them was present before |
| RemoveContainers.StepProbes | remove_containers.py:21 | an iteration lists its name exactly once |
| RemoveContainers.StepClears | remove_containers.py:21-22 | an iteration that does not end the run leaves no container of its name; no iteration adds a container |
| RemoveContainers.StepKeeps | remove_containers.py:21-22 | an iteration touches no other name |
| RemoveContainers.RunSnoc | remove_containers.py:19-22 | an iteration of a run that has not ended is one more step of it |
| RemoveContainers.HaltedStays | remove_containers.py:19-22 | once the process has ended, later iterations change nothing |
| RemoveContainers.RemoveOne | remove_containers.py:20-22 | `container_exists`, then `container_remove` only if it exists: the hypervisor advances by one step of the run |
| RemoveContainers.RunFinished | remove_containers.py:19-22 | a run that has ended or visited every name is the whole run |
| RemoveContainers.RemoveContainers | remove_containers.py:19-22 | the loop leaves the fleet and the trace exactly where the whole run leaves them, and ends the process exactly when the run does |
| RemoveContainers.ProbesInOrder | remove_containers.py:19-21 | names are listed once each in ascending order, all of them unless the process ends |
| RemoveContainers.FleetShrinks | remove_containers.py:19-22 | a run never adds a container |
| RemoveContainers.RemovesOnlyExisting | remove_containers.py:21-22 | every removal names a visited container that existed |
| RemoveContainers.RangeCleared | remove_containers.py:19-22 | after a run with no fatal error, no visited name is left |
| RemoveContainers.OutsideUntouched | remove_containers.py:19-22 | containers whose names are not visited are untouched, even when the run ends early |
| RemoveContainers.NothingToRemove | remove_containers.py:21 | on a fleet without any of the names the run only lists |
| RemoveContainers.SecondRunRemovesNothing | remove_containers.py:21 | a second run over the same names removes nothing and leaves the fleet as the first left it |
| RemoveContainers.RemoveRange | remove_containers.py:19-22 | over the range: only existing containers of the range are removed, a run with no fatal error leaves none of them, and every other name keeps its container |
| ScriptContainers.VisitsOfAt | script_containers.py:29-36 | the `k`-th iteration is the visit of the `k`-th name |
| ScriptContainers.HaltedStays | script_containers.py:29-36 | once the process has ended, later iterations change nothing |
| ScriptContainers.ScriptOne | script_containers.py:30-36 | an absent container is skipped after its listing; an existing one runs the script; the hypervisor advances by that visit |
| ScriptContainers.ScriptContainers | script_containers.py:23-36 | an unreadable script exits with status 1 before any command; otherwise the trace grows by the whole run's commands, the fleet is unchanged, and the process ends exactly when the run does |
| ScriptContainers.VisitProbes | script_containers.py:32 | a visit lists its name exactly once |
| ScriptContainers.ProbesInOrder | script_containers.py:29-32 | names are listed once each in ascending order, all of them unless the process ends |
| ScriptContainers.ScriptRuns | autohosts/incus.py:90-94 | the script runs once in its own container unless its push fails |
| ScriptContainers.VisitRuns | script_containers.py:32-36 | a visit runs the script at most once, only in its own, existing container, and exactly once when the process goes on |
| ScriptContainers.RunsOnce | script_containers.py:29-36 | over distinct names, the script runs exactly once in every visited existing container and in no other, at most once when the run ends early |
| ScriptContainers.PushedAppend | autohosts/incus.py:90-93 | joining traces in which every run executes the freshly pushed script keeps that property |
| ScriptContainers.VisitPushed | autohosts/incus.py:88-93 | in a visit, every exec runs the file pushed with the script bytes to that container just before |
| ScriptContainers.PushedInRun | script_containers.py:29-36 | in a whole run, every exec runs the same script bytes pushed to that container just before |
| ScriptContainers.ScriptRange | script_containers.py:29-36 | over the range: listed in ascending order; the script runs exactly once in every existing container of the range and in no other (at most once if the process ends); always the same bytes |
| Register.ShortPathTop | autohosts/checkmk.py:41-48 | a two-level path `~a~b` asks for `~a`, strictly shorter, which the server files under that very path |
| Register.FoldersFirstLevel | create_and_register_checkmk.py:12-21 | every entry of `FOLDERS` asks for its environment folder only, never the `~db`/`~web` sub-folder |
| Register.ProbesUpTo | create_and_register_checkmk.py:47-49 | the first `k` passes of the folder loop probe the first-level folders of the first `k` entries, in order |
| Register.ProbesNext | create_and_register_checkmk.py:47-49 | one more pass adds the next entry's probe |
| Register.FolderStep | create_and_register_checkmk.py:48-53 | one pass: a probe of the first-level folder, created when missing and accepted; an exception counts as not created; hosts and activations are unchanged |
| Register.GrewStep | create_and_register_checkmk.py:49-50 | a created folder keeps the folders grown by environments only and sets `changed` |
| Register.CreateFolders | create_and_register_checkmk.py:46-52 | all 8 entries are probed in order; `changed` holds exactly when the folders grew; they grow only by the four environments; hosts and activations are unchanged |
| Register.FolderPhase | create_and_register_checkmk.py:45-58 | after the folder loop, `activate_changes` is called once exactly when `changed`, and not at all otherwise; no host creation request is made |
| Register.RegisteredStep | create_and_register_checkmk.py:60-84 | registering `done` and then one new name is registering `done + [name]`, commands issued included |
| Register.RegisteredNext | create_and_register_checkmk.py:60-84 | one pass of the register loop extends the visited prefix; a pass that ended the run stays within what visiting every name allows |
| Register.RegisteredStart | create_and_register_checkmk.py:60 | before the loop nothing is registered |
| Register.RegisteredWiden | create_and_register_checkmk.py:60-84 | a run that stopped after some names stays within what visiting all of them allows |
| Register.IssuedStart | create_and_register_checkmk.py:60 | before the loop no command has been issued |
| Register.IssuedStep | create_and_register_checkmk.py:60-84 | the commands issued for `done` and then for one more name are those issued for `done + [name]`, and each script run is still right after the push of the script bytes |
| Register.IssuedListings | create_and_register_checkmk.py:64-68 | a visit that only lists its name issues listings of that name alone |
| Register.IssuedScript | create_and_register_checkmk.py:84 | the install-script run of an existing container pushes exactly the rendered script bytes to the temporary path and then runs that path with `bash` in the same container |
| Register.IssuedWiden | create_and_register_checkmk.py:60-84 | commands issued while visiting some names are commands issued while visiting any names that include them |
| Register.GetLogged | autohosts/checkmk.py:158-196 | a GET followed by at most one POST that is not a host creation shows in the GET log as that GET and files no host |
| Register.EnrolledOne | create_and_register_checkmk.py:70-76 | enrolling an existing container files at most one new host, in an entry of `FOLDERS`, under the container's address |
| Register.AddHost | create_and_register_checkmk.py:70-76 | `create_host` only when `has_host` is false: a known host gets the probe alone; an unknown one gets the probe and then exactly one creation request for its name, address and folder, so the host names filed grow by the name exactly when it was unknown; a new host is filed under the given address in an entry of `FOLDERS`; an exception counts as not created |
| Register.ProbeLogged | autohosts/checkmk.py:82-92 | a `has_host` probe adds its host to the GETs and files no host |
| Register.FilingLogged | create_and_register_checkmk.py:71-73 | a `has_host` probe followed by a `create_host` request adds one GET of the host and files exactly its name |
| Register.EnrollHost | create_and_register_checkmk.py:70-82 | one `has_host` probe of the name; one creation request for it exactly when it was not a host; `activate_changes` runs exactly when `create_host` answered True in this iteration; at most one new host, the enrolled container |
| Register.Untouched | create_and_register_checkmk.py:64-66 | a visit that only listed its name issues nothing else and changes no host, activation or script run |
| Register.Scripted | create_and_register_checkmk.py:68-84 | a visit of an existing container that probed it, filed it when it was unknown and ran the script is a registration of that one name, whose only commands are its two listings and the install script with the rendered bytes |
| Register.EnrolmentCounted | create_and_register_checkmk.py:71-80 | enrolling an existing container adds one `has_host` probe of it and one activation exactly when the host was created |
| Register.FilingCounted | create_and_register_checkmk.py:71-73 | enrolling an existing container adds one creation request for it exactly when it was not a host at the start |
| Register.UnknownStep | create_and_register_checkmk.py:60-73 | the creation requests owed after one more name are those owed before plus one for that name if it exists and was not a host, since earlier visits created only their own names |
| Register.RegisterOne | create_and_register_checkmk.py:61-84 | a missing container is skipped with only its listing and no Checkmk request; otherwise the only commands are listings of the name and the script commands in that container, each `bash` run of the temporary path right after the push of the rendered script bytes; when the visit completes, an existing container was probed with `has_host` exactly once, filed with `create_host` exactly once when it was not a host, given one activation per new host, and had the script run exactly once, whatever the enrolment's outcome; a visit that ends the run does each of these at most once; failed `incus` commands and failed lookups end the process |
| Register.RegisterLoop | create_and_register_checkmk.py:60-84 | over the range: the only commands issued are listings of names of the range and install-script commands in existing containers of the range, each run of the script right after the push of the rendered bytes; old hosts are kept; every new host is an existing container of the range, filed in an entry of `FOLDERS` under its address; one activation per new host; every existing container of the range gets exactly one `has_host` probe, exactly one `create_host` request when it was not a host, and exactly one script run, and no other name gets any (at most one each if the process ends) |
| Register.RegisterContainers | create_and_register_checkmk.py:25-84 | `main`: the folders grow only by the four environments, with one activation when they grew, and the folder phase files no host; then the register loop's guarantees hold, counting probes and host creations from the start of the run, with the rendered install script the only script pushed; the fleet is unchanged |

## Left out

- HTTP transport (`requests.Session`, authentication, TLS verification, the
  warning suppression): requests go straight to the abstract server, and
  URLs are the `Resource` they address.
- JSON: the decoding of `incus list` output and the JSON of the REST
  bodies. Containers and payloads are records.
- Subprocesses and files: `subprocess.run`, the temporary file of
  `container_execute_script` (its path is the parameter `tmp`, and it
  holds the script bytes), and the reading of the key and script files
  (an `Option` the workflow receives).
- What the remote commands do inside a container (`mkdir`, `echo`,
  `chmod`, `apt-get`, the install script): they are recorded in the
  trace and do not change the fleet.
- Real time: `time.sleep(1)` is one tick of the hypervisor. A container
  that never becomes Running is not modelled; each boot ends after a
  finite number of ticks given by the hypervisor.
- `Incus.AwaitRunning`: does not model a poll that never ends. The
  hypervisor's boot times are finite, so a Stopped container (which never
  becomes Running) is excluded by its precondition; `container_create`
  never meets one, since a launch yields a starting container.
- Incus.Hypervisor.Execute: the exit status of a command is fixed for
  the whole run. The hypervisor's `failing` set holds commands, not
  positions in the trace, so a command that succeeded once succeeds each
  time it is repeated (a launch fails in addition when its name is in
  use). Runs where a listing of a name fails after an earlier listing of
  the same name succeeded are therefore not modelled: `container_ipv4`
  failing after `container_exists` succeeded, a later poll of
  `container_create` failing after an earlier one succeeded, and the
  address lookup of create_containers.py:46 failing after the poll.
- Logging, argparse and the Jinja2 rendering of the install script: the
  rendered script is the bytes passed in, and the arguments are
  parameters.
- `random.choice(FOLDERS)`: a nondeterministic pick of an entry of
  `Folders`.
- `ssh_container.py` is not part of this model: it only looks up an
  address and replaces the process with `ssh`.
- Negative numbers in `generate_name` (Python's sign-aware padding):
  numbers are `nat`.
- `str.strip` and `str.isspace` on non-ASCII whitespace: only ASCII
  whitespace is recognised.
- The ETag values themselves: they are per-resource strings held by the
  server, and no ETag ever changes.
- Checkmk's own behaviour beyond folder and host records and the
  activation count: discovered services and pending changes.
- Register.RegisterContainers: does not state that the folder phase comes
  before any container command. The folder requests and the container
  commands go to two separate objects, and the model keeps no common
  clock between them.
- Checkmk.Server.Send: an existence probe (the GET of `has_folder`,
  checkmk.py:39, and of `has_host`, checkmk.py:92) is always answered 200
  or 404 from the server's state. A server error on a folder or host that
  exists, which the source reads as absent and follows with a
  `create_folder` or `create_host` POST
  (create_and_register_checkmk.py:49, 71-73), is not modelled. So the
  model proves `HasFolder` and `HasHost` true exactly when the server has
  the resource, `CreateFolder` idempotent, and `RegisterLoop`'s "no other
  name gets any `create_host`", only for servers whose probes do not fail.
- Checkmk.CheckmkApi.CreateHost: the default folder `"~"` of
  checkmk.py:94 is not modelled; the folder is always passed, as the only
  call (create_and_register_checkmk.py:73) does.
- Checkmk.CheckmkApi.DiscoverServices: returns the reply body as text
  rather than the decoded JSON object.
