# crun cgroup decisions and seccomp-notify plugins in Dafny

This project models three parts of crun, the OCI container runtime.

- **The seccomp-notify plugins.** The kernel hands a seccomp notification to a plugin. The plugin either answers it with an errno or leaves it to the next plugin. Two plugins are modelled:
  - the Rust example plugin (`seccompwatcher.rs`), which vets `mknod` against an allow-list of character devices and then checks `CAP_MKNOD`;
  - the C example plugin (`full.c`), which refuses every request with `ENOSPC`.
- **The cgroup front end (`cgroup.c`).** This covers:
  - choosing the cgroup manager;
  - entering a cgroup, with the rootless fallback and the early `SIGSTOP` decision;
  - destroying a cgroup;
  - detecting an OOM kill from the memory counters;
  - the freezer state;
  - the status a container saves and reloads.
- **The cgroup utilities and the cgroupfs manager (`cgroup-utils.c`, `cgroup-cgroupfs.c`, `cgroup-internal.h`).** This covers:
  - reading `/proc/self/cgroup`;
  - detecting the cgroup layout (legacy, hybrid or unified) from the file system magic of `/sys/fs/cgroup`;
  - parsing a `cgroup.procs` buffer into a pid array;
  - choosing which hierarchies to clean up when a cgroup is destroyed;
  - the path and the calls of the cgroupfs manager.

The operating system is a parameter, not something the model calls. `statfs` results, the file contents, `/proc/<pid>/mem` reads, `capget`, `fork` and `waitid` come in as values:
- `CgroupUtils.Statfs`;
- `CgroupInternal.Host` for the file system, the effective uid and user namespaces;
- `SeccompWatcher.Kernel` for the seccomp plugin.

`SeccompWatcher.HandleMknodRequest`, `Cgroup.CreateCgroup`, `CgroupCgroupfs.EnterCgroupfs`, `CgroupCgroupfs.DestroyCgroupfs` and `Cgroup.CgroupDestroy` return the calls they made alongside their result. This lets the order of those calls be stated and proved. The other operations return only their result.

Modules:

- `Wrappers` holds `Option` and `Result`.
- `Strings` holds the C and Rust string routines the code relies on:
  - `strchr` / `position`;
  - `strstr`;
  - `strtok_r`;
  - `strtoul`;
  - the `pid_t` truncation;
  - `%d`.
- `CgroupInternal` holds the cgroup status, the layouts, the manager ids, the delegate annotation, `is_rootless` and the host interface.
- `CgroupUtils` models `cgroup-utils.c`.
- `CgroupCgroupfs` models `cgroup-cgroupfs.c`.
- `Cgroup` models `cgroup.c`.
- `SeccompNotify` holds the plugin interface types: the notification, and the response object the plugin fills in.
- `SeccompWatcher` models the Rust plugin.
- `FullPlugin` models the C plugin.

Imperative code is modelled as classes and methods:
- the `/proc/self/cgroup` reader (`ProcCgroupReader`), whose `strtok_r` state is a field;
- the cached cgroup layout (`CgroupModeCache`);
- the pid array that `read_pids_cgroup` grows with `realloc` (`PidArray`, over an `array<int>`);
- the loops of `must_stop_proc`, of `destroy_cgroup_path` and of the OOM counter scan;
- the plugins' `handle_request`, which fill in the response object.

Each method is proved against a function that specifies it. The properties are proved about that function.

## Model

| member | source | states |
|---|---|---|
| SeccompWatcher.PluginVersion | contrib/seccomp-notify-plugin-example-rust/src/seccompwatcher.rs:35-38 | The plugin reports interface version 1. |
| SeccompWatcher.Stop | contrib/seccomp-notify-plugin-example-rust/src/seccompwatcher.rs:40-43 | Stopping always succeeds. |
| SeccompWatcher.Start | contrib/seccomp-notify-plugin-example-rust/src/seccompwatcher.rs:45-52 | Start succeeds exactly when the configuration has the size of the configuration struct; otherwise it returns -EINVAL. |
| SeccompWatcher.FindDevice | contrib/seccomp-notify-plugin-example-rust/src/seccompwatcher.rs:139-144 | A device found in the table has the requested major and minor. |
| SeccompWatcher.FindDeviceFindsFirst | contrib/seccomp-notify-plugin-example-rust/src/seccompwatcher.rs:139-144 | The search finds a device exactly when some table entry matches, and it returns the first match. |
| SeccompWatcher.AllowListMembers | contrib/seccomp-notify-plugin-example-rust/src/seccompwatcher.rs:18-24 | A device is allowed exactly when it is one of /dev/null, zero, full, random and urandom (major 1, minor 3, 5, 7, 8 or 9). |
| SeccompWatcher.AllowListDistinct | contrib/seccomp-notify-plugin-example-rust/src/seccompwatcher.rs:18-24 | No two allow-list entries name the same device number. |
| SeccompWatcher.Major | contrib/seccomp-notify-plugin-example-rust/src/seccompwatcher.rs:136 | The major number is (dev / 256) mod 256, so it is below 256. |
| SeccompWatcher.Minor | contrib/seccomp-notify-plugin-example-rust/src/seccompwatcher.rs:137 | The minor number is dev mod 256, so it is below 256. |
| SeccompWatcher.DeviceNumberRoundTrip | contrib/seccomp-notify-plugin-example-rust/src/seccompwatcher.rs:136-137 | Decoding a packed device number gives back its major and minor. |
| SeccompWatcher.DeviceNumberLow16 | contrib/seccomp-notify-plugin-example-rust/src/seccompwatcher.rs:136-137 | Only the low 16 bits of the dev argument take part in the device check. |
| SeccompWatcher.Utf8Width | contrib/seccomp-notify-plugin-example-rust/src/seccompwatcher.rs:104-111 | One step of the UTF-8 check never consumes more than the bytes left; it takes exactly one byte for ASCII, refuses a stray continuation byte or a lead byte above 0xF4, and every further byte it takes is a continuation byte 0x80-0xBF. |
| SeccompWatcher.AsciiIsValidUtf8 | contrib/seccomp-notify-plugin-example-rust/src/seccompwatcher.rs:104-111 | Every ASCII path passes the UTF-8 check. |
| SeccompWatcher.GetStringFromBuffer | contrib/seccomp-notify-plugin-example-rust/src/seccompwatcher.rs:86-113 | A success is the NUL-free, valid UTF-8 prefix before the first NUL. A buffer with no NUL, or whose text before the first NUL is not valid UTF-8, gives EINVAL. |
| SeccompWatcher.GetStringRoundTrip | contrib/seccomp-notify-plugin-example-rust/src/seccompwatcher.rs:86-113 | A valid UTF-8 path followed by a NUL is read back unchanged, whatever comes after it. |
| SeccompWatcher.LeadingNulIsEmptyPath | contrib/seccomp-notify-plugin-example-rust/src/seccompwatcher.rs:87-95 | A buffer that starts with NUL gives the empty path. |
| SeccompWatcher.OverlongSlashRefused | contrib/seccomp-notify-plugin-example-rust/src/seccompwatcher.rs:104-111 | The overlong encoding of '/' (C0 AF) is refused with EINVAL. |
| SeccompWatcher.FnameBuffer | contrib/seccomp-notify-plugin-example-rust/src/seccompwatcher.rs:116-127 | The path buffer is PATH_MAX bytes: the bytes pread returned, then zeros. |
| SeccompWatcher.ShortReadIsTerminated | contrib/seccomp-notify-plugin-example-rust/src/seccompwatcher.rs:116-129 | A read shorter than PATH_MAX leaves a terminating NUL, so a valid path read that way decodes to itself. |
| SeccompWatcher.FullReadWithoutNulRefused | contrib/seccomp-notify-plugin-example-rust/src/seccompwatcher.rs:116-129 | A full PATH_MAX read without a NUL is refused with EINVAL. |
| SeccompWatcher.StageVerdicts | contrib/seccomp-notify-plugin-example-rust/src/seccompwatcher.rs:115-172 | The mknod check has nine stages, each with its own verdict. |
| SeccompWatcher.FirstRejection | contrib/seccomp-notify-plugin-example-rust/src/seccompwatcher.rs:115-172 | The combined verdict is Ok(0) when it succeeds. |
| SeccompWatcher.FirstRejectionPasses | contrib/seccomp-notify-plugin-example-rust/src/seccompwatcher.rs:115-172 | The combined verdict succeeds exactly when every stage passes. |
| SeccompWatcher.FirstRejectionAt | contrib/seccomp-notify-plugin-example-rust/src/seccompwatcher.rs:115-172 | The combined verdict is the errno of the first stage that fails. |
| SeccompWatcher.StagesRunInOrder | contrib/seccomp-notify-plugin-example-rust/src/seccompwatcher.rs:115-172 | handle_mknod_request returns the first failure, in this stage order: open, pread, close, char-device type, allow-list, capget, CAP_MKNOD, fork, waitid. |
| SeccompWatcher.MemoryStagesInOrder | contrib/seccomp-notify-plugin-example-rust/src/seccompwatcher.rs:116-127 | The first-failure order holds when opening, reading or closing /proc/<pid>/mem fails. |
| SeccompWatcher.DeviceStagesInOrder | contrib/seccomp-notify-plugin-example-rust/src/seccompwatcher.rs:129-144 | The first-failure order holds when the path or the device check fails. |
| SeccompWatcher.CapabilityStagesInOrder | contrib/seccomp-notify-plugin-example-rust/src/seccompwatcher.rs:146-160 | The first-failure order holds when capget fails or CAP_MKNOD is missing. |
| SeccompWatcher.ProbeStagesInOrder | contrib/seccomp-notify-plugin-example-rust/src/seccompwatcher.rs:162-171 | The first-failure order holds once every check passed and the fork/waitid probe decides. |
| SeccompWatcher.CallsByStage | contrib/seccomp-notify-plugin-example-rust/src/seccompwatcher.rs:115-172 | Gives the exact system calls made for each outcome. The longest sequence, ending in fork and then waitid on the child, is made only when every check passed. |
| SeccompWatcher.ProbeFollowsChecks | contrib/seccomp-notify-plugin-example-rust/src/seccompwatcher.rs:146-169 | fork is called exactly when every earlier check passed. Any waitid waits on the forked child's pid. |
| SeccompWatcher.CapgetFollowsDeviceChecks | contrib/seccomp-notify-plugin-example-rust/src/seccompwatcher.rs:131-154 | capget is called exactly when the memory read succeeded and the target is an allowed char device. |
| SeccompWatcher.MemoryHandleReleased | contrib/seccomp-notify-plugin-example-rust/src/seccompwatcher.rs:116-127 | Once /proc/<pid>/mem is open it is closed, on every path. |
| SeccompWatcher.DecisionIgnoresPath | contrib/seccomp-notify-plugin-example-rust/src/seccompwatcher.rs:129 | The decoded path is never used: the decision, and the calls made, do not depend on the bytes that were read. |
| SeccompWatcher.NonCharDeviceRefused | contrib/seccomp-notify-plugin-example-rust/src/seccompwatcher.rs:131-134 | A mknod of anything but a char device is refused with EPERM, before capget is called. |
| SeccompWatcher.ResponseError | contrib/seccomp-notify-plugin-example-rust/src/seccompwatcher.rs:66-73 | The response error is 0 exactly on success, and otherwise is the negated errno. |
| SeccompWatcher.HandleMknodRequest | contrib/seccomp-notify-plugin-example-rust/src/seccompwatcher.rs:115-172 | Success is Ok(0). The first call opens the requester's /proc/<pid>/mem, and a success ends with waitid on the forked child. The stage order is stated by StagesRunInOrder and the calls by CallsByStage. |
| SeccompWatcher.HandleRequest | contrib/seccomp-notify-plugin-example-rust/src/seccompwatcher.rs:54-84 | A mknod is answered with the request id, val 0 and the negated verdict. Any other syscall is passed on, with the response untouched. |
| FullPlugin.Start | contrib/seccomp-notify-plugin-example/full.c:18-25 | Start succeeds exactly when the configuration has the expected size; otherwise it returns -EINVAL. |
| FullPlugin.HandleRequest | contrib/seccomp-notify-plugin-example/full.c:27-33 | Every request is answered with -ENOSPC, and the id, val and flags are left as they were. |
| FullPlugin.Stop | contrib/seccomp-notify-plugin-example/full.c:35-39 | Stopping always succeeds. |
| FullPlugin.PluginVersion | contrib/seccomp-notify-plugin-example/full.c:41-45 | The plugin reports interface version 1. |
| Strings.IndexOf | contrib/seccomp-notify-plugin-example-rust/src/seccompwatcher.rs:87 | Gives the first position of a value, and None exactly when the value is absent. |
| Strings.FindSubstring | src/libcrun/cgroup-utils.c:102 | A found position is the start of an occurrence. |
| Strings.FindSubstringFirst | src/libcrun/cgroup-utils.c:102 | strstr finds the first occurrence, and None means there is none. |
| Strings.NextToken | src/libcrun/cgroup-utils.c:195 | strtok_r finds no token exactly when only delimiters are left, and each token consumes input. |
| Strings.NextTokenIsToken | src/libcrun/cgroup-utils.c:195 | A strtok_r step skips delimiters, takes a maximal delimiter-free token, and resumes after one delimiter. |
| Strings.Tokens | src/libcrun/cgroup-utils.c:195 | Tokens are nonempty and hold no delimiter. |
| Strings.TokenCountBound | src/libcrun/cgroup-utils.c:186-195 | There are at most one more token than delimiters, and no more than the delimiters when the text starts with one. |
| Strings.NextTokenDelimiters | src/libcrun/cgroup-utils.c:195 | A strtok_r step consumes as many delimiters as it skips, plus one when it ends the token. |
| Strings.TokenDelimiterCount | src/libcrun/cgroup-utils.c:195 | The delimiters of the input are those skipped, the one that ends the token, and those left. |
| Strings.Split | src/libcrun/cgroup.c:390-410 | Splitting at a delimiter gives at least one line. |
| Strings.SplitPiecesFree | src/libcrun/cgroup.c:390-410 | No line holds the delimiter. |
| Strings.JoinSplit | src/libcrun/cgroup.c:390-410 | Joining the lines gives the text back. |
| Strings.LeadingSpacesSkipsSpace | src/libcrun/cgroup-utils.c:197 | strtoul skips exactly the leading white space. |
| Strings.LeadingNumberOfDigits | src/libcrun/cgroup-utils.c:197 | Accumulating digits gives the numeral's value. |
| Strings.Strtoul | src/libcrun/cgroup-utils.c:197 | The result of strtoul never exceeds ULONG_MAX. |
| Strings.ToInt32 | src/libcrun/cgroup-utils.c:197 | Storing into pid_t keeps the value within 32 bits and leaves small non-negative values unchanged. |
| Strings.SignedDecimalText | src/libcrun/cgroup.c:83 | %d writes a minus sign exactly for a negative number. |
| Strings.DecimalValueOfText | src/libcrun/cgroup.c:83 | The decimal text of a number reads back as that number. |
| Strings.StrtoulOfNumeral | src/libcrun/cgroup-utils.c:197 | strtoul of an in-range numeral is its value. |
| Strings.StrtoulDecimalText | src/libcrun/cgroup-utils.c:197 | strtoul reads back every decimal numeral. |
| CgroupInternal.FindDelegateCgroup | src/libcrun/cgroup.c:86-100 | There is no delegate cgroup exactly when the annotation is absent or empty. Otherwise the delegate is the annotation's nonempty value. |
| CgroupInternal.DelegateIgnoresOtherAnnotations | src/libcrun/cgroup.c:86-100 | Other annotations do not change the delegate cgroup. |
| CgroupInternal.IsRootless | src/libcrun/cgroup-internal.h:45-52 | A nonzero euid is rootless. For root, the answer is whether the process is in a user namespace. |
| CgroupUtils.SplitEntryJoins | src/libcrun/cgroup-utils.c:368-379 | A parsed line is id:controllers:path with no ':' in the first two fields. |
| CgroupUtils.SplitEntry | src/libcrun/cgroup-utils.c:368-379 | The id and the controller list of a parsed line hold no ':'. The full round trip is stated by SplitEntryJoins and SplitEntryOfJoined. |
| CgroupUtils.SplitEntryNeedsTwoColons | src/libcrun/cgroup-utils.c:368-379 | A line is refused exactly when it has fewer than two colons. |
| CgroupUtils.SplitEntryOfJoined | src/libcrun/cgroup-utils.c:368-379 | Parsing a written entry gives the entry back; the path may hold colons. |
| CgroupUtils.ProcCgroupReader.Next | src/libcrun/cgroup-utils.c:361-379 | One strtok_r step of the reader yields the next entry and advances the saved position. |
| CgroupUtils.NextEntry | src/libcrun/cgroup-utils.c:361-379 | Reading an entry consumes input. |
| CgroupUtils.ProcCgroupEntries | src/libcrun/cgroup-utils.c:355-385 | Every entry read has an id and a controller list without ':'. Reading back written entries is stated by ProcCgroupEntriesOfLines. |
| CgroupUtils.ProcCgroupEntriesOfLines | src/libcrun/cgroup-utils.c:355-385 | Reading the text of a list of entries, one per line, gives the list back. |
| CgroupUtils.ReadProcCgroupEntries | src/libcrun/cgroup-utils.c:355-385 | The reader loop collects exactly the entries of the file. |
| CgroupUtils.CurrentUnifiedCgroupMissing | src/libcrun/cgroup-utils.c:102-105 | "no cgroup2 line" is reported exactly when the text has no "0::". |
| CgroupUtils.CurrentUnifiedCgroupUnterminated | src/libcrun/cgroup-utils.c:107-110 | "invalid content" is reported exactly when no newline follows the first "0::". |
| CgroupUtils.CurrentUnifiedCgroupLocated | src/libcrun/cgroup-utils.c:90-113 | The entry is the text between the first "0::" and the end of that line. |
| CgroupUtils.UnifiedCgroupOfLine | src/libcrun/cgroup-utils.c:102-110 | A file starting with the line 0::<path> gives the entry <path>. |
| CgroupUtils.UnifiedCgroupEntry | src/libcrun/cgroup-utils.c:102-110 | An entry found never holds a newline, and both parse failures carry errno 0. The rest is stated by CurrentUnifiedCgroupMissing, CurrentUnifiedCgroupUnterminated and CurrentUnifiedCgroupLocated. |
| CgroupUtils.CurrentUnifiedCgroup | src/libcrun/cgroup-utils.c:90-113 | A failed read of /proc/self/cgroup is returned as it is; a missing or unterminated entry gives its parse error; otherwise the result is the entry joined under /sys/fs/cgroup by append_paths, and a success always comes from such a newline-free entry. |
| CgroupUtils.CurrentUnifiedCgroupOfHost | src/libcrun/cgroup-utils.c:90-113 | When /proc/self/cgroup starts with the line 0::<path>, the result is <path> joined under /sys/fs/cgroup. |
| CgroupUtils.DetectCgroupMode | src/libcrun/cgroup-utils.c:116-143 | The layout is unified for a cgroup2 root; hybrid for a tmpfs root over a cgroup2 unified mount; legacy for a tmpfs root whose unified mount is missing or not cgroup2. Failures carry the statfs errno, or 0 for an unknown root type. |
| CgroupUtils.UnifiedProbedOnlyOnTmpfs | src/libcrun/cgroup-utils.c:124-143 | /sys/fs/cgroup/unified matters only when the root is tmpfs. |
| CgroupUtils.CgroupModeCache.GetCgroupMode | src/libcrun/cgroup-utils.c:145-161 | The first call detects and caches the layout, but only on success. Later calls return the cached layout without probing. |
| CgroupUtils.LinePid | src/libcrun/cgroup-utils.c:197 | A pid read from a line fits in pid_t. |
| CgroupUtils.PositivePids | src/libcrun/cgroup-utils.c:195-201 | There are no more pids than lines. |
| CgroupUtils.ParsedPids | src/libcrun/cgroup-utils.c:195-201 | The pids of a buffer are positive pid_t values, no more than its lines. Reading back written pids is stated by ParsedPidsOfText. |
| CgroupUtils.ParsedPidsFit | src/libcrun/cgroup-utils.c:186-201 | The pids fit in the slots counted from the newlines. |
| CgroupUtils.ParsedPidsOfText | src/libcrun/cgroup-utils.c:195-201 | Parsing the text of positive pids, one per line, gives them back in order. |
| CgroupUtils.LinePidOfDecimal | src/libcrun/cgroup-utils.c:197 | A positive pid written in decimal reads back as itself. |
| CgroupUtils.PidArray.constructor | src/libcrun/cgroup-utils.c:163-234 | The array starts empty. |
| CgroupUtils.PidArray.ReadPidsBuffer | src/libcrun/cgroup-utils.c:181-202 | An empty buffer changes nothing. Otherwise the array grows to hold all slots, the positive pids are appended in order, and a 0 terminator follows. |
| CgroupUtils.PidArray.Reserve | src/libcrun/cgroup-utils.c:189-193 | realloc grows the array to at least the requested size and keeps the stored pids. |
| CgroupUtils.PidArray.AppendPids | src/libcrun/cgroup-utils.c:195-201 | The positive pids of the buffer are appended, in order. |
| CgroupUtils.StorePids | src/libcrun/cgroup-utils.c:195-201 | The fill loop writes exactly the positive pids of the lines after those already stored. |
| CgroupUtils.PositivePidsSnoc | src/libcrun/cgroup-utils.c:197-200 | Another line adds its pid only when it is positive. |
| CgroupUtils.CountLines | src/libcrun/cgroup-utils.c:186-187 | The counting loop gives the number of newlines after the first character, plus one. |
| CgroupUtils.DestroySubsystem | src/libcrun/cgroup-utils.c:437-442 | A chosen directory is never empty, and is never "unified" in the legacy layout. Outside the legacy layout every line gives a directory. The full choice is stated by DestroySubsystemChoice. |
| CgroupUtils.SelectSubsystems | src/libcrun/cgroup-utils.c:431-442 | No more directories than lines are visited. The rest is stated by SelectedSubsystems and NoSkipOutsideLegacy. |
| CgroupUtils.DestroySubsystemChoice | src/libcrun/cgroup-utils.c:437-442 | Gives the hierarchy directory chosen for one line. A "name=" prefix is dropped, an empty controller list means "unified" outside the legacy layout, and the legacy layout skips "unified". |
| CgroupUtils.SelectedSubsystems | src/libcrun/cgroup-utils.c:431-442 | Every directory visited is named, and the legacy layout never visits "unified". |
| CgroupUtils.NoSkipOutsideLegacy | src/libcrun/cgroup-utils.c:437-442 | Outside the legacy layout every line gives a directory. |
| CgroupUtils.SubsystemsToDestroy | src/libcrun/cgroup-utils.c:387-442 | The loop visits exactly the chosen directories of /proc/self/cgroup, in order. |
| CgroupUtils.SubsystemsOf | src/libcrun/cgroup-utils.c:431-442 | The selection loop over parsed entries gives exactly the chosen directories. |
| CgroupCgroupfs.CgroupfsPath | src/libcrun/cgroup-cgroupfs.c:61-69 | The cgroupfs path is always absolute. |
| CgroupCgroupfs.CgroupfsPathEndsWithName | src/libcrun/cgroup-cgroupfs.c:61-69 | The path is the configured path, or else the container id, with a '/' prepended exactly when it lacks one. |
| CgroupCgroupfs.CgroupfsPathIdempotent | src/libcrun/cgroup-cgroupfs.c:61-69 | Feeding a computed path back in gives the same path. |
| CgroupCgroupfs.DelegateNeedsUnified | src/libcrun/cgroup-cgroupfs.c:52-59 | Outside the unified layout, a delegate cgroup fails the entry, and nothing else does before the path is computed. |
| CgroupCgroupfs.EnterCgroupfs | src/libcrun/cgroup-cgroupfs.c:40-92 | A layout error is returned before anything is done. No path is written only on an error with no calls. A path written is the computed cgroupfs path, and success implies a path and at least one call. The call order is stated by ControllersBeforeEnter and the target by EnterCgroupfsTarget. |
| CgroupCgroupfs.EnterCgroupfsTarget | src/libcrun/cgroup-cgroupfs.c:61-91 | The status path is the computed path. The process goes into it, or into the delegate sub-cgroup appended to it. |
| CgroupCgroupfs.ControllersBeforeEnter | src/libcrun/cgroup-cgroupfs.c:82-91 | Controllers are enabled only in the unified layout and only just before the move into the cgroup. The move is the last call, and its result is the result. |
| CgroupCgroupfs.DestroyCgroupfs | src/libcrun/cgroup-cgroupfs.c:94-114 | Destroy fails exactly when the layout is unknown, with that error and no calls. The calls are stated by DestroyCgroupfsOutcome. |
| CgroupCgroupfs.DestroyCgroupfsOutcome | src/libcrun/cgroup-cgroupfs.c:94-114 | Destroying kills the processes and then removes the path. A layout failure stops it before either step. |
| Cgroup.GetCgroupManager | src/libcrun/cgroup.c:64-84 | Each known id gives its manager. An unknown id is EINVAL with "unknown cgroup manager specified" and the number. |
| Cgroup.GetCgroupManagerOfTable | src/libcrun/cgroup.c:64-84 | Looking a manager up by its own id gives it back. |
| Cgroup.EnterDisabled | src/libcrun/cgroup.c:44-49 | The disabled manager succeeds without setting a path. |
| Cgroup.CreateCgroup | src/libcrun/cgroup.c:273 | The disabled manager succeeds with no path and no calls. The systemd manager's result is the host's and records no calls. The cgroupfs manager sets no scope, and any path it sets is the computed cgroupfs path. |
| Cgroup.MustStopProc | src/libcrun/cgroup.c:112-131 | The container is stopped early exactly when its resources pin CPUs or memory nodes, directly or through a unified cpuset key. |
| Cgroup.PrepareEnter | src/libcrun/cgroup.c:236-271 | A layout error is returned as is. On success the layout is known and the table is the one the manager id names. A pinned container was stopped, and in the hybrid layout the cgroup2 controllers file was read and found empty. |
| Cgroup.FinishEnter | src/libcrun/cgroup.c:275-297 | A missing path is the "cgroup path not set" error. Otherwise it succeeds, with the created path and scope, exactly when neither chown_cgroups (unified layout, owner set) nor update_cgroup_resources (limits present) fails. |
| Cgroup.RecoverEnter | src/libcrun/cgroup.c:299-319 | Recovery gives no cgroup only for a rootless container without a cgroup path. Otherwise the result is the create_cgroup failure or the is_rootless error. |
| Cgroup.CgroupEnter | src/libcrun/cgroup.c:219-325 | A layout error is returned as is. An unknown manager always fails. Success implies every check before create_cgroup passed. The rest is stated by EnterRootlessFallback, EnterResultSource, DisabledEnterFails and CgroupfsEnterPath. |
| Cgroup.EnterRootlessFallback | src/libcrun/cgroup.c:299-319 | A failed creation is forgiven only for a rootless container with no cgroup path, and not under systemd in the unified layout. Otherwise the is_rootless error or the creation error is returned. |
| Cgroup.EnterResultSource | src/libcrun/cgroup.c:219-325 | A status comes back only from a successful creation, with its path and scope. Running without a cgroup happens only through the rootless fallback. |
| Cgroup.DisabledEnterFails | src/libcrun/cgroup.c:275-281 | With the disabled manager, entering always ends in "cgroup path not set". |
| Cgroup.CgroupfsEnterPath | src/libcrun/cgroup.c:273-297 | With cgroupfs, the entered status holds the computed cgroupfs path and no scope. |
| Cgroup.CgroupDestroy | src/libcrun/cgroup.c:193-209 | Destroying fails only for an unknown manager, with EINVAL. A failure of the manager's own destroy is ignored. |
| Cgroup.CgroupfsDestroyCalls | src/libcrun/cgroup.c:193-209 | With cgroupfs, destroying kills the processes, then removes the path. |
| Cgroup.ScanOomCounter | src/libcrun/cgroup.c:390-410 | The scan reports an OOM exactly when the counters' reference reading says so. |
| Cgroup.CounterAt | src/libcrun/cgroup.c:400-406 | The blank-skipping loop finds a counter set exactly when its value is not 0. |
| Cgroup.ScanFromLines | src/libcrun/cgroup.c:390-410 | Scanning by newline jumps agrees with reading the file line by line. |
| Cgroup.CounterSetStopsAtNewline | src/libcrun/cgroup.c:400-406 | Text after the counter's line does not affect its value. |
| Cgroup.HasOom | src/libcrun/cgroup.c:327-411 | An empty cgroup path means no OOM, decided before the layout. With a path, a layout error is returned. The counters file is stated by HasOomReadsCounters. |
| Cgroup.HasOomReadsCounters | src/libcrun/cgroup.c:341-410 | With a path and a layout, the answer comes from memory.events (unified) or memory.oom_control (otherwise). Only a path or read error fails. |
| Cgroup.FirstCounterLineDecides | src/libcrun/cgroup.c:390-410 | The first line naming the counter decides, whatever follows. |
| Cgroup.CounterSetAfterBlanks | src/libcrun/cgroup.c:400-406 | After blanks, a counter is set exactly when its first character is not '0'. |
| Cgroup.IsContainerPaused | src/libcrun/cgroup.c:139-179 | There is no answer exactly when the path is empty. Otherwise the container is paused exactly when the freezer file of the layout mentions the frozen state. |
| Cgroup.MakeStatus | src/libcrun/cgroup.c:434-453 | The status keeps the path and scope. Its manager is disabled exactly when both are empty, and otherwise is systemd or cgroupfs as saved. |
| Cgroup.GetStatus | src/libcrun/cgroup.c:413-421 | The saved status takes the cgroup path and scope of the cgroup status, and keeps its systemd flag. |
| Cgroup.GetStatusOfMadeStatus | src/libcrun/cgroup.c:413-453 | Saving a status rebuilt from a saved status gives the saved status back. |
| Cgroup.MadeStatusDestroys | src/libcrun/cgroup.c:193-209 | A rebuilt status always names a known manager, so destroying it succeeds. |

## Left out

- Cgroup.CgroupEnter: drops the calls made by create_cgroup and keeps only the result. Cgroup.HasOom, Cgroup.IsContainerPaused, CgroupUtils.DetectCgroupMode and CgroupUtils.CgroupModeCache.GetCgroupMode take the file contents or statfs results as inputs and return no calls. The SIGSTOP `kill`, `chown_cgroups` and `update_cgroup_resources` appear only as host results that decide the outcome, never as recorded calls.
- System calls and files are not executed. `statfs`, reading files, `/proc/<pid>/mem`, `capget`, `fork`, `waitid`, `geteuid` and user namespace detection are parameters (`Statfs`, `Host`, `Kernel`).
- The following helpers are taken as uninterpreted functions of `Host`, because their code is not part of this model:
  - `append_paths`;
  - `read_all_file`;
  - `enable_controllers`;
  - `enter_cgroup`;
  - `update_cgroup_resources`;
  - `chown_cgroups`;
  - `cgroup_killall_path`;
  - the removal done by `destroy_cgroup_path`;
  - the systemd manager.
- The `SIGCONT` sent on the cleanup path of `libcrun_cgroup_enter` is not modelled; only the decision to send `SIGSTOP` is (`MustStopProc`).
- The recursion of `libcrun_cgroup_read_pids` into sub-directories, `rmdir_all`, and the retry and sleep loop of `destroy_cgroup_path` are not modelled, because they are file system walks and timing. The directory choice that drives the destroy loop is modelled.
- C out-parameters are returned as values.
- Cgroup.CgroupEnter: its own contract covers the layout error, the unknown manager and the checks before create_cgroup. The rest is stated by EnterRootlessFallback, EnterResultSource, DisabledEnterFails and CgroupfsEnterPath. The source leaves `status->manager` as allocated (zero) unless the manager's create_cgroup sets it; the entered status in the model has no manager field.
- CgroupUtils.ReadProcCgroupEntries: `destroy_cgroup_path` acts on each entry as soon as it reads it. The model first collects the entries up to the first malformed line and then selects the directories; the directories and their order are the same. The fields that `read_proc_cgroup` stores before it refuses a malformed line are not modelled.
- CgroupUtils.PidArray.ReadPidsBuffer: requires a buffer without NUL bytes. The C code reads a NUL-terminated string, so its content is the text up to the first NUL.
- Cgroup.HasOom, Cgroup.IsContainerPaused, CgroupUtils.ProcCgroupEntries, CgroupUtils.UnifiedCgroupEntry: the text of a file read by the host is taken whole. The C code scans it with strstr, strchr and strtok_r, which stop at the first NUL byte, so for a file holding a NUL byte the C code sees only the text before it.
- ManagerId and CgroupMode are datatypes. Their numeric encoding in `cgroup.h` is not part of this model; `Unknown(code)` stands for any other value.
- The syscall number of `mknod` and the struct sizes are the x86_64 values, taken as constants. The layout of the C structs and the plugin loader (`seccomp_notify.h`) are not modelled.
- SeccompWatcher.HandleMknodRequest: the initialisers of `info` and `usage` at seccompwatcher.rs:167-168 are not well-formed Rust as written. The call at line 169 is modelled as `waitid` on the forked child with P_PID, and its result decides the verdict. The child's `exit(0)` runs in another process and is not modelled. The call passes 0 as its options, and Linux refuses `waitid` with EINVAL when none of WEXITED, WSTOPPED or WCONTINUED is given; on Linux the probe therefore fails and a mknod that passes every check gets EINVAL. `Kernel` leaves the result of `waitid` open, so the model also admits the success verdict.
- The `default` branch of the layout switch in `libcrun_cgroup_has_oom` cannot be reached, because the layout is one of three values. It is left out.
- Error messages are modelled as constant strings with their numbers. The `printf` formatting of paths inside messages is not modelled.
- Concurrency between plugins, and signals, are not modelled.
