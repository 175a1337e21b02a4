/**
 * The cgroup front end of cgroup.c: the choice of manager, whether the container must be
 * stopped while its cgroup is set up, the pipeline of libcrun_cgroup_enter with its rootless
 * fallback, destroy, the OOM-counter scan, the paused check and the status records.
 *
 * The cgroup layout is the value libcrun_get_cgroup_mode returns, passed in (its cache makes
 * every call in one run agree); files, signals and the helpers of unseen files are answers
 * of the Host.
 */
module Cgroup {
  import opened Wrappers
  import opened Strings
  import opened CgroupInternal
  import opened CgroupCgroupfs

  // ---------------------------------------------------------------------------
  // get_cgroup_manager and the disabled manager
  // ---------------------------------------------------------------------------

  /** The manager tables: the operations create_cgroup and destroy_cgroup dispatch to. */
  datatype CgroupManager = DisabledManager | SystemdManager | CgroupfsManager

  /** The manager value each table is registered under. */
  function ManagerIdOf(table: CgroupManager): ManagerId {
    match table
    case DisabledManager => Disabled
    case SystemdManager => Systemd
    case CgroupfsManager => Cgroupfs
  }

  const UNKNOWN_MANAGER_MSG: string := "unknown cgroup manager specified "

  /** get_cgroup_manager: the table of a known manager, EINVAL naming any other value. */
  function GetCgroupManager(manager: ManagerId): (r: Result<CgroupManager, CrunError>)
    ensures r.Err? <==> manager.Unknown?
    ensures r.Ok? ==> ManagerIdOf(r.value) == manager
    ensures r.Err? ==> r.error == CrunError(EINVAL, UNKNOWN_MANAGER_MSG + SignedDecimalText(manager.code))
  {
    match manager
    case Disabled => Ok(DisabledManager)
    case Systemd => Ok(SystemdManager)
    case Cgroupfs => Ok(CgroupfsManager)
    case Unknown(code) => Err(CrunError(EINVAL, UNKNOWN_MANAGER_MSG + SignedDecimalText(code)))
  }

  /** Every table is found again under the value it is registered under. */
  lemma GetCgroupManagerOfTable(table: CgroupManager)
    ensures GetCgroupManager(ManagerIdOf(table)) == Ok(table)
  {
  }

  /** libcrun_cgroup_enter_disabled: no cgroup path, success. */
  function EnterDisabled(): (c: Created)
    ensures c.result.Ok? && c.path.None?
  {
    Created(Ok(()), None, None)
  }

  /** create_cgroup of the chosen table, with the host calls the cgroupfs manager makes. */
  function CreateCgroup(table: CgroupManager, mode: CgroupMode, args: CgroupArgs, host: Host): (r: (Created, seq<HostCall>))
    ensures table == DisabledManager ==> r.0.result.Ok? && r.0.path.None? && r.1 == []
    ensures table == SystemdManager ==> r.0 == host.systemdCreate(args) && r.1 == []
    ensures table == CgroupfsManager ==> r.0.scope.None? && (r.0.path.Some? ==> r.0.path == Some(CgroupfsPath(args.cgroupPath, args.id)))
  {
    match table
    case DisabledManager => (EnterDisabled(), [])
    case SystemdManager => (host.systemdCreate(args), [])
    case CgroupfsManager =>
      var e := EnterCgroupfs(Ok(mode), args, host);
      (Created(e.result, e.path, None), e.calls)
  }

  // ---------------------------------------------------------------------------
  // must_stop_proc
  // ---------------------------------------------------------------------------

  const CPUSET_PREFIX: string := "cpuset."

  /** The limits pin the container to CPUs or memory nodes: cpus or mems set, or a cpuset. key. */
  predicate PinsCpuset(resources: Option<Resources>) {
    && resources.Some?
    && (|| (resources.value.cpu.Some? && (resources.value.cpu.value.cpus.Some? || resources.value.cpu.value.mems.Some?))
        || (resources.value.unified.Some? &&
            exists i | 0 <= i < |resources.value.unified.value| :: HasPrefix(resources.value.unified.value[i], CPUSET_PREFIX)))
  }

  /** must_stop_proc: the loop over the unified keys stops at the first "cpuset." one. */
  method MustStopProc(resources: Option<Resources>) returns (stop: bool)
    ensures stop == PinsCpuset(resources)
  {
    if resources.None? {
      return false;
    }
    var r := resources.value;
    if r.cpu.Some? && (r.cpu.value.cpus.Some? || r.cpu.value.mems.Some?) {
      return true;
    }
    if r.unified.Some? {
      var keys := r.unified.value;
      for i := 0 to |keys|
        invariant forall k | 0 <= k < i :: !HasPrefix(keys[k], CPUSET_PREFIX)
      {
        if HasPrefix(keys[i], CPUSET_PREFIX) {
          return true;
        }
      }
    }
    return false;
  }

  // ---------------------------------------------------------------------------
  // libcrun_cgroup_enter
  // ---------------------------------------------------------------------------

  const HYBRID_CONTROLLERS: string := CGROUP_ROOT + "/unified/cgroup.controllers"
  const HYBRID_MSG: string := "cgroups in hybrid mode not supported, drop all controllers from cgroupv2"
  const NO_PATH_MSG: string := "internal error: cgroup path not set"

  function StopMessage(pid: int): string {
    "cannot stop container process '" + SignedDecimalText(pid) + "' with SIGSTOP"
  }

  /** The cgroup record libcrun_cgroup_enter hands back: its path and systemd scope. */
  datatype EnteredStatus = EnteredStatus(path: string, scope: Option<string>)

  /**
   * Everything libcrun_cgroup_enter checks before create_cgroup: the layout, the SIGSTOP of
   * a process whose limits pin it, a hybrid layout whose cgroup2 side holds no controller,
   * and the manager table.
   */
  function PrepareEnter(args: CgroupArgs, mode: Result<CgroupMode, CrunError>, host: Host): (r: Result<CgroupManager, CrunError>)
    ensures mode.Err? ==> r == Err(mode.error)
    ensures r.Ok? ==> mode.Ok? && ManagerIdOf(r.value) == args.manager
    ensures r.Ok? && PinsCpuset(args.resources) ==> host.stopProcess(args.pid).Ok?
    ensures r.Ok? && mode.value == Hybrid ==> host.readFile(HYBRID_CONTROLLERS) == Ok([])
  {
    if mode.Err? then Err(mode.error)
    else if PinsCpuset(args.resources) && host.stopProcess(args.pid).Err? then
      Err(CrunError(host.stopProcess(args.pid).error, StopMessage(args.pid)))
    else if mode.value == Hybrid && host.readFile(HYBRID_CONTROLLERS).Err? then
      Err(host.readFile(HYBRID_CONTROLLERS).error)
    else if mode.value == Hybrid && |host.readFile(HYBRID_CONTROLLERS).value| > 0 then
      Err(CrunError(0, HYBRID_MSG))
    else GetCgroupManager(args.manager)
  }

  /** No owner to hand the cgroup to unless the uid or the gid is set. */
  predicate NeedChown(args: CgroupArgs) {
    args.rootUid != ID_UNSET || args.rootGid != ID_UNSET
  }

  /**
   * After create_cgroup succeeded: a path must be set; in the unified layout it is given to
   * the root owner when there is one, and the resource limits are applied when there are.
   */
  function FinishEnter(created: Created, args: CgroupArgs, mode: CgroupMode, host: Host): (r: Result<Option<EnteredStatus>, CrunError>)
    ensures created.path.None? ==> r == Err(CrunError(0, NO_PATH_MSG))
    ensures r.Ok? ==> r.value == Some(EnteredStatus(created.path.value, created.scope))
    ensures r.Ok? <==>
      && created.path.Some?
      && !(mode == Unified && NeedChown(args) && host.chownCgroups(created.path.value, args.rootUid, args.rootGid).Err?)
      && !(args.resources.Some? && host.updateResources(created.path.value, args.resources.value).Err?)
  {
    match created.path
    case None => Err(CrunError(0, NO_PATH_MSG))
    case Some(path) =>
      if mode == Unified && NeedChown(args) && host.chownCgroups(path, args.rootUid, args.rootGid).Err? then
        Err(host.chownCgroups(path, args.rootUid, args.rootGid).error)
      else if args.resources.Some? && host.updateResources(path, args.resources.value).Err? then
        Err(host.updateResources(path, args.resources.value).error)
      else Ok(Some(EnteredStatus(path, created.scope)))
  }

  /**
   * After create_cgroup failed: a rootless container without a configured cgroup path goes
   * on without a cgroup, unless it asked systemd for one in the unified layout; every other
   * failure is returned.
   */
  function RecoverEnter(failure: CrunError, args: CgroupArgs, mode: CgroupMode, host: Host): (r: Result<Option<EnteredStatus>, CrunError>)
    ensures r.Ok? ==> r.value.None? && IsRootless(host) == Ok(true) && IsEmptyString(args.cgroupPath)
    ensures r.Err? ==> r.error == failure || (IsRootless(host).Err? && r.error == IsRootless(host).error)
  {
    match IsRootless(host)
    case Err(e) => Err(e)
    case Ok(rootless) =>
      if rootless && IsEmptyString(args.cgroupPath) && (mode != Unified || args.manager != Systemd) then Ok(None)
      else Err(failure)
  }

  /**
   * libcrun_cgroup_enter: Ok(Some(status)) when the container has its cgroup, Ok(None) when
   * it goes on without one, or the error.
   */
  function CgroupEnter(args: CgroupArgs, mode: Result<CgroupMode, CrunError>, host: Host): (r: Result<Option<EnteredStatus>, CrunError>)
    ensures mode.Err? ==> r == Err(mode.error)
    ensures args.manager.Unknown? ==> r.Err?
    ensures r.Ok? ==> PrepareEnter(args, mode, host).Ok?
  {
    match PrepareEnter(args, mode, host)
    case Err(e) => Err(e)
    case Ok(table) =>
      var created := CreateCgroup(table, mode.value, args, host).0;
      if created.result.Ok? then FinishEnter(created, args, mode.value, host)
      else RecoverEnter(created.result.error, args, mode.value, host)
  }

  /**
   * A failing create_cgroup is ignored exactly when the process is rootless, no cgroup path
   * is configured, and it is not the systemd manager in the unified layout; otherwise the
   * error of is_rootless or of create_cgroup is returned.
   */
  lemma EnterRootlessFallback(args: CgroupArgs, mode: Result<CgroupMode, CrunError>, host: Host)
    requires PrepareEnter(args, mode, host).Ok?
    requires CreateCgroup(PrepareEnter(args, mode, host).value, mode.value, args, host).0.result.Err?
    ensures var r := CgroupEnter(args, mode, host);
      var failure := CreateCgroup(PrepareEnter(args, mode, host).value, mode.value, args, host).0.result.error;
      && (r == Ok(None) <==>
          IsRootless(host) == Ok(true) && IsEmptyString(args.cgroupPath) && (mode.value != Unified || args.manager != Systemd))
      && (r != Ok(None) ==> r == Err(if IsRootless(host).Err? then IsRootless(host).error else failure))
  {
  }

  /**
   * A status comes back only when create_cgroup succeeded and set a path, and it holds that
   * path and scope; the container goes on without a cgroup only through the rootless fallback.
   */
  lemma EnterResultSource(args: CgroupArgs, mode: Result<CgroupMode, CrunError>, host: Host)
    ensures var r := CgroupEnter(args, mode, host);
      && (r.Ok? ==> PrepareEnter(args, mode, host).Ok?)
      && (r.Ok? && r.value.Some? ==>
          var created := CreateCgroup(PrepareEnter(args, mode, host).value, mode.value, args, host).0;
          created.result.Ok? && created.path == Some(r.value.value.path) && created.scope == r.value.value.scope)
      && (r == Ok(None) ==>
          && CreateCgroup(PrepareEnter(args, mode, host).value, mode.value, args, host).0.result.Err?
          && IsRootless(host) == Ok(true) && IsEmptyString(args.cgroupPath))
  {
  }

  /** The disabled manager sets no path, so libcrun_cgroup_enter with it always reports the internal error. */
  lemma DisabledEnterFails(args: CgroupArgs, mode: Result<CgroupMode, CrunError>, host: Host)
    requires PrepareEnter(args, mode, host).Ok? && args.manager == Disabled
    ensures CgroupEnter(args, mode, host) == Err(CrunError(0, NO_PATH_MSG))
  {
  }

  /** With the cgroupfs manager the container's cgroup is the path the rule computes. */
  lemma CgroupfsEnterPath(args: CgroupArgs, mode: Result<CgroupMode, CrunError>, host: Host)
    requires args.manager == Cgroupfs
    ensures CgroupEnter(args, mode, host).Ok? && CgroupEnter(args, mode, host).value.Some? ==>
      CgroupEnter(args, mode, host).value.value == EnteredStatus(CgroupfsPath(args.cgroupPath, args.id), None)
  {
    if PrepareEnter(args, mode, host).Ok? && (mode.value == Unified || FindDelegateCgroup(args.annotations).None?) {
      EnterCgroupfsTarget(mode, args, host);
    }
  }

  // ---------------------------------------------------------------------------
  // libcrun_cgroup_destroy
  // ---------------------------------------------------------------------------

  /**
   * libcrun_cgroup_destroy: the manager's destroy runs and its failure is dropped; only an
   * unknown manager is an error. The calls are those of the cgroupfs manager.
   */
  function CgroupDestroy(status: CgroupStatus, mode: Result<CgroupMode, CrunError>, host: Host): (r: (Result<(), CrunError>, seq<HostCall>))
    ensures r.0.Ok? <==> !status.manager.Unknown?
    ensures r.0.Err? ==> r.0 == Err(CrunError(EINVAL, UNKNOWN_MANAGER_MSG + SignedDecimalText(status.manager.code))) && r.1 == []
  {
    match GetCgroupManager(status.manager)
    case Err(e) => (Err(e), [])
    case Ok(table) =>
      match table
      case DisabledManager => (Ok(()), [])
      case SystemdManager =>
        var _ := host.systemdDestroy(status);
        (Ok(()), [])
      case CgroupfsManager => (Ok(()), DestroyCgroupfs(mode, status).1)
  }

  /** Destroying with the cgroupfs manager kills and removes the cgroup whenever the layout is known. */
  lemma CgroupfsDestroyCalls(status: CgroupStatus, mode: Result<CgroupMode, CrunError>, host: Host)
    requires status.manager == Cgroupfs && mode.Ok?
    ensures CgroupDestroy(status, mode, host) == (Ok(()), [Killall(status.path), DestroyPath(status.path, mode.value)])
  {
  }

  // ---------------------------------------------------------------------------
  // libcrun_cgroup_has_oom
  // ---------------------------------------------------------------------------

  /** The counter line: "oom " in memory.events, "oom_kill " in memory.oom_control. */
  function OomPrefix(mode: CgroupMode): string {
    if mode == Unified then "oom " else "oom_kill "
  }

  /** The parts append_paths joins into the file holding the OOM counters. */
  function OomFile(mode: CgroupMode, path: string): seq<string> {
    if mode == Unified then [CGROUP_ROOT, path, "memory.events"]
    else [CGROUP_ROOT, "memory", path, "memory.oom_control"]
  }

  /** A counter value, blanks first, is set unless it starts with '0' (an empty one counts as set). */
  predicate CounterSet(value: string) {
    if value == [] then true
    else if value[0] == ' ' then CounterSet(value[1..])
    else value[0] != '0'
  }

  /** The first line starting with `prefix` decides; no such line means no OOM. */
  predicate OomInLines(lines: seq<string>, prefix: string) {
    if lines == [] then false
    else if HasPrefix(lines[0], prefix) then CounterSet(lines[0][|prefix|..])
    else OomInLines(lines[1..], prefix)
  }

  /** Whether a counters file reports an OOM, read line by line. */
  predicate OomReported(content: string, prefix: string) {
    OomInLines(Split(content, '\n'), prefix)
  }

  /**
   * The scanning loop itself, from a line start: a text starting with the prefix is decided
   * by the counter after it; otherwise the scan moves past the next newline, and ends with
   * no OOM when there is none.
   */
  predicate ScanFrom(rest: string, prefix: string)
    decreases |rest|
  {
    if rest == [] then false
    else if HasPrefix(rest, prefix) then CounterSet(rest[|prefix|..])
    else match IndexOf(rest, '\n')
      case None => false
      case Some(j) => ScanFrom(rest[j + 1..], prefix)
  }

  /**
   * The scanning loop of libcrun_cgroup_has_oom: from line start to line start until a line
   * has the prefix of the layout; then blanks are skipped and the counter is set unless a
   * '0' follows.
   */
  method ScanOomCounter(content: string, mode: CgroupMode) returns (oom: bool)
    ensures oom == OomReported(content, OomPrefix(mode))
  {
    var prefix := OomPrefix(mode);
    assert prefix != [] && '\n' !in prefix;
    ScanFromLines(content, prefix);
    var it := content;
    while it != []
      invariant ScanFrom(it, prefix) == ScanFrom(content, prefix)
      decreases |it|
    {
      if HasPrefix(it, prefix) {
        oom := CounterAt(it[|prefix|..]);
        return;
      }
      var next := IndexOf(it, '\n');
      if next.None? {
        return false;
      }
      it := it[next.value + 1..];
    }
    return false;
  }

  /**
   * The inner loop of the scan: blanks are skipped, and the counter is set unless the
   * character reached is '0'; the end of the text counts as set.
   */
  method CounterAt(value: string) returns (nonZero: bool)
    ensures nonZero == CounterSet(value)
  {
    var at := 0;
    while at < |value| && value[at] == ' '
      invariant at <= |value|
      invariant CounterSet(value) == CounterSet(value[at..])
      decreases |value| - at
    {
      SuffixOfSuffix(value, at, 1);
      at := at + 1;
    }
    nonZero := at == |value| || value[at] != '0';
  }

  /**
   * The pointer scan and the line-by-line reading agree: for a prefix without a newline, a
   * text starting with it starts a line with it, and the blanks after it never pass the end
   * of that line.
   */
  lemma {:induction false} ScanFromLines(rest: string, prefix: string)
    requires prefix != [] && '\n' !in prefix
    ensures ScanFrom(rest, prefix) == OomReported(rest, prefix)
    decreases |rest|
  {
    match IndexOf(rest, '\n')
    case None => LastLineDecides(rest, prefix);
    case Some(len) =>
      LineThenRest(rest, prefix, len);
      if !HasPrefix(rest, prefix) {
        ScanFromLines(rest[len + 1..], prefix);
      }
  }

  /** A text with a newline: its first line decides when it holds the counter, else the rest does. */
  lemma LineThenRest(rest: string, prefix: string, len: nat)
    requires prefix != [] && '\n' !in prefix
    requires IndexOf(rest, '\n') == Some(len)
    ensures OomReported(rest, prefix) ==
      if HasPrefix(rest, prefix) then CounterSet(rest[|prefix|..]) else OomReported(rest[len + 1..], prefix)
  {
    var line, tail := rest[..len], rest[len + 1..];
    assert Split(rest, '\n') == [line] + Split(tail, '\n');
    OomInLinesCons(line, Split(tail, '\n'), prefix);
    PrefixWithinLine(rest, len, prefix, '\n');
    if HasPrefix(rest, prefix) {
      CounterWithinLine(rest, prefix, len);
    }
  }

  /** The first line decides when it holds the counter, else the lines after it do. */
  lemma OomInLinesCons(line: string, lines: seq<string>, prefix: string)
    ensures OomInLines([line] + lines, prefix) ==
      if HasPrefix(line, prefix) then CounterSet(line[|prefix|..]) else OomInLines(lines, prefix)
  {
    assert ([line] + lines)[1..] == lines;
  }

  /** The counter after the prefix is read within the first line. */
  lemma CounterWithinLine(rest: string, prefix: string, len: nat)
    requires IndexOf(rest, '\n') == Some(len) && '\n' !in prefix && HasPrefix(rest, prefix)
    ensures |prefix| <= len && CounterSet(rest[|prefix|..]) == CounterSet(rest[..len][|prefix|..])
  {
    var line := rest[..len];
    assert rest[|prefix|..] == line[|prefix|..] + ['\n'] + rest[len + 1..];
    CounterSetStopsAtNewline(line[|prefix|..], rest[len + 1..]);
  }

  /** A text without a newline is one line, which decides alone. */
  lemma LastLineDecides(rest: string, prefix: string)
    requires IndexOf(rest, '\n').None?
    ensures OomReported(rest, prefix) == (HasPrefix(rest, prefix) && CounterSet(rest[|prefix|..]))
  {
    assert Split(rest, '\n') == [rest];
    assert [rest][1..] == [];
    assert OomInLines([rest], prefix) == (HasPrefix(rest, prefix) && CounterSet(rest[|prefix|..]));
  }

  /** The counter of a line is read within the line: what follows its newline never matters. */
  lemma {:induction false} CounterSetStopsAtNewline(value: string, after: string)
    ensures CounterSet(value + ['\n'] + after) == CounterSet(value)
  {
    if value != [] && value[0] == ' ' {
      assert (value + ['\n'] + after)[1..] == value[1..] + ['\n'] + after;
      CounterSetStopsAtNewline(value[1..], after);
    }
  }

  /**
   * A prefix free of the line end lies within the line: the text starts with it exactly when
   * the line, the text up to its first line end, does.
   */
  lemma PrefixWithinLine<T>(rest: seq<T>, len: nat, p: seq<T>, x: T)
    requires len <= |rest| && (len == |rest| || rest[len] == x)
    requires x !in p
    ensures HasPrefix(rest, p) <==> HasPrefix(rest[..len], p)
  {
    if HasPrefix(rest[..len], p) {
      assert rest[..|p|] == rest[..len][..|p|];
    }
  }

  /**
   * libcrun_cgroup_has_oom: no cgroup path means no OOM, checked before the layout; otherwise
   * the counters file of the layout is read and scanned.
   */
  function HasOom(status: CgroupStatus, mode: Result<CgroupMode, CrunError>, host: Host): (r: Result<bool, CrunError>)
    ensures IsEmptyString(status.path) ==> r == Ok(false)
    ensures !IsEmptyString(status.path) && mode.Err? ==> r == Err(mode.error)
  {
    if IsEmptyString(status.path) then Ok(false)
    else if mode.Err? then Err(mode.error)
    else
      match host.appendPaths(OomFile(mode.value, status.path.value))
      case Err(e) => Err(e)
      case Ok(file) =>
        match host.readFile(file)
        case Err(e) => Err(e)
        case Ok(content) => Ok(OomReported(content, OomPrefix(mode.value)))
  }

  /**
   * The OOM answer comes from the counters file of the layout: memory.events in the unified
   * layout, memory.oom_control of the memory hierarchy otherwise.
   */
  lemma HasOomReadsCounters(status: CgroupStatus, mode: Result<CgroupMode, CrunError>, host: Host)
    requires !IsEmptyString(status.path) && mode.Ok?
    ensures var file := host.appendPaths(OomFile(mode.value, status.path.value));
      HasOom(status, mode, host).Ok? <==> file.Ok? && host.readFile(file.value).Ok?
    ensures HasOom(status, mode, host).Ok? ==>
      HasOom(status, mode, host).value ==
        OomReported(host.readFile(host.appendPaths(OomFile(mode.value, status.path.value)).value).value, OomPrefix(mode.value))
  {
  }

  /** Only the first line with the counter's name counts, whatever comes after it. */
  lemma {:induction false} FirstCounterLineDecides(before: seq<string>, line: string, after: seq<string>, prefix: string)
    requires forall i | 0 <= i < |before| :: !HasPrefix(before[i], prefix)
    requires HasPrefix(line, prefix)
    ensures OomInLines(before + [line] + after, prefix) == CounterSet(line[|prefix|..])
  {
    if before != [] {
      assert (before + [line] + after)[1..] == before[1..] + [line] + after;
      FirstCounterLineDecides(before[1..], line, after, prefix);
    }
  }

  /** Blanks before a counter are skipped: a '0' after them is no OOM, anything else is. */
  lemma {:induction false} CounterSetAfterBlanks(blanks: nat, value: string)
    requires value == [] || value[0] != ' '
    ensures CounterSet(seq(blanks, _ => ' ') + value) == (value == [] || value[0] != '0')
  {
    if blanks > 0 {
      var s := seq(blanks, _ => ' ') + value;
      assert s[1..] == seq(blanks - 1, _ => ' ') + value;
      CounterSetAfterBlanks(blanks - 1, value);
    } else {
      assert seq(blanks, _ => ' ') + value == value;
    }
  }

  // ---------------------------------------------------------------------------
  // libcrun_cgroup_is_container_paused
  // ---------------------------------------------------------------------------

  /** What the freezer file holds for a frozen cgroup. */
  function FreezeState(mode: CgroupMode): string {
    if mode == Unified then "1" else "FROZEN"
  }

  /** The parts append_paths joins into the freezer file. */
  function FreezeFile(mode: CgroupMode, path: string): seq<string> {
    if mode == Unified then [CGROUP_ROOT, path, "cgroup.freeze"]
    else [CGROUP_ROOT + "/freezer", path, "freezer.state"]
  }

  /**
   * libcrun_cgroup_is_container_paused: Ok(None) (the paused flag left alone) without a cgroup
   * path, otherwise whether the freezer file of the layout mentions the frozen state.
   */
  function IsContainerPaused(status: CgroupStatus, mode: Result<CgroupMode, CrunError>, host: Host): (r: Result<Option<bool>, CrunError>)
    ensures r == Ok(None) <==> IsEmptyString(status.path)
    ensures r.Ok? && r.value.Some? ==>
      && mode.Ok?
      && host.appendPaths(FreezeFile(mode.value, status.path.value)).Ok?
      && var content := host.readFile(host.appendPaths(FreezeFile(mode.value, status.path.value)).value);
         content.Ok? && (r.value.value <==> FindSubstring(content.value, FreezeState(mode.value)).Some?)
    ensures r.Err? ==> !IsEmptyString(status.path)
  {
    if IsEmptyString(status.path) then Ok(None)
    else if mode.Err? then Err(mode.error)
    else
      match host.appendPaths(FreezeFile(mode.value, status.path.value))
      case Err(e) => Err(e)
      case Ok(file) =>
        match host.readFile(file)
        case Err(e) => Err(e)
        case Ok(content) => Ok(Some(FindSubstring(content, FreezeState(mode.value)).Some?))
  }

  // ---------------------------------------------------------------------------
  // libcrun_cgroup_make_status and libcrun_cgroup_get_status
  // ---------------------------------------------------------------------------

  /** The cgroup fields of a container's saved status. */
  datatype ContainerStatus = ContainerStatus(cgroupPath: Option<string>, scope: Option<string>, systemdCgroup: bool)

  /**
   * libcrun_cgroup_make_status: the path and scope copied; no manager when both are empty,
   * else systemd or cgroupfs as the saved status says.
   */
  function MakeStatus(saved: ContainerStatus): (r: CgroupStatus)
    ensures r.path == saved.cgroupPath && r.scope == saved.scope
    ensures r.manager == Disabled <==> IsEmptyString(saved.cgroupPath) && IsEmptyString(saved.scope)
    ensures r.manager != Disabled ==> (r.manager == Systemd <==> saved.systemdCgroup)
    ensures r.manager in {Disabled, Systemd, Cgroupfs}
  {
    var manager :=
      if IsEmptyString(saved.cgroupPath) && IsEmptyString(saved.scope) then Disabled
      else if saved.systemdCgroup then Systemd
      else Cgroupfs;
    CgroupStatus(saved.cgroupPath, saved.scope, manager)
  }

  /** libcrun_cgroup_get_status: the cgroup path and scope written back into a container status. */
  function GetStatus(status: CgroupStatus, saved: ContainerStatus): (r: ContainerStatus)
    ensures r.cgroupPath == status.path && r.scope == status.scope
    ensures r.systemdCgroup == saved.systemdCgroup
  {
    saved.(cgroupPath := status.path, scope := status.scope)
  }

  /** Saving the status of a rebuilt cgroup status gives the saved status back. */
  lemma GetStatusOfMadeStatus(saved: ContainerStatus)
    ensures GetStatus(MakeStatus(saved), saved) == saved
  {
  }

  /** A rebuilt status always names a known manager, so destroying it never fails. */
  lemma MadeStatusDestroys(saved: ContainerStatus, mode: Result<CgroupMode, CrunError>, host: Host)
    ensures GetCgroupManager(MakeStatus(saved).manager).Ok?
    ensures CgroupDestroy(MakeStatus(saved), mode, host).0 == Ok(())
  {
  }
}
