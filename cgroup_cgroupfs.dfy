/**
 * The cgroupfs manager of cgroup-cgroupfs.c: where a container's cgroup goes, which cgroup
 * the process is moved into when a delegate sub-cgroup is requested, the order of the calls
 * that set it up, and a destroy that never fails once the layout is known.
 *
 * The layout is the value libcrun_get_cgroup_mode returns (see CgroupUtils.CgroupModeCache),
 * passed in; append_paths, enable_controllers, enter_cgroup, cgroup_killall_path and
 * destroy_cgroup_path are answers of the Host.
 */
module CgroupCgroupfs {
  import opened Wrappers
  import opened Strings
  import opened CgroupInternal

  const DELEGATE_V1_MSG: string := "delegate-cgroup not supported on cgroup v1"

  /**
   * out->path: "/" followed by the container id when no cgroup path is configured, a
   * configured path that starts with '/' as it is, and a relative one below "/".
   */
  function CgroupfsPath(cgroupPath: Option<string>, id: string): (p: string)
    ensures |p| >= 1 && p[0] == '/'
  {
    match cgroupPath
    case None => "/" + id
    case Some(path) => if path != [] && path[0] == '/' then path else "/" + path
  }

  /**
   * The path is the configured name (or the id) itself or that name below "/": it ends with
   * the name, and adds the '/' exactly when the name does not start with one (the id always
   * gets it).
   */
  lemma CgroupfsPathEndsWithName(cgroupPath: Option<string>, id: string)
    ensures var name := if cgroupPath.None? then id else cgroupPath.value;
      var p := CgroupfsPath(cgroupPath, id);
      && |name| <= |p| <= |name| + 1
      && p[|p| - |name|..] == name
      && (|p| == |name| <==> cgroupPath.Some? && HasPrefix(name, "/"))
  {
  }

  /** Configuring the computed path gives it back: the rule is idempotent. */
  lemma CgroupfsPathIdempotent(cgroupPath: Option<string>, id: string, otherId: string)
    ensures CgroupfsPath(Some(CgroupfsPath(cgroupPath, id)), otherId) == CgroupfsPath(cgroupPath, id)
  {
  }

  /**
   * What libcrun_cgroup_enter_cgroupfs did: the out->path it wrote (None when it returned
   * before writing it), its result and the host calls it made.
   */
  datatype CgroupfsEntry = CgroupfsEntry(path: Option<string>, result: Result<(), CrunError>, calls: seq<HostCall>)

  /** The cgroup the process goes into: the container's own, or its delegate sub-cgroup. */
  function ProcessTarget(path: string, delegate: Option<string>, host: Host): Result<string, CrunError> {
    if delegate.None? then Ok(path) else host.appendPaths([path, delegate.value])
  }

  /**
   * libcrun_cgroup_enter_cgroupfs: a delegate sub-cgroup is refused outside the unified
   * layout; otherwise the path is written, the target computed, the controllers enabled on
   * it in the unified layout, and the process entered into it.
   */
  function EnterCgroupfs(mode: Result<CgroupMode, CrunError>, args: CgroupArgs, host: Host): (e: CgroupfsEntry)
    ensures mode.Err? ==> e == CgroupfsEntry(None, Err(mode.error), [])
    ensures e.path.None? ==> e.result.Err? && e.calls == []
    ensures e.path.Some? ==> e.path == Some(CgroupfsPath(args.cgroupPath, args.id))
    ensures e.result.Ok? ==> e.path.Some? && |e.calls| >= 1
  {
    if mode.Err? then CgroupfsEntry(None, Err(mode.error), [])
    else
      var delegate := FindDelegateCgroup(args.annotations);
      if mode.value != Unified && delegate.Some? then CgroupfsEntry(None, Err(CrunError(0, DELEGATE_V1_MSG)), [])
      else
        var path := CgroupfsPath(args.cgroupPath, args.id);
        match ProcessTarget(path, delegate, host)
        case Err(e) => CgroupfsEntry(Some(path), Err(e), [])
        case Ok(target) =>
          if mode.value == Unified then
            match host.enableControllers(target)
            case Err(e) => CgroupfsEntry(Some(path), Err(e), [EnableControllers(target)])
            case Ok(_) =>
              CgroupfsEntry(Some(path), host.enterCgroup(Unified, args.pid, target),
                            [EnableControllers(target), EnterCgroup(Unified, args.pid, target)])
          else
            CgroupfsEntry(Some(path), host.enterCgroup(mode.value, args.pid, target),
                          [EnterCgroup(mode.value, args.pid, target)])
  }

  /** A delegate annotation outside the unified layout is an error before anything is done. */
  lemma DelegateNeedsUnified(mode: Result<CgroupMode, CrunError>, args: CgroupArgs, host: Host)
    requires mode.Ok? && mode.value != Unified
    ensures FindDelegateCgroup(args.annotations).Some? <==>
      EnterCgroupfs(mode, args, host) == CgroupfsEntry(None, Err(CrunError(0, DELEGATE_V1_MSG)), [])
  {
  }

  /**
   * Once the layout is known and the delegate rule passes, out->path is the computed path,
   * and the process is entered, if at all, into that path or into its delegate sub-cgroup.
   */
  lemma EnterCgroupfsTarget(mode: Result<CgroupMode, CrunError>, args: CgroupArgs, host: Host)
    requires mode.Ok? && (mode.value == Unified || FindDelegateCgroup(args.annotations).None?)
    ensures var e := EnterCgroupfs(mode, args, host);
      var path := CgroupfsPath(args.cgroupPath, args.id);
      var delegate := FindDelegateCgroup(args.annotations);
      && e.path == Some(path)
      && forall i | 0 <= i < |e.calls| :: e.calls[i].EnterCgroup? ==>
           && e.calls[i].mode == mode.value && e.calls[i].pid == args.pid
           && (delegate.None? ==> e.calls[i].target == path)
           && (delegate.Some? ==> host.appendPaths([path, delegate.value]) == Ok(e.calls[i].target))
  {
  }

  /**
   * enable_controllers runs only in the unified layout, first and at most once; the process
   * is entered last, into the cgroup whose controllers were enabled; and the result is the
   * result of enter_cgroup whenever that is reached.
   */
  lemma ControllersBeforeEnter(mode: Result<CgroupMode, CrunError>, args: CgroupArgs, host: Host)
    ensures var e := EnterCgroupfs(mode, args, host);
      && (forall i | 0 <= i < |e.calls| :: e.calls[i].EnableControllers? ==> i == 0 && mode == Ok(Unified))
      && (forall i | 0 <= i < |e.calls| :: e.calls[i].EnterCgroup? ==>
            && i == |e.calls| - 1
            && (mode == Ok(Unified) <==> i == 1)
            && (i == 1 ==> e.calls[0] == EnableControllers(e.calls[i].target))
            && e.result == host.enterCgroup(e.calls[i].mode, e.calls[i].pid, e.calls[i].target))
      && (e.result.Ok? ==> |e.calls| >= 1 && e.calls[|e.calls| - 1].EnterCgroup?)
  {
  }

  /**
   * libcrun_destroy_cgroup_cgroupfs: with the layout known, the cgroup's processes are
   * killed and the cgroup removed, and whatever those return the result is success.
   */
  function DestroyCgroupfs(mode: Result<CgroupMode, CrunError>, status: CgroupStatus): (r: (Result<(), CrunError>, seq<HostCall>))
    ensures r.0.Ok? <==> mode.Ok?
    ensures r.0.Err? ==> r.0.error == mode.error && r.1 == []
  {
    if mode.Err? then (Err(mode.error), [])
    else (Ok(()), [Killall(status.path), DestroyPath(status.path, mode.value)])
  }

  /** Destroy fails only when the layout cannot be found, and then touches nothing. */
  lemma DestroyCgroupfsOutcome(mode: Result<CgroupMode, CrunError>, status: CgroupStatus)
    ensures var (r, calls) := DestroyCgroupfs(mode, status);
      && (r.Ok? <==> mode.Ok?)
      && (r.Err? ==> r.error == mode.error && calls == [])
      && (r.Ok? ==> calls == [Killall(status.path), DestroyPath(status.path, mode.value)])
  {
  }
}
