/**
 * What the cgroup files share: the three cgroup hierarchy layouts, the cgroup manager a
 * container is set up with, libcrun's error record, the status record a container keeps
 * about its cgroup, and the delegate-cgroup annotation rule.
 *
 * The numeric codes of CGROUP_MODE_* and CGROUP_MANAGER_* are defined outside the modelled
 * files, so modes and managers are datatypes; a manager value the code does not recognise
 * keeps its raw number.
 */
module CgroupInternal {
  import opened Wrappers

  /** The layout found under the cgroup mount point. */
  datatype CgroupMode = Legacy | Hybrid | Unified

  /** The manager field of a container's cgroup status. */
  datatype ManagerId = Disabled | Systemd | Cgroupfs | Unknown(code: int)

  /** libcrun_error_t: the errno it carries (0 when none) and its message. */
  datatype CrunError = CrunError(errno: int, msg: string)

  /** Linux error numbers. */
  const ENOENT: int := 2
  const EINVAL: int := 22

  /** The mount point of the cgroup file systems (CGROUP_ROOT). */
  const CGROUP_ROOT: string := "/sys/fs/cgroup"

  /**
   * struct libcrun_cgroup_status: the cgroup path and the systemd scope (each may be NULL)
   * and the manager that set the cgroup up.
   */
  datatype CgroupStatus = CgroupStatus(path: Option<string>, scope: Option<string>, manager: ManagerId)

  /** A NULL or empty C string (is_empty_string). */
  predicate IsEmptyString(s: Option<string>) {
    s.None? || s.value == []
  }

  const DELEGATE_CGROUP_ANNOTATION: string := "run.oci.delegate-cgroup"

  /**
   * find_delegate_cgroup: the sub-cgroup named by the run.oci.delegate-cgroup annotation;
   * an absent or empty annotation names none.
   */
  function FindDelegateCgroup(annotations: map<string, string>): (r: Option<string>)
    ensures r.None? <==>
      DELEGATE_CGROUP_ANNOTATION !in annotations || annotations[DELEGATE_CGROUP_ANNOTATION] == []
    ensures r.Some? ==> r.value != [] && annotations[DELEGATE_CGROUP_ANNOTATION] == r.value
  {
    if DELEGATE_CGROUP_ANNOTATION in annotations then
      var annotation := annotations[DELEGATE_CGROUP_ANNOTATION];
      if annotation == [] then None else Some(annotation)
    else None
  }

  /** Only the delegate annotation matters: adding or changing any other one changes nothing. */
  lemma DelegateIgnoresOtherAnnotations(annotations: map<string, string>, key: string, value: string)
    requires key != DELEGATE_CGROUP_ANNOTATION
    ensures FindDelegateCgroup(annotations[key := value]) == FindDelegateCgroup(annotations)
  {
  }

  /** The cpu section of the container's resource limits; a NULL string is None. */
  datatype CpuResources = CpuResources(cpus: Option<string>, mems: Option<string>)

  /**
   * The parts of runtime_spec_schema_config_linux_resources the front end looks at: the cpu
   * section and the keys of the "unified" map, in their stored order.
   */
  datatype Resources = Resources(cpu: Option<CpuResources>, unified: Option<seq<string>>)

  /** (uid_t) -1 and (gid_t) -1: no owner to give the cgroup to. */
  const ID_UNSET: int := 0xFFFF_FFFF

  /**
   * struct libcrun_cgroup_args as far as the modelled code reads it: container id, configured
   * cgroup path (NULL is None), annotations, pid, requested manager, resource limits and the
   * owner of the container's root.
   */
  datatype CgroupArgs = CgroupArgs(
    id: string,
    cgroupPath: Option<string>,
    annotations: map<string, string>,
    pid: int,
    manager: ManagerId,
    resources: Option<Resources>,
    rootUid: int,
    rootGid: int)

  /** What create_cgroup leaves in the status record besides its return value. */
  datatype Created = Created(result: Result<(), CrunError>, path: Option<string>, scope: Option<string>)

  /**
   * The functions of the host and of files outside this model, each as the answer it gives:
   * path joining, whole-file reads, signals, the cgroupfs primitives, the systemd manager,
   * ownership and resource updates, and the facts is_rootless consults.
   */
  datatype Host = Host(
    appendPaths: seq<string> -> Result<string, CrunError>,
    readFile: string -> Result<string, CrunError>,
    stopProcess: int -> Result<(), int>,
    enableControllers: string -> Result<(), CrunError>,
    enterCgroup: (CgroupMode, int, string) -> Result<(), CrunError>,
    killall: Option<string> -> Result<(), CrunError>,
    destroyPath: (Option<string>, CgroupMode) -> Result<(), CrunError>,
    systemdCreate: CgroupArgs -> Created,
    systemdDestroy: CgroupStatus -> Result<(), CrunError>,
    chownCgroups: (string, int, int) -> Result<(), CrunError>,
    updateResources: (string, Resources) -> Result<(), CrunError>,
    euid: int,
    inUserNamespace: Result<bool, CrunError>)

  /** A call into the host, recorded in the order it is made. */
  datatype HostCall =
    | EnableControllers(path: string)
    | EnterCgroup(mode: CgroupMode, pid: int, target: string)
    | Killall(cgroup: Option<string>)
    | DestroyPath(cgroup: Option<string>, mode: CgroupMode)

  /** is_rootless: a non-root effective uid, or else a user namespace (or the error finding out). */
  function IsRootless(host: Host): (r: Result<bool, CrunError>)
    ensures host.euid != 0 ==> r == Ok(true)
    ensures host.euid == 0 ==> r == host.inUserNamespace
  {
    if host.euid != 0 then Ok(true) else host.inUserNamespace
  }
}
