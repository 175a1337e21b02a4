/**
 * The mknod plugin: it answers intercepted mknod(2) calls whose device is one of five
 * harmless character devices, made by a process holding CAP_MKNOD in its effective set,
 * and leaves every other system call to the next handler.
 *
 * Every system call the plugin makes (open/pread64/close of /proc/<pid>/mem, capget, fork,
 * waitid) is an input: a `Kernel` record says what each would return. The pipeline returns
 * its verdict together with the calls it issued, in order, so that which stages ran is visible.
 * Linux x86_64 numbering is assumed throughout.
 */
module SeccompWatcher {
  import opened Wrappers
  import opened Strings
  import opened SeccompNotify

  type Byte = b: int | 0 <= b < 256

  /** A Linux error number, as `nc::Errno` carries it. */
  type Errno = e: int | e > 0 witness 1

  /** EPERM and EINVAL as the errors the plugin's own checks return. */
  const EPERM_ERRNO: Errno := EPERM
  const EINVAL_ERRNO: Errno := EINVAL

  const SYS_MKNOD: int := 133
  const S_IFMT: bv32 := 0xF000
  const S_IFCHR: bv32 := 0x2000
  const CAP_MKNOD: bv32 := 27
  const PATH_MAX: nat := 4096
  const P_PID: int := 1
  const LINUX_CAPABILITY_VERSION_3: bv32 := 0x2008_0522

  // ---------------------------------------------------------------------------
  // Lifecycle hooks
  // ---------------------------------------------------------------------------

  function PluginVersion(): (v: int)
    ensures v == 1
  {
    1
  }

  function Stop(): (r: int)
    ensures r == 0
  {
    0
  }

  /** run_oci_seccomp_notify_start: only the configuration block the plugin was built for is accepted. */
  function Start(sizeConfiguration: nat): (r: int)
    ensures r == 0 <==> sizeConfiguration == CONF_SIZE
    ensures r != 0 ==> r == -EINVAL
  {
    if CONF_SIZE != sizeConfiguration then -EINVAL else 0
  }

  // ---------------------------------------------------------------------------
  // The allow-list
  // ---------------------------------------------------------------------------

  datatype Device = Device(from: string, major: bv32, minor: bv32)

  const ALLOWED_DEVICES: seq<Device> := [
    Device("/dev/null", 1, 3),
    Device("/dev/zero", 1, 5),
    Device("/dev/full", 1, 7),
    Device("/dev/random", 1, 8),
    Device("/dev/urandom", 1, 9)
  ]

  /** `iter().find`: the first entry of `table` with this major and minor number. */
  function FindDevice(table: seq<Device>, major: bv32, minor: bv32): (r: Option<Device>)
    ensures r.Some? ==> r.value.major == major && r.value.minor == minor
  {
    if table == [] then None
    else if table[0].major == major && table[0].minor == minor then Some(table[0])
    else FindDevice(table[1..], major, minor)
  }

  /** The search succeeds exactly when some entry matches, and returns the first match. */
  lemma {:induction false} FindDeviceFindsFirst(table: seq<Device>, major: bv32, minor: bv32)
    ensures var r := FindDevice(table, major, minor);
      r.Some? <==> exists i | 0 <= i < |table| :: table[i].major == major && table[i].minor == minor
    ensures var r := FindDevice(table, major, minor);
      r.Some? ==> exists i | 0 <= i < |table| ::
        (table[i] == r.value && forall j | 0 <= j < i :: !(table[j].major == major && table[j].minor == minor))
  {
    if table != [] {
      FindDeviceFindsFirst(table[1..], major, minor);
      assert forall i | 1 <= i < |table| :: table[1..][i - 1] == table[i];
      if !(table[0].major == major && table[0].minor == minor) {
        var r := FindDevice(table, major, minor);
        if r.Some? {
          var i :| 0 <= i < |table[1..]| && table[1..][i] == r.value
            && (forall j | 0 <= j < i :: !(table[1..][j].major == major && table[1..][j].minor == minor));
          assert table[i + 1] == r.value;
        }
      }
    }
  }

  /** The allow-list admits exactly the five pairs (1,3), (1,5), (1,7), (1,8), (1,9). */
  lemma AllowListMembers(major: bv32, minor: bv32)
    ensures FindDevice(ALLOWED_DEVICES, major, minor).Some?
      <==> major == 1 && (minor == 3 || minor == 5 || minor == 7 || minor == 8 || minor == 9)
  {
    var t := ALLOWED_DEVICES;
    FindDeviceFindsFirst(t, major, minor);
    assert t[0].major == 1 && t[0].minor == 3;
    assert t[1].major == 1 && t[1].minor == 5;
    assert t[2].major == 1 && t[2].minor == 7;
    assert t[3].major == 1 && t[3].minor == 8;
    assert t[4].major == 1 && t[4].minor == 9;
  }

  /** No two entries of the allow-list name the same device number. */
  lemma AllowListDistinct()
    ensures forall i, j | 0 <= i < j < |ALLOWED_DEVICES| ::
      (ALLOWED_DEVICES[i].major, ALLOWED_DEVICES[i].minor) != (ALLOWED_DEVICES[j].major, ALLOWED_DEVICES[j].minor)
  {
  }

  // ---------------------------------------------------------------------------
  // Device classification
  // ---------------------------------------------------------------------------

  /** The S_IFMT bits of the mode word, after its truncation to u32. */
  function FileType(mode: bv64): bv32 {
    ((mode & 0xFFFF_FFFF) as bv32) & S_IFMT
  }

  predicate IsCharDevice(mode: bv64) {
    FileType(mode) == S_IFCHR
  }

  /** Bits 8-15 of the device word. */
  function Major(dev: bv64): (m: bv32)
    ensures m < 0x100
    ensures m as bv64 == (dev / 0x100) % 0x100
  {
    ((dev >> 8) & 0xFF) as bv32
  }

  /** Bits 0-7 of the device word. */
  function Minor(dev: bv64): (m: bv32)
    ensures m < 0x100
    ensures m as bv64 == dev % 0x100
  {
    (dev & 0xFF) as bv32
  }

  /** The 16-bit packing of a device number that Major and Minor undo. */
  function PackDevice(major: bv32, minor: bv32): bv64
    requires major < 0x100 && minor < 0x100
  {
    ((major as bv64) << 8) | (minor as bv64)
  }

  lemma DeviceNumberRoundTrip(major: bv32, minor: bv32)
    requires major < 0x100 && minor < 0x100
    ensures Major(PackDevice(major, minor)) == major && Minor(PackDevice(major, minor)) == minor
  {
  }

  /** Only the low 16 bits of the device word matter. */
  lemma DeviceNumberLow16(dev: bv64)
    ensures Major(dev) == Major(dev & 0xFFFF) && Minor(dev) == Minor(dev & 0xFFFF)
  {
  }

  predicate HasCapMknod(effective: bv32) {
    effective & (1 << CAP_MKNOD) != 0
  }

  // ---------------------------------------------------------------------------
  // The path in the caller's memory
  // ---------------------------------------------------------------------------

  predicate InRange(b: Byte, lo: int, hi: int) {
    lo <= b <= hi
  }

  /**
   * The length of the well-formed UTF-8 sequence `s` starts with, or 0 when it starts with an
   * ill-formed one (Table 3-7 of the Unicode Standard, section 4 of RFC 3629: no overlong forms,
   * no surrogates, nothing past U+10FFFF).
   */
  function Utf8Width(s: seq<Byte>): (w: nat)
    requires s != []
    ensures w <= |s|
    ensures s[0] < 0x80 <==> w == 1
    ensures (0x80 <= s[0] < 0xC2 || 0xF4 < s[0]) ==> w == 0
    ensures forall k | 1 <= k < w :: 0x80 <= s[k] <= 0xBF
  {
    var b := s[0];
    if b < 0x80 then 1
    else if 0xC2 <= b <= 0xDF then
      if |s| >= 2 && InRange(s[1], 0x80, 0xBF) then 2 else 0
    else if 0xE0 <= b <= 0xEF then
      var lo := if b == 0xE0 then 0xA0 else 0x80;
      var hi := if b == 0xED then 0x9F else 0xBF;
      if |s| >= 3 && InRange(s[1], lo, hi) && InRange(s[2], 0x80, 0xBF) then 3 else 0
    else if 0xF0 <= b <= 0xF4 then
      var lo := if b == 0xF0 then 0x90 else 0x80;
      var hi := if b == 0xF4 then 0x8F else 0xBF;
      if |s| >= 4 && InRange(s[1], lo, hi) && InRange(s[2], 0x80, 0xBF) && InRange(s[3], 0x80, 0xBF)
      then 4 else 0
    else 0
  }

  /** What `CString::into_string` accepts. */
  predicate ValidUtf8(s: seq<Byte>)
    decreases |s|
  {
    s == [] || (Utf8Width(s) > 0 && ValidUtf8(s[Utf8Width(s)..]))
  }

  lemma {:induction false} AsciiIsValidUtf8(s: seq<Byte>)
    requires forall i | 0 <= i < |s| :: s[i] < 0x80
    ensures ValidUtf8(s)
  {
    if s != [] {
      AsciiIsValidUtf8(s[1..]);
    }
  }

  /** get_string_from_buffer: the text before the first NUL, which must be UTF-8. */
  function GetStringFromBuffer(buf: seq<Byte>): (r: Result<seq<Byte>, Errno>)
    ensures r.Err? ==> r.error == EINVAL
    ensures r.Ok? ==> |r.value| < |buf| && buf[|r.value|] == 0 && buf[..|r.value|] == r.value
    ensures r.Ok? ==> 0 !in r.value && ValidUtf8(r.value)
    ensures 0 !in buf ==> r.Err?
    ensures r.Err? ==> forall n | 0 <= n < |buf| && buf[n] == 0 && 0 !in buf[..n] :: !ValidUtf8(buf[..n])
  {
    match IndexOf(buf, 0)
    case None => Err(EINVAL_ERRNO)
    case Some(len) =>
      // CString::new refuses an interior NUL, which the bytes before the first NUL never hold,
      // so only into_string can refuse them.
      if !ValidUtf8(buf[..len]) then Err(EINVAL_ERRNO)
      else Ok(buf[..len])
  }

  /** A NUL-free UTF-8 path followed by NUL and anything reads back as itself. */
  lemma GetStringRoundTrip(path: seq<Byte>, rest: seq<Byte>)
    requires 0 !in path && ValidUtf8(path)
    ensures GetStringFromBuffer(path + [0] + rest) == Ok(path)
  {
    var buf := path + [0] + rest;
    assert buf[|path|] == 0 && buf[..|path|] == path;
    assert forall i | 0 <= i < |path| :: buf[i] != 0;
    assert IndexOf(buf, 0) == Some(|path|);
  }

  /** A NUL in the first byte gives the empty path, not a rejection. */
  lemma LeadingNulIsEmptyPath(rest: seq<Byte>)
    ensures GetStringFromBuffer([0] + rest) == Ok([])
  {
    GetStringRoundTrip([], rest);
  }

  /** An overlong encoding of '/' is not UTF-8 and is refused. */
  lemma OverlongSlashRefused()
    ensures GetStringFromBuffer([0xC0, 0xAF, 0]) == Err(EINVAL_ERRNO)
  {
    assert IndexOf([0xC0, 0xAF, 0], 0) == Some(2);
  }

  /** The buffer after pread64: `vec![0; PATH_MAX]` whose first bytes were overwritten. */
  type ReadBytes = s: seq<Byte> | |s| <= PATH_MAX witness []

  function FnameBuffer(read: ReadBytes): (buf: seq<Byte>)
    ensures |buf| == PATH_MAX && buf[..|read|] == read
    ensures forall i | |read| <= i < PATH_MAX :: buf[i] == 0
  {
    read + seq(PATH_MAX - |read|, _ => 0)
  }

  /**
   * A read shorter than the buffer always leaves a NUL behind it, so the path it read is
   * recovered exactly when it holds no NUL and is UTF-8; only a full-length read can lack one.
   */
  lemma ShortReadIsTerminated(read: ReadBytes)
    requires |read| < PATH_MAX
    ensures 0 in FnameBuffer(read)
    ensures 0 !in read && ValidUtf8(read) ==> GetStringFromBuffer(FnameBuffer(read)) == Ok(read)
  {
    var buf := FnameBuffer(read);
    assert buf[|read|] == 0;
    if 0 !in read && ValidUtf8(read) {
      assert buf == read + [0] + buf[|read| + 1..];
      GetStringRoundTrip(read, buf[|read| + 1..]);
    }
  }

  /** A full-length read without a NUL is refused. */
  lemma FullReadWithoutNulRefused(read: ReadBytes)
    requires |read| == PATH_MAX && 0 !in read
    ensures GetStringFromBuffer(FnameBuffer(read)) == Err(EINVAL_ERRNO)
  {
    assert FnameBuffer(read) == read;
  }

  // ---------------------------------------------------------------------------
  // The decision pipeline
  // ---------------------------------------------------------------------------

  type ChildPid = p: int | p > 0 witness 1

  /** What each system call the plugin makes would return for the request at hand. */
  datatype Kernel = Kernel(
    open: Result<nat, Errno>,         // open of /proc/<pid>/mem: a descriptor
    pread: Result<ReadBytes, Errno>,  // pread64: the bytes it stored at the front of the buffer
    close: Result<(), Errno>,
    capget: Result<bv32, Errno>,      // capget: the effective capability set
    fork: Result<ChildPid, Errno>,    // fork, as the parent sees it: the child's pid
    waitid: Result<(), Errno>)

  /** The system calls the pipeline issues, with the arguments that identify them. */
  datatype Syscall =
    | OpenMem(pid: bv32)
    | Pread(fd: nat, count: nat, offset: int)
    | Close(fd: nat)
    | Capget(version: bv32, headerPid: int)
    | Fork
    | Waitid(idtype: int, id: int)

  datatype MknodOutcome = MknodOutcome(result: Result<int, Errno>, calls: seq<Syscall>)

  /** A 64-bit word read as a signed integer (`as isize`). */
  function SignedWord(w: bv64): int {
    if w < 0x8000_0000_0000_0000 then w as int else w as int - 0x1_0000_0000_0000_0000
  }

  /** A 32-bit word read as a signed integer (`as i32`). */
  function SignedHalf(w: bv32): int {
    if w < 0x8000_0000 then w as int else w as int - 0x1_0000_0000
  }

  /**
   * handle_mknod_request. The path is decoded and bound but never inspected, so a decoding
   * failure rejects nothing; `waitid` waits on the child just forked, not on the requester.
   */
  function HandleMknodRequest(req: SeccompNotif, k: Kernel): (o: MknodOutcome)
    ensures o.result.Ok? ==> o.result.value == 0
    ensures |o.calls| >= 1 && o.calls[0] == OpenMem(req.pid)
    ensures o.result.Ok? ==> k.fork.Ok? && o.calls[|o.calls| - 1] == Waitid(P_PID, k.fork.value)
  {
    var opening := [OpenMem(req.pid)];
    if k.open.Err? then MknodOutcome(Err(k.open.error), opening)
    else
      var fd := k.open.value;
      var read := opening + [Pread(fd, PATH_MAX, SignedWord(req.data.args[0])), Close(fd)];
      if k.pread.Err? then MknodOutcome(Err(k.pread.error), read)
      else if k.close.Err? then MknodOutcome(Err(k.close.error), read)
      else
        var filename := GetStringFromBuffer(FnameBuffer(k.pread.value));
        if !IsCharDevice(req.data.args[1]) then MknodOutcome(Err(EPERM_ERRNO), read)
        else if FindDevice(ALLOWED_DEVICES, Major(req.data.args[2]), Minor(req.data.args[2])).None? then
          MknodOutcome(Err(EPERM_ERRNO), read)
        else
          var queried := read + [Capget(LINUX_CAPABILITY_VERSION_3, SignedHalf(req.pid))];
          if k.capget.Err? then MknodOutcome(Err(k.capget.error), queried)
          else if !HasCapMknod(k.capget.value) then MknodOutcome(Err(EPERM_ERRNO), queried)
          else
            var forked := queried + [Fork];
            if k.fork.Err? then MknodOutcome(Err(k.fork.error), forked)
            else
              var waited := forked + [Waitid(P_PID, k.fork.value)];
              if k.waitid.Err? then MknodOutcome(Err(k.waitid.error), waited)
              else MknodOutcome(Ok(0), waited)
  }

  function ErrorOf<T>(r: Result<T, Errno>): Option<Errno> {
    if r.Err? then Some(r.error) else None
  }

  /** The verdict of every stage, in the order the stages are meant to run: None lets the request on. */
  function StageVerdicts(req: SeccompNotif, k: Kernel): (v: seq<Option<Errno>>)
    ensures |v| == 9
  {
    var args := req.data.args;
    [ ErrorOf(k.open), ErrorOf(k.pread), ErrorOf(k.close),
      if IsCharDevice(args[1]) then None else Some(EPERM_ERRNO),
      if FindDevice(ALLOWED_DEVICES, Major(args[2]), Minor(args[2])).Some? then None else Some(EPERM_ERRNO),
      ErrorOf(k.capget),
      if k.capget.Ok? && !HasCapMknod(k.capget.value) then Some(EPERM_ERRNO) else None,
      ErrorOf(k.fork), ErrorOf(k.waitid) ]
  }

  /** The first rejection among the verdicts from index `from` on, or success when all of them pass. */
  function FirstRejection(verdicts: seq<Option<Errno>>, from: nat): (r: Result<int, Errno>)
    ensures r.Ok? ==> r.value == 0
    decreases |verdicts| - from
  {
    if from >= |verdicts| then Ok(0)
    else if verdicts[from].Some? then Err(verdicts[from].value)
    else FirstRejection(verdicts, from + 1)
  }

  /** Success exactly when no stage objects. */
  lemma {:induction false} FirstRejectionPasses(verdicts: seq<Option<Errno>>, from: nat)
    ensures FirstRejection(verdicts, from).Ok? <==> forall i | from <= i < |verdicts| :: verdicts[i].None?
    decreases |verdicts| - from
  {
    if from < |verdicts| {
      FirstRejectionPasses(verdicts, from + 1);
    }
  }

  /** The first rejecting verdict decides. */
  lemma {:induction false} FirstRejectionAt(verdicts: seq<Option<Errno>>, from: nat, i: nat)
    requires from <= i < |verdicts| && verdicts[i].Some?
    requires forall j | from <= j < i :: verdicts[j].None?
    ensures FirstRejection(verdicts, from) == Err(verdicts[i].value)
    decreases i - from
  {
    if from < i {
      FirstRejectionAt(verdicts, from + 1, i);
    }
  }

  /** The pipeline's answer is the verdict of its first failing stage; Ok(0) only when all pass. */
  lemma StagesRunInOrder(req: SeccompNotif, k: Kernel)
    ensures HandleMknodRequest(req, k).result == FirstRejection(StageVerdicts(req, k), 0)
  {
    if !(k.open.Ok? && k.pread.Ok? && k.close.Ok?) {
      MemoryStagesInOrder(req, k);
    } else if !DeviceAllowed(req) {
      DeviceStagesInOrder(req, k);
    } else if !(k.capget.Ok? && HasCapMknod(k.capget.value)) {
      CapabilityStagesInOrder(req, k);
    } else {
      ProbeStagesInOrder(req, k);
    }
  }

  /** Opening, reading and closing the caller's memory. */
  lemma MemoryStagesInOrder(req: SeccompNotif, k: Kernel)
    requires !(k.open.Ok? && k.pread.Ok? && k.close.Ok?)
    ensures HandleMknodRequest(req, k).result == FirstRejection(StageVerdicts(req, k), 0)
  {
    var v := StageVerdicts(req, k);
    if k.open.Err? { FirstRejectionAt(v, 0, 0); }
    else if k.pread.Err? { FirstRejectionAt(v, 0, 1); }
    else { FirstRejectionAt(v, 0, 2); }
  }

  /** The file-type check and the allow-list. */
  lemma DeviceStagesInOrder(req: SeccompNotif, k: Kernel)
    requires k.open.Ok? && k.pread.Ok? && k.close.Ok? && !DeviceAllowed(req)
    ensures HandleMknodRequest(req, k).result == FirstRejection(StageVerdicts(req, k), 0)
  {
    var v := StageVerdicts(req, k);
    if !IsCharDevice(req.data.args[1]) { FirstRejectionAt(v, 0, 3); }
    else { FirstRejectionAt(v, 0, 4); }
  }

  /** capget and the CAP_MKNOD bit. */
  lemma CapabilityStagesInOrder(req: SeccompNotif, k: Kernel)
    requires k.open.Ok? && k.pread.Ok? && k.close.Ok? && DeviceAllowed(req)
    requires !(k.capget.Ok? && HasCapMknod(k.capget.value))
    ensures HandleMknodRequest(req, k).result == FirstRejection(StageVerdicts(req, k), 0)
  {
    var v := StageVerdicts(req, k);
    if k.capget.Err? { FirstRejectionAt(v, 0, 5); }
    else { FirstRejectionAt(v, 0, 6); }
  }

  /** fork and waitid, once every check passed. */
  lemma ProbeStagesInOrder(req: SeccompNotif, k: Kernel)
    requires k.open.Ok? && k.pread.Ok? && k.close.Ok? && DeviceAllowed(req)
    requires k.capget.Ok? && HasCapMknod(k.capget.value)
    ensures HandleMknodRequest(req, k).result == FirstRejection(StageVerdicts(req, k), 0)
  {
    var v := StageVerdicts(req, k);
    if k.fork.Err? { FirstRejectionAt(v, 0, 7); }
    else if k.waitid.Err? { FirstRejectionAt(v, 0, 8); }
    else { FirstRejectionPasses(v, 0); }
  }

  /**
   * The calls made, stage by stage: each exit of the pipeline issued exactly one of these
   * sequences, the longest one only when every check passed.
   */
  lemma CallsByStage(req: SeccompNotif, k: Kernel)
    ensures var o := HandleMknodRequest(req, k);
      var open := OpenMem(req.pid);
      var cap := Capget(LINUX_CAPABILITY_VERSION_3, SignedHalf(req.pid));
      && (k.open.Err? ==> o.calls == [open])
      && (k.open.Ok? ==>
            var fd := k.open.value;
            var rd := [open, Pread(fd, PATH_MAX, SignedWord(req.data.args[0])), Close(fd)];
            if !(k.pread.Ok? && k.close.Ok? && DeviceAllowed(req)) then o.calls == rd
            else if !(k.capget.Ok? && HasCapMknod(k.capget.value)) then o.calls == rd + [cap]
            else if k.fork.Err? then o.calls == rd + [cap, Fork]
            else o.calls == rd + [cap, Fork, Waitid(P_PID, k.fork.value)])
  {
  }

  /** The device checks that come before any capability check. */
  predicate DeviceAllowed(req: SeccompNotif) {
    IsCharDevice(req.data.args[1])
    && FindDevice(ALLOWED_DEVICES, Major(req.data.args[2]), Minor(req.data.args[2])).Some?
  }

  /** The probe runs only after every check passed; it waits on the forked child. */
  lemma ProbeFollowsChecks(req: SeccompNotif, k: Kernel)
    ensures var o := HandleMknodRequest(req, k);
      Fork in o.calls <==>
        k.open.Ok? && k.pread.Ok? && k.close.Ok? && DeviceAllowed(req)
        && k.capget.Ok? && HasCapMknod(k.capget.value)
    ensures var o := HandleMknodRequest(req, k);
      forall c | c in o.calls && c.Waitid? :: k.fork.Ok? && c == Waitid(P_PID, k.fork.value)
  {
    CallsByStage(req, k);
  }

  /** capget is asked only about a char device on the allow-list. */
  lemma CapgetFollowsDeviceChecks(req: SeccompNotif, k: Kernel)
    ensures var o := HandleMknodRequest(req, k);
      Capget(LINUX_CAPABILITY_VERSION_3, SignedHalf(req.pid)) in o.calls <==>
        k.open.Ok? && k.pread.Ok? && k.close.Ok? && DeviceAllowed(req)
  {
    CallsByStage(req, k);
  }

  /** Once /proc/<pid>/mem is open it is closed, on every path. */
  lemma MemoryHandleReleased(req: SeccompNotif, k: Kernel)
    requires k.open.Ok?
    ensures Close(k.open.value) in HandleMknodRequest(req, k).calls
  {
    CallsByStage(req, k);
  }

  /** The bytes read from the caller's memory never change the decision. */
  lemma DecisionIgnoresPath(req: SeccompNotif, k: Kernel, other: ReadBytes)
    requires k.pread.Ok?
    ensures HandleMknodRequest(req, k.(pread := Ok(other))) == HandleMknodRequest(req, k)
  {
  }

  /** Anything but a character device is refused with EPERM, whatever the device word says. */
  lemma NonCharDeviceRefused(req: SeccompNotif, k: Kernel)
    requires k.open.Ok? && k.pread.Ok? && k.close.Ok?
    requires !IsCharDevice(req.data.args[1])
    ensures HandleMknodRequest(req, k).result == Err(EPERM_ERRNO)
    ensures Capget(LINUX_CAPABILITY_VERSION_3, SignedHalf(req.pid)) !in HandleMknodRequest(req, k).calls
  {
  }

  // ---------------------------------------------------------------------------
  // The entry point
  // ---------------------------------------------------------------------------

  /** The value stored in `resp.error`: 0 for success, the negated errno otherwise. */
  function ResponseError(r: Result<int, Errno>): (e: int)
    ensures e == 0 <==> r.Ok?
    ensures r.Err? ==> e == -(r.error as int)
  {
    match r
    case Ok(_) => 0
    case Err(errno) => -(errno as int)
  }

  /**
   * run_oci_seccomp_notify_handle_request: answer mknod now; pass on everything else,
   * leaving the response untouched.
   */
  method HandleRequest(req: SeccompNotif, k: Kernel, resp: SeccompNotifResp) returns (ret: int, handled: int)
    modifies resp
    ensures ret == 0
    ensures req.data.nr != SYS_MKNOD ==>
      handled == RUN_OCI_SECCOMP_NOTIFY_HANDLE_NOT_HANDLED && unchanged(resp)
    ensures req.data.nr == SYS_MKNOD ==>
      && handled == RUN_OCI_SECCOMP_NOTIFY_HANDLE_SEND_RESPONSE
      && resp.id == req.id && resp.val == 0 && resp.flags == old(resp.flags)
      && resp.error == ResponseError(HandleMknodRequest(req, k).result)
  {
    if req.data.nr == SYS_MKNOD {
      match HandleMknodRequest(req, k).result {
        case Ok(_) =>
          resp.error := 0;
        case Err(errno) =>
          resp.error := -(errno as int);
      }
      handled := RUN_OCI_SECCOMP_NOTIFY_HANDLE_SEND_RESPONSE;
      resp.id := req.id;
      resp.val := 0;
      ret := 0;
      return;
    }
    handled := RUN_OCI_SECCOMP_NOTIFY_HANDLE_NOT_HANDLED;
    ret := 0;
  }
}
