/**
 * What a seccomp-notify plugin is handed and what it fills: the notification record
 * (struct seccomp_notif of <linux/seccomp.h>, `nc::seccomp_notif_t` in Rust), the response
 * record, the three answers a plugin gives through its `handled` out-parameter, the Linux
 * error numbers the two plugins return, and the size of the configuration block the host
 * passes to `run_oci_seccomp_notify_start`.
 */
module SeccompNotify {

  /** Linux error numbers (asm-generic/errno-base.h). */
  const EPERM: int := 1
  const EINVAL: int := 22
  const ENOSPC: int := 28

  /** Answers a plugin stores through `handled`. */
  const RUN_OCI_SECCOMP_NOTIFY_HANDLE_NOT_HANDLED: int := 0
  const RUN_OCI_SECCOMP_NOTIFY_HANDLE_SEND_RESPONSE: int := 1
  const RUN_OCI_SECCOMP_NOTIFY_HANDLE_DELAYED_RESPONSE: int := 2

  /**
   * sizeof (struct libcrun_load_seccomp_notify_conf_s), or size_of of its Rust mirror: four
   * pointers, on the 64-bit targets the plugins are built for.
   */
  const POINTER_SIZE: nat := 8
  const CONF_SIZE: nat := 4 * POINTER_SIZE

  /** The six raw argument words of the intercepted system call. */
  type Args = a: seq<bv64> | |a| == 6 witness [0, 0, 0, 0, 0, 0]

  /** struct seccomp_data: system call number, audit architecture, instruction pointer, arguments. */
  datatype SeccompData = SeccompData(nr: int, arch: bv32, instructionPointer: bv64, args: Args)

  /** struct seccomp_notif: the notification the kernel queued; never changed by a plugin. */
  datatype SeccompNotif = SeccompNotif(id: bv64, pid: bv32, flags: bv32, data: SeccompData)

  /** struct seccomp_notif_resp: the record the host allocates and a plugin fills in place. */
  class SeccompNotifResp {
    var id: bv64
    var val: int
    var error: int
    var flags: bv32

    constructor (id: bv64, val: int, error: int, flags: bv32)
      ensures this.id == id && this.val == val && this.error == error && this.flags == flags
    {
      this.id := id;
      this.val := val;
      this.error := error;
      this.flags := flags;
    }
  }
}
