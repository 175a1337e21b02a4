/**
 * The trivial C plugin: it refuses every intercepted system call with ENOSPC and
 * otherwise only checks the size of its configuration block.
 */
module FullPlugin {
  import opened SeccompNotify

  /** run_oci_seccomp_notify_start: accept exactly the configuration block the plugin was built for. */
  function Start(sizeConfiguration: nat): (r: int)
    ensures r == 0 <==> sizeConfiguration == CONF_SIZE
    ensures r != 0 ==> r == -EINVAL
  {
    if sizeConfiguration != CONF_SIZE then -EINVAL else 0
  }

  /**
   * run_oci_seccomp_notify_handle_request: whatever the request, answer it now with -ENOSPC.
   * Only `error` of the response is written; `id`, `val` and `flags` keep what the host put there.
   */
  method HandleRequest(req: SeccompNotif, resp: SeccompNotifResp) returns (ret: int, handled: int)
    modifies resp
    ensures resp.error == -ENOSPC
    ensures handled == RUN_OCI_SECCOMP_NOTIFY_HANDLE_SEND_RESPONSE && ret == 0
    ensures resp.id == old(resp.id) && resp.val == old(resp.val) && resp.flags == old(resp.flags)
  {
    resp.error := -ENOSPC;
    handled := 1;
    ret := 0;
  }

  /** run_oci_seccomp_notify_stop: nothing to release. */
  function Stop(): (r: int)
    ensures r == 0
  {
    0
  }

  /** run_oci_seccomp_notify_plugin_version: the plugin ABI version the plugin implements. */
  function PluginVersion(): (v: int)
    ensures v == 1
  {
    1
  }
}
