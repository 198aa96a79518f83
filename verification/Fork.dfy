/** Waiting for child processes, over what successive calls of wait return. */
module Fork {
  import opened Prelude

  /** A child that ended, with its exit code if it called exit; no child left; or another error. */
  datatype WaitResult = Ended(exited: bool, code: int) | NoChild | Failed

  predicate Clean(r: WaitResult) {
    r.Ended? && r.exited && r.code == 0
  }

  /** Waits until no child is left. `calls` is the number of results consumed: every child has
      been waited for, and the answer is 1 exactly when all of them exited with 0 and no call
      failed. */
  method ProcessWaitForAll(results: seq<WaitResult>) returns (status: int, calls: nat)
    requires NoChild in results
    ensures 0 < calls <= |results| && results[calls - 1] == NoChild && NoChild !in results[..calls - 1]
    ensures status == 1 || status == -1
    ensures status == 1 <==> forall i :: 0 <= i < calls - 1 ==> Clean(results[i])
  {
    var fStatus, cont := 1, true;
    calls := 0;
    while cont
      invariant calls <= |results|
      invariant cont ==> NoChild !in results[..calls] && NoChild in results[calls..]
      invariant !cont ==> 0 < calls && results[calls - 1] == NoChild && NoChild !in results[..calls - 1]
      invariant fStatus == 0 || fStatus == 1
      invariant fStatus == 1 <==> forall i :: 0 <= i < (if cont then calls else calls - 1) ==> Clean(results[i])
      decreases |results| - calls, cont
    {
      var r := results[calls];
      if r.NoChild? {
        cont := false;
      } else if !(r.Ended? && r.exited && r.code == 0) {
        fStatus := 0;
      }
      calls := calls + 1;
    }
    status := if fStatus == 0 then -1 else 1;
  }

  /** One call that does not block; None is the return when children are left but none ended.
      The answer is -1 exactly when a child failed or the call did, and 1 exactly when a child
      exited with 0. */
  method ProcessWaitForAllNonBlocking(result: Option<WaitResult>) returns (status: int)
    ensures status == -1 <==> result.Some? && (result.value.Failed? || (result.value.Ended? && !Clean(result.value)))
    ensures status == 1 <==> result.Some? && Clean(result.value)
    ensures status == 0 <==> result == None || result.value.NoChild?
  {
    if result == None { return 0; }
    match result.value {
      case Failed => return -1;
      case NoChild => return 0;
      case Ended(exited, code) =>
        if exited {
          if code == 0 { return 1; } else { return -1; }
        } else {
          return -1;
        }
    }
  }
}
