/** The supervised Xvfb process as seen through its handle: a script of answers to the
    non-blocking `poll()` (None while running, Some(exit code) once exited), the bounded
    polling windows of startXvfb and stopXvfb, and the signals of the termination
    escalation. Sleeping between polls is not modelled; only the number of polls is. */
module Process {
  import opened Wrappers

  /** Polls in startXvfb's crash-detection window: every 0.5 s for 3 s. */
  const CRASH_POLLS: nat := 3 * 2

  /** Polls after the terminate signal in stopXvfb: every 0.25 s for 3 s. */
  const TERMINATE_POLLS: nat := 3 * 4

  /** A process handle, identified by its process id. */
  datatype Handle = Handle(pid: int)

  /** The signals stopXvfb sends: terminate(), kill(), and os.kill(pid, SIGKILL). */
  datatype Signal = Terminate(h: Handle) | Kill(h: Handle) | KillByPid(h: Handle)

  /** The answer of the i-th poll; a process whose script has run out is still running. */
  function Poll(polls: seq<Option<int>>, i: nat): Option<int> {
    if i < |polls| then polls[i] else None
  }

  /** The index of the first of the first `limit` polls that reports an exit, if any. */
  function FirstExit(polls: seq<Option<int>>, limit: nat): (r: Option<nat>)
    ensures r.Some? ==> r.value < limit && Poll(polls, r.value).Some?
    ensures r.Some? ==> forall j :: 0 <= j < r.value ==> Poll(polls, j).None?
    ensures r.None? ==> forall j :: 0 <= j < limit ==> Poll(polls, j).None?
    decreases limit
  {
    if limit == 0 then None
    else match FirstExit(polls, limit - 1)
      case Some(k) => Some(k)
      case None => if Poll(polls, limit - 1).Some? then Some(limit - 1) else None
  }

  /** A window looks at no poll past its limit: scripts that agree on the first `limit`
      answers give the same outcome. */
  lemma {:induction false} FirstExitOnlyReadsWindow(p: seq<Option<int>>, q: seq<Option<int>>, limit: nat)
    requires forall j :: 0 <= j < limit ==> Poll(p, j) == Poll(q, j)
    ensures FirstExit(p, limit) == FirstExit(q, limit)
    decreases limit
  {
    if limit > 0 {
      FirstExitOnlyReadsWindow(p, q, limit - 1);
    }
  }

  /** The exit code seen in startXvfb's crash window, or None if the process survived it:
      none exactly when every one of its CRASH_POLLS polls saw the process running, and
      otherwise the exit code of the first poll that saw an exit. */
  function CrashWindow(polls: seq<Option<int>>): (r: Option<int>)
    ensures r.None? <==> forall j :: 0 <= j < CRASH_POLLS ==> Poll(polls, j).None?
    ensures r.Some? ==>
      exists k :: 0 <= k < CRASH_POLLS && Poll(polls, k) == r &&
        forall j :: 0 <= j < k ==> Poll(polls, j).None?
  {
    match FirstExit(polls, CRASH_POLLS)
      case None => None
      case Some(k) => Poll(polls, k)
  }

  /** The signals stopXvfb sends to a running process: terminate; if none of the
      TERMINATE_POLLS polls saw it exit, kill; then, if the one further poll reports an
      exit, SIGKILL by pid (the source tests `poll() is not None` here). */
  function Escalation(h: Handle, polls: seq<Option<int>>): (e: seq<Signal>)
    ensures 1 <= |e| <= 3 && e[0] == Terminate(h)
  {
    [Terminate(h)] +
    if FirstExit(polls, TERMINATE_POLLS).Some? then []
    else [Kill(h)] + if Poll(polls, TERMINATE_POLLS).Some? then [KillByPid(h)] else []
  }

  /** Kill is sent exactly when all TERMINATE_POLLS polls after terminate saw the
      process still running. */
  lemma EscalationKillsOnlyAfterFullWait(h: Handle, polls: seq<Option<int>>)
    ensures Kill(h) in Escalation(h, polls) <==> forall j :: 0 <= j < TERMINATE_POLLS ==> Poll(polls, j).None?
  {
    var e := Escalation(h, polls);
    if FirstExit(polls, TERMINATE_POLLS).Some? {
      assert e == [Terminate(h)];
    } else {
      assert e[1] == Kill(h);
    }
  }

  /** The escalation consults at most TERMINATE_POLLS + 1 polls. */
  lemma EscalationOnlyReadsWindow(h: Handle, p: seq<Option<int>>, q: seq<Option<int>>)
    requires forall j :: 0 <= j <= TERMINATE_POLLS ==> Poll(p, j) == Poll(q, j)
    ensures Escalation(h, p) == Escalation(h, q)
  {
    FirstExitOnlyReadsWindow(p, q, TERMINATE_POLLS);
  }

  /** The crash window consults at most CRASH_POLLS polls. */
  lemma CrashWindowOnlyReadsWindow(p: seq<Option<int>>, q: seq<Option<int>>)
    requires forall j :: 0 <= j < CRASH_POLLS ==> Poll(p, j) == Poll(q, j)
    ensures CrashWindow(p) == CrashWindow(q)
  {
    FirstExitOnlyReadsWindow(p, q, CRASH_POLLS);
  }
}
