/** The slot registry as a value: the two maps keyed by server number, the errors the
    operations raise, and what each operation does to the registry, given what the
    launched Xvfb process does. The class XvfbMan.Manager updates the same maps in place
    and is proved to follow these definitions. */
module SlotRegistry {
  import opened Wrappers
  import opened Text
  import opened Process

  /** An entry of `xvfbPipes`: the `None` placeholder that locks a server number while
      its process is being spawned, or the handle of the running process. */
  datatype Slot = Placeholder | Running(handle: Handle)

  /** An entry of `xvfbOutputFiles`: the temporary file capturing the process's output. */
  datatype Sink = Sink(name: string)

  /** `xvfbPipes` and `xvfbOutputFiles`. */
  datatype Registry = Registry(pipes: map<int, Slot>, outputFiles: map<int, Sink>)

  /** The invariant every operation keeps: only tracked numbers have a capture file, and
      a tracked number without one is a placeholder (a start that failed creating its
      capture file leaves exactly that). */
  predicate Consistent(r: Registry) {
    r.outputFiles.Keys <= r.pipes.Keys &&
    forall n :: n in r.pipes && n !in r.outputFiles ==> r.pipes[n].Placeholder?
  }

  /** Adding a fresh key and deleting it again gives back the map. */
  lemma UpdateThenRemove<V>(m: map<int, V>, k: int, v: V)
    requires k !in m
    ensures m[k := v] - {k} == m
  {
  }

  /** Deleting a key that is not there changes nothing. */
  lemma RemoveAbsent<V>(m: map<int, V>, k: int)
    requires k !in m
    ensures m - {k} == m
  {
  }

  /** Overwriting a key twice keeps only the second value. */
  lemma UpdateTwice<V>(m: map<int, V>, k: int, v: V, w: V)
    ensures m[k := v][k := w] == m[k := w]
  {
  }

  /** No placeholder is left: every tracked server number has a process handle. */
  predicate Settled(r: Registry) {
    forall n :: n in r.pipes ==> r.pipes[n].Running?
  }

  /** A leaked lock: number n holds the placeholder and has no capture file. */
  predicate Leaked(r: Registry, n: int) {
    n in r.pipes && r.pipes[n] == Placeholder && n !in r.outputFiles
  }

  /** On a consistent registry with no placeholder, both maps track the same numbers. */
  lemma SettledKeysAgree(r: Registry)
    requires Consistent(r) && Settled(r)
    ensures r.pipes.Keys == r.outputFiles.Keys
  {
    forall n | n in r.pipes ensures n in r.outputFiles {
      assert r.pipes[n].Running?;
    }
  }

  /** isUsingXvfb(): any server number tracked; isUsingXvfb(n): n tracked. */
  function IsUsing(r: Registry, serverNum: Option<int>): (b: bool)
    ensures serverNum.None? ==> (b <==> |r.pipes| > 0)
    ensures serverNum.Some? ==> (b <==> serverNum.value in r.pipes)
  {
    match serverNum
      case None => r.pipes != map[]
      case Some(n) => n in r.pipes
  }

  /** The Python exception class an error is raised as. */
  datatype ErrorKind = ValueError | KeyError | OSError

  datatype Error =
    | AlreadyManaged(serverNum: int)                            // startXvfb on a tracked number
    | SinkFailed(serverNum: int, reason: string)                // NamedTemporaryFile raised
    | SpawnFailed(serverNum: int, reason: string)               // Popen raised
    | FlushFailed(serverNum: int, exitCode: int, reason: string) // flush after an early exit raised
    | DisplayInUse(serverNum: int, exitCode: int)               // early exit, address taken
    | EarlyExit(serverNum: int, exitCode: int, output: string)  // early exit, any other reason
    | RangeExhausted(first: int, last: int)                     // startXvfbRange found no slot
  {
    function Kind(): ErrorKind {
      match this
        case AlreadyManaged(_) => ValueError
        case SinkFailed(_, _) => OSError
        case SpawnFailed(_, _) => OSError
        case FlushFailed(_, _, _) => OSError
        case DisplayInUse(_, _) => KeyError
        case EarlyExit(_, _, _) => OSError
        case RangeExhausted(_, _) => KeyError
    }
  }

  datatype Result<+T> = Ok(value: T) | Err(error: Error)

  /** The outcome left a placeholder behind: creating the capture file raised. */
  predicate LeaksPlaceholder<T>(res: Result<T>) {
    res.Err? && res.error.SinkFailed?
  }

  /** What an operation returns or raises, and the registry it leaves behind. */
  datatype Step<+T> = Step(result: Result<T>, after: Registry)

  /** Text Xvfb prints when the display address is already bound by another server. */
  const MARKER: string := "Server is already active for display"

  /** The error raised when the process exits inside the crash window and its output
      could be read back: KeyError exactly when the output holds MARKER, else OSError. */
  function ClassifyExit(serverNum: int, exitCode: int, output: string): (e: Error)
    ensures (e.DisplayInUse? || e.EarlyExit?) && e.serverNum == serverNum && e.exitCode == exitCode
    ensures e.Kind() == KeyError <==> Contains(output, MARKER)
  {
    if Contains(output, MARKER) then DisplayInUse(serverNum, exitCode)
    else EarlyExit(serverNum, exitCode, output)
  }

  /** What reading back the capture file after an early exit gives: `flush()` raises, or
      the output text (a failed read yields the source's error text, which is output too). */
  datatype Capture = Captured(output: string) | FlushRaises(reason: string)

  /** What launching Xvfb does: `Popen` raises, or it starts a process whose polls follow
      `polls` and whose capture file reads back as `capture`. */
  datatype Spawn =
    | SpawnRaises(reason: string)
    | Spawned(handle: Handle, polls: seq<Option<int>>, capture: Capture)

  /** What an attempt does: creating the capture file raises, or it opens `sink` and the
      spawn does `spawn`. */
  datatype Launch = SinkRaises(reason: string) | SinkOpened(sink: Sink, spawn: Spawn)

  /** The registry with serverNum mapped to the process handle and the capture file. */
  function Commit(r: Registry, serverNum: int, h: Handle, sink: Sink): Registry {
    Registry(r.pipes[serverNum := Running(h)], r.outputFiles[serverNum := sink])
  }

  /** startXvfb(serverNum). The placeholder is inserted before the capture file is
      created, outside the `try` that unwinds a failed spawn: if creating the file raises,
      the error propagates with the placeholder still in place. An early exit unwinds both
      entries, unless flushing the capture file raises first, which leaves both. On
      success the number maps to the process handle and the capture file. */
  function Start(r: Registry, serverNum: int, launch: Launch): Step<bool> {
    if serverNum in r.pipes then Step(Err(AlreadyManaged(serverNum)), r)
    else match launch
      case SinkRaises(reason) =>
        Step(Err(SinkFailed(serverNum, reason)), Registry(r.pipes[serverNum := Placeholder], r.outputFiles))
      case SinkOpened(sink, spawn) =>
        match spawn
          case SpawnRaises(reason) => Step(Err(SpawnFailed(serverNum, reason)), r)
          case Spawned(h, polls, capture) => Watch(r, serverNum, sink, h, polls, capture)
  }

  /** The crash-detection part of startXvfb, once the process `h` is spawned: `r` is the
      registry before the start, to which an early exit with a readable capture file
      returns. */
  function Watch(r: Registry, serverNum: int, sink: Sink, h: Handle, polls: seq<Option<int>>,
                 capture: Capture): Step<bool> {
    match CrashWindow(polls)
      case None => Step(Ok(true), Commit(r, serverNum, h, sink))
      case Some(code) =>
        match capture
          case FlushRaises(reason) =>
            Step(Err(FlushFailed(serverNum, code, reason)), Commit(r, serverNum, h, sink))
          case Captured(output) => Step(Err(ClassifyExit(serverNum, code, output)), r)
  }

  /** What a failed start leaves: the placeholder alone if creating the capture file
      raised, both entries if the flush raised, and otherwise the registry as it was. */
  lemma StartFailureEffect(r: Registry, serverNum: int, launch: Launch)
    ensures var st := Start(r, serverNum, launch);
      st.result.Err? ==>
        if st.result.error.SinkFailed? then
          serverNum !in r.pipes && st.after == Registry(r.pipes[serverNum := Placeholder], r.outputFiles)
        else if st.result.error.FlushFailed? then
          serverNum !in r.pipes && launch.SinkOpened? && launch.spawn.Spawned? &&
          st.after == Commit(r, serverNum, launch.spawn.handle, launch.sink)
        else st.after == r
  {
  }

  /** A start that raises ValueError or KeyError never changes the registry. */
  lemma StartSoftFailureLeavesRegistry(r: Registry, serverNum: int, launch: Launch)
    ensures var st := Start(r, serverNum, launch);
      st.result.Err? && st.result.error.Kind() != OSError ==> st.after == r
  {
  }

  /** Why a start fails: ValueError exactly on a tracked number; KeyError exactly when the
      process exits in the crash window and its read-back output contains MARKER; OSError
      when creating the capture file raises, Popen raises, or the process exits in the
      window and either the flush raises or the output lacks MARKER. */
  lemma StartErrorKinds(r: Registry, serverNum: int, launch: Launch)
    ensures var res := Start(r, serverNum, launch).result;
      (res.Err? && res.error.Kind() == ValueError) <==> serverNum in r.pipes
    ensures var res := Start(r, serverNum, launch).result;
      (res.Err? && res.error.Kind() == KeyError) <==>
        (serverNum !in r.pipes && launch.SinkOpened? && launch.spawn.Spawned? &&
         CrashWindow(launch.spawn.polls).Some? && launch.spawn.capture.Captured? &&
         exists i :: OccursAt(launch.spawn.capture.output, MARKER, i))
    ensures var res := Start(r, serverNum, launch).result;
      (res.Err? && res.error.Kind() == OSError) <==>
        (serverNum !in r.pipes &&
         (launch.SinkRaises? || launch.spawn.SpawnRaises? ||
          (CrashWindow(launch.spawn.polls).Some? &&
           (launch.spawn.capture.FlushRaises? ||
            !exists i :: OccursAt(launch.spawn.capture.output, MARKER, i)))))
  {
    if launch.SinkOpened? && launch.spawn.Spawned? && launch.spawn.capture.Captured? {
      ContainsIff(launch.spawn.capture.output, MARKER);
    }
  }

  /** A start succeeds exactly when the number is free, the capture file and the process
      are created and the process survives CRASH_POLLS polls; it returns True, maps the
      number to the live handle and the new capture file, and leaves every other number
      as it was. */
  lemma StartSuccess(r: Registry, serverNum: int, launch: Launch)
    ensures var st := Start(r, serverNum, launch);
      st.result.Ok? <==>
        (serverNum !in r.pipes && launch.SinkOpened? && launch.spawn.Spawned? &&
         forall j :: 0 <= j < CRASH_POLLS ==> Poll(launch.spawn.polls, j).None?)
    ensures var st := Start(r, serverNum, launch);
      st.result.Ok? ==>
        st.result.value &&
        st.after.pipes.Keys == r.pipes.Keys + {serverNum} &&
        st.after.pipes[serverNum] == Running(launch.spawn.handle) &&
        st.after.outputFiles.Keys == r.outputFiles.Keys + {serverNum} &&
        st.after.outputFiles[serverNum] == launch.sink &&
        (forall m :: m in r.pipes && m != serverNum ==> st.after.pipes[m] == r.pipes[m]) &&
        (forall m :: m in r.outputFiles && m != serverNum ==> st.after.outputFiles[m] == r.outputFiles[m])
  {
  }

  /** The crash window bound: a start consults at most CRASH_POLLS polls of the new
      process, so scripts that agree on those answers give the same outcome. */
  lemma StartOnlyReadsCrashWindow(r: Registry, serverNum: int, sink: Sink, h: Handle,
                                  p: seq<Option<int>>, q: seq<Option<int>>, capture: Capture)
    requires forall j :: 0 <= j < CRASH_POLLS ==> Poll(p, j) == Poll(q, j)
    ensures Start(r, serverNum, SinkOpened(sink, Spawned(h, p, capture))) ==
            Start(r, serverNum, SinkOpened(sink, Spawned(h, q, capture)))
  {
    CrashWindowOnlyReadsWindow(p, q);
  }

  /** Starting keeps the registry invariant. It leaves no new placeholder, except when
      creating the capture file raised: then the number is left locked with no file. */
  lemma StartPreservesInvariants(r: Registry, serverNum: int, launch: Launch)
    requires Consistent(r)
    ensures var st := Start(r, serverNum, launch);
      Consistent(st.after) &&
      (Settled(r) && !LeaksPlaceholder(st.result) ==> Settled(st.after)) &&
      (LeaksPlaceholder(st.result) ==> Leaked(st.after, serverNum) && !Settled(st.after))
  {
  }

  /** After a successful start, isUsingXvfb(n) and isUsingXvfb() hold, and starting the
      same number again raises ValueError and changes nothing. */
  lemma StartThenTracked(r: Registry, serverNum: int, launch: Launch, again: Launch)
    requires Start(r, serverNum, launch).result.Ok?
    ensures var after := Start(r, serverNum, launch).after;
      IsUsing(after, Some(serverNum)) && IsUsing(after, None) &&
      Start(after, serverNum, again) == Step(Err(AlreadyManaged(serverNum)), after)
  {
  }

  /** A leaked lock: after a start whose capture file could not be created, the number is
      in use, every further start of it raises ValueError and changes nothing, and
      stopXvfb clears it, sending no signal and restoring the registry of before. */
  lemma LeakedLockUntilStopped(r: Registry, serverNum: int, reason: string, again: Launch,
                               polls: seq<Option<int>>)
    requires Consistent(r) && serverNum !in r.pipes
    ensures var after := Start(r, serverNum, SinkRaises(reason)).after;
      Leaked(after, serverNum) && IsUsing(after, Some(serverNum)) &&
      Start(after, serverNum, again) == Step(Err(AlreadyManaged(serverNum)), after) &&
      StopSignals(after, serverNum, polls) == [] &&
      Stop(after, serverNum) == (true, r)
  {
    var after := Start(r, serverNum, SinkRaises(reason)).after;
    assert serverNum !in r.outputFiles;
    assert after.pipes - {serverNum} == r.pipes;
    assert after.outputFiles - {serverNum} == r.outputFiles;
  }

  /** startXvfbRange skips candidate c: it is tracked, or its start raises ValueError or
      KeyError. */
  predicate Skipped(r: Registry, c: int, launchFor: int -> Launch) {
    c in r.pipes ||
    (Start(r, c, launchFor(c)).result.Err? && Start(r, c, launchFor(c)).result.error.Kind() != OSError)
  }

  predicate AllSkipped(r: Registry, lo: int, hi: int, launchFor: int -> Launch) {
    forall c :: lo <= c < hi ==> Skipped(r, c, launchFor)
  }

  /** The scan of startXvfbRange from candidate i on; `first` and `last` are the bounds
      the caller gave, as reported in RangeExhausted. */
  function ScanFrom(r: Registry, first: int, last: int, i: int, launchFor: int -> Launch): Step<int>
    decreases last + 1 - i
  {
    if i > last then Step(Err(RangeExhausted(first, last)), r)
    else if i in r.pipes then ScanFrom(r, first, last, i + 1, launchFor)
    else
      var st := Start(r, i, launchFor(i));
      match st.result
        case Ok(_) => Step(Ok(i), st.after)
        case Err(e) =>
          if e.Kind() == OSError then Step(Err(e), st.after)
          else ScanFrom(st.after, first, last, i + 1, launchFor)
  }

  /** startXvfbRange(first, last): try first..last inclusive, ascending. */
  function StartRange(r: Registry, first: int, last: int, launchFor: int -> Launch): Step<int> {
    ScanFrom(r, first, last, first, launchFor)
  }

  /** Candidate k is the first start the scan from i reaches that succeeds. */
  predicate FirstSuccess(r: Registry, i: int, last: int, k: int, launchFor: int -> Launch) {
    i <= k <= last && k !in r.pipes && Start(r, k, launchFor(k)).result.Ok? && AllSkipped(r, i, k, launchFor)
  }

  /** Candidate k is the first start the scan from i reaches that raises OSError `e`. */
  predicate FirstHardFailure(r: Registry, i: int, last: int, k: int, e: Error, launchFor: int -> Launch) {
    i <= k <= last && k !in r.pipes && Start(r, k, launchFor(k)).result == Err(e) &&
    e.Kind() == OSError && AllSkipped(r, i, k, launchFor)
  }

  /** The scan returns k exactly when k is the first ascending success in [i, last], and
      then the registry is the one that start left. */
  lemma {:induction false} ScanReturnsFirstSuccess(r: Registry, first: int, last: int, i: int, k: int, launchFor: int -> Launch)
    ensures ScanFrom(r, first, last, i, launchFor).result == Ok(k) <==> FirstSuccess(r, i, last, k, launchFor)
    ensures ScanFrom(r, first, last, i, launchFor).result == Ok(k) ==>
      ScanFrom(r, first, last, i, launchFor).after == Start(r, k, launchFor(k)).after
    decreases last + 1 - i
  {
    if i <= last {
      StartSoftFailureLeavesRegistry(r, i, launchFor(i));
      ScanReturnsFirstSuccess(r, first, last, i + 1, k, launchFor);
      if FirstSuccess(r, i + 1, last, k, launchFor) && Skipped(r, i, launchFor) {
        assert AllSkipped(r, i, k, launchFor) by {
          forall c | i <= c < k ensures Skipped(r, c, launchFor) {
            if c > i { assert i + 1 <= c < k; }
          }
        }
      }
      if FirstSuccess(r, i, last, k, launchFor) && k > i {
        assert Skipped(r, i, launchFor);
        assert AllSkipped(r, i + 1, k, launchFor);
      }
    }
  }

  /** The scan raises RangeExhausted exactly when every candidate in [i, last] is skipped,
      in particular when the range is empty, and then leaves the registry as it was. */
  lemma {:induction false} ScanExhausted(r: Registry, first: int, last: int, i: int, launchFor: int -> Launch)
    ensures ScanFrom(r, first, last, i, launchFor).result == Err(RangeExhausted(first, last)) <==>
      AllSkipped(r, i, last + 1, launchFor)
    ensures ScanFrom(r, first, last, i, launchFor).result == Err(RangeExhausted(first, last)) ==>
      ScanFrom(r, first, last, i, launchFor).after == r
    decreases last + 1 - i
  {
    if i <= last {
      StartSoftFailureLeavesRegistry(r, i, launchFor(i));
      ScanExhausted(r, first, last, i + 1, launchFor);
      if AllSkipped(r, i + 1, last + 1, launchFor) && Skipped(r, i, launchFor) {
        assert AllSkipped(r, i, last + 1, launchFor) by {
          forall c | i <= c < last + 1 ensures Skipped(r, c, launchFor) {
            if c > i { assert i + 1 <= c < last + 1; }
          }
        }
      }
      if AllSkipped(r, i, last + 1, launchFor) {
        assert Skipped(r, i, launchFor);
      }
    }
  }

  /** Any other error the scan raises is the OSError of the first candidate whose start
      raised OSError, with the registry that start left; ValueError and KeyError from a
      start never escape. */
  lemma {:induction false} ScanPropagatesHardFailure(r: Registry, first: int, last: int, i: int, launchFor: int -> Launch)
    ensures var res := ScanFrom(r, first, last, i, launchFor).result;
      res.Err? && res.error != RangeExhausted(first, last) ==>
        res.error.Kind() == OSError &&
        exists k :: FirstHardFailure(r, i, last, k, res.error, launchFor) &&
          ScanFrom(r, first, last, i, launchFor).after == Start(r, k, launchFor(k)).after
    decreases last + 1 - i
  {
    if i <= last {
      StartSoftFailureLeavesRegistry(r, i, launchFor(i));
      ScanPropagatesHardFailure(r, first, last, i + 1, launchFor);
      var res := ScanFrom(r, first, last, i, launchFor).result;
      if res.Err? && res.error != RangeExhausted(first, last) {
        if Skipped(r, i, launchFor) {
          var k :| FirstHardFailure(r, i + 1, last, k, res.error, launchFor) &&
            ScanFrom(r, first, last, i + 1, launchFor).after == Start(r, k, launchFor(k)).after;
          assert AllSkipped(r, i, k, launchFor) by {
            forall c | i <= c < k ensures Skipped(r, c, launchFor) {
              if c > i { assert i + 1 <= c < k; }
            }
          }
          assert FirstHardFailure(r, i, last, k, res.error, launchFor);
        } else {
          assert FirstHardFailure(r, i, last, i, res.error, launchFor);
        }
      }
    }
  }

  /** Conversely, the first candidate whose start raises OSError stops the scan with that
      error and the registry that start left. */
  lemma {:induction false} ScanStopsAtHardFailure(r: Registry, first: int, last: int, i: int, k: int, e: Error, launchFor: int -> Launch)
    requires FirstHardFailure(r, i, last, k, e, launchFor)
    ensures ScanFrom(r, first, last, i, launchFor) == Step(Err(e), Start(r, k, launchFor(k)).after)
    decreases last + 1 - i
  {
    StartSoftFailureLeavesRegistry(r, i, launchFor(i));
    if i < k {
      assert Skipped(r, i, launchFor);
      ScanStopsAtHardFailure(r, first, last, i + 1, k, e, launchFor);
    }
  }

  /** The scan keeps the registry invariant, and leaves no new placeholder unless the
      error it raises is a failure to create a capture file. */
  lemma ScanPreservesInvariants(r: Registry, first: int, last: int, i: int, launchFor: int -> Launch)
    requires Consistent(r)
    ensures var st := ScanFrom(r, first, last, i, launchFor);
      Consistent(st.after) && (Settled(r) && !LeaksPlaceholder(st.result) ==> Settled(st.after))
  {
    var st := ScanFrom(r, first, last, i, launchFor);
    ScanExhausted(r, first, last, i, launchFor);
    ScanPropagatesHardFailure(r, first, last, i, launchFor);
    if st.result.Ok? {
      ScanReturnsFirstSuccess(r, first, last, i, st.result.value, launchFor);
      StartPreservesInvariants(r, st.result.value, launchFor(st.result.value));
    } else if st.result.error != RangeExhausted(first, last) {
      var k :| FirstHardFailure(r, i, last, k, st.result.error, launchFor) &&
        st.after == Start(r, k, launchFor(k)).after;
      StartPreservesInvariants(r, k, launchFor(k));
    }
  }

  /** stopXvfb(serverNum): True and both entries removed if tracked, else False and
      nothing changed. */
  function Stop(r: Registry, serverNum: int): (bool, Registry) {
    if serverNum !in r.pipes then (false, r)
    else (true, Registry(r.pipes - {serverNum}, r.outputFiles - {serverNum}))
  }

  /** The signals stopXvfb sends: the escalation for a running process, none otherwise. */
  function StopSignals(r: Registry, serverNum: int, polls: seq<Option<int>>): seq<Signal> {
    if serverNum in r.pipes && r.pipes[serverNum].Running? then Escalation(r.pipes[serverNum].handle, polls)
    else []
  }

  /** Stopping an untracked number is a no-op returning False; stopping a tracked one
      returns True, untracks it in both maps and leaves every other number as it was. */
  lemma StopSpec(r: Registry, serverNum: int)
    requires Consistent(r)
    ensures var (stopped, after) := Stop(r, serverNum);
      (stopped <==> serverNum in r.pipes) &&
      (!stopped ==> after == r) &&
      serverNum !in after.pipes && serverNum !in after.outputFiles &&
      after.pipes.Keys == r.pipes.Keys - {serverNum} &&
      after.outputFiles.Keys == r.outputFiles.Keys - {serverNum} &&
      (forall m :: m in after.pipes ==> after.pipes[m] == r.pipes[m]) &&
      (forall m :: m in after.outputFiles ==> after.outputFiles[m] == r.outputFiles[m])
  {
  }

  /** Stopping preserves both registry invariants. */
  lemma StopPreservesInvariants(r: Registry, serverNum: int)
    requires Consistent(r)
    ensures Consistent(Stop(r, serverNum).1)
    ensures Settled(r) ==> Settled(Stop(r, serverNum).1)
  {
  }

  /** Scenario: a healthy start of 77 returns True and tracks 77; a start of 77 whose
      process exits in the window printing MARKER raises KeyError and leaves 77 untracked. */
  lemma Scenario77(r: Registry, sink: Sink, h: Handle, code: int)
    requires 77 !in r.pipes
    ensures var st := Start(r, 77, SinkOpened(sink, Spawned(h, [], Captured(""))));
      st.result == Ok(true) && IsUsing(st.after, Some(77)) && IsUsing(st.after, None)
    ensures var st := Start(r, 77, SinkOpened(sink, Spawned(h, [None, Some(code)], Captured(MARKER + " :77.0"))));
      st.result.Err? && st.result.error.Kind() == KeyError && !IsUsing(st.after, Some(77))
  {
    assert Poll([None, Some(code)], 1) == Some(code);
    assert Poll([None, Some(code)], 0) == None;
    var out := MARKER + " :77.0";
    assert out[..|MARKER|] == MARKER;
  }
}
