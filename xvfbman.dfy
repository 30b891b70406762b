/** The xvfbman module's state and operations: the maps `xvfbPipes` and
    `xvfbOutputFiles`, the process environment's `DISPLAY`, and the functions that start
    and stop managed Xvfb sessions. Each method updates the maps in place as the source
    does and is proved to leave exactly the registry the SlotRegistry definitions give. */
module XvfbMan {
  import opened Wrappers
  import opened Process
  import opened SlotRegistry
  import opened Display

  /** Default screen configuration for Xvfb screen 0. */
  const DEFAULT_SCREEN_STR: string := "1280x720x24"

  /** Default server number range of ensureDisplayPresent. */
  const DEFAULT_START_NUM: int := 50
  const DEFAULT_LAST_NUM: int := 99

  class Manager {
    /** xvfbPipes: server number to placeholder or process handle. */
    var pipes: map<int, Slot>
    /** xvfbOutputFiles: server number to capture file. */
    var outputFiles: map<int, Sink>
    /** os.environ */
    var environ: map<string, string>
    /** The signals sent to supervised processes so far, oldest first. */
    ghost var signals: seq<Signal>

    function Current(): Registry
      reads this
    {
      Registry(pipes, outputFiles)
    }

    /** The invariant every operation keeps: a capture file only for a tracked number,
        and a tracked number without one holds the placeholder. */
    ghost predicate Valid()
      reads this
    {
      Consistent(Current())
    }

    /** `os.environ.get('DISPLAY', '')` */
    function DisplayVar(): string
      reads this
    {
      if "DISPLAY" in environ then environ["DISPLAY"] else ""
    }

    /** The module as imported: nothing managed yet. */
    constructor (environ: map<string, string>)
      ensures Valid() && Settled(Current())
      ensures pipes == map[] && outputFiles == map[] && this.environ == environ && signals == []
    {
      pipes := map[];
      outputFiles := map[];
      this.environ := environ;
      signals := [];
    }

    /** isUsingXvfb */
    function IsUsingXvfb(serverNum: Option<int>): (b: bool)
      reads this
      ensures serverNum.None? ==> (b <==> |pipes| > 0)
      ensures serverNum.Some? ==> (b <==> serverNum.value in pipes)
    {
      IsUsing(Current(), serverNum)
    }

    /** startXvfb: lock the number with a placeholder, create and register the capture
        file, spawn, watch the crash window, and either commit the handle or unwind both
        entries. A failure creating the capture file, which happens before the unwinding
        `try`, leaves the placeholder; a failing flush after an early exit leaves both
        entries. `screenStr` is part of the spawned command line, whose outcome `launch`
        gives. */
    method StartXvfb(serverNum: int, screenStr: string, launch: Launch) returns (r: Result<bool>)
      requires Valid()
      modifies this
      ensures Valid() && (old(Settled(Current())) && !LeaksPlaceholder(r) ==> Settled(Current()))
      ensures Step(r, Current()) == Start(old(Current()), serverNum, launch)
      ensures environ == old(environ) && signals == old(signals)
    {
      StartPreservesInvariants(Current(), serverNum, launch);
      if IsUsingXvfb(Some(serverNum)) {
        return Err(AlreadyManaged(serverNum));
      }
      // Lock this server number.
      pipes := pipes[serverNum := Placeholder];
      match launch {
        case SinkRaises(reason) =>
          // Raised outside the try: the lock stays.
          assert Start(old(Current()), serverNum, launch) == Step(Err(SinkFailed(serverNum, reason)), Current());
          return Err(SinkFailed(serverNum, reason));
        case SinkOpened(outputFile, spawn) =>
          outputFiles := outputFiles[serverNum := outputFile];
          match spawn {
            case SpawnRaises(reason) =>
              outputFiles := outputFiles - {serverNum};
              pipes := pipes - {serverNum};
              UpdateThenRemove(old(outputFiles), serverNum, outputFile);
              UpdateThenRemove(old(pipes), serverNum, Placeholder);
              assert Start(old(Current()), serverNum, launch) == Step(Err(SpawnFailed(serverNum, reason)), Current());
              return Err(SpawnFailed(serverNum, reason));
            case Spawned(pipe, polls, capture) =>
              pipes := pipes[serverNum := Running(pipe)];
              UpdateTwice(old(pipes), serverNum, Placeholder, Running(pipe));
              assert Start(old(Current()), serverNum, launch) == Watch(old(Current()), serverNum, outputFile, pipe, polls, capture);
              r := AwaitCrashWindow(serverNum, outputFile, pipe, polls, capture, old(Current()));
          }
      }
    }

    /** The rest of startXvfb once the process is spawned and both entries are set: poll
        it CRASH_POLLS times; on an early exit flush and read back the capture file, then
        unwind both entries and raise by the output. */
    method AwaitCrashWindow(serverNum: int, outputFile: Sink, pipe: Handle, polls: seq<Option<int>>,
                            capture: Capture, ghost before: Registry) returns (r: Result<bool>)
      requires serverNum !in before.pipes && serverNum !in before.outputFiles
      requires Current() == Commit(before, serverNum, pipe, outputFile)
      modifies this
      ensures r == Watch(before, serverNum, outputFile, pipe, polls, capture).result
      ensures Current() == Watch(before, serverNum, outputFile, pipe, polls, capture).after
      ensures environ == old(environ) && signals == old(signals)
    {
      for i := 0 to CRASH_POLLS
        invariant forall j :: 0 <= j < i ==> Poll(polls, j).None?
        invariant Current() == Commit(before, serverNum, pipe, outputFile)
      {
        var exitCode := Poll(polls, i);
        if exitCode.Some? {
          assert FirstExit(polls, CRASH_POLLS) == Some(i);
          match capture {
            case FlushRaises(reason) =>
              // The flush is not guarded: both entries stay.
              return Err(FlushFailed(serverNum, exitCode.value, reason));
            case Captured(output) =>
              outputFiles := outputFiles - {serverNum};
              // Unlock last.
              pipes := pipes - {serverNum};
              UpdateThenRemove(before.outputFiles, serverNum, outputFile);
              UpdateThenRemove(before.pipes, serverNum, Running(pipe));
              return Err(ClassifyExit(serverNum, exitCode.value, output));
          }
        }
      }
      return Ok(true);
    }

    /** startXvfbRange: try each number from startTryNum to lastTryNum inclusive, skipping
        tracked ones and continuing past ValueError and KeyError; OSError propagates. */
    method StartXvfbRange(startTryNum: int, lastTryNum: int, screenStr: string, launchFor: int -> Launch)
      returns (r: Result<int>)
      requires Valid()
      modifies this
      ensures Valid() && (old(Settled(Current())) && !LeaksPlaceholder(r) ==> Settled(Current()))
      ensures r == StartRange(old(Current()), startTryNum, lastTryNum, launchFor).result
      ensures Current() == StartRange(old(Current()), startTryNum, lastTryNum, launchFor).after
      ensures environ == old(environ) && signals == old(signals)
    {
      ScanPreservesInvariants(Current(), startTryNum, lastTryNum, startTryNum, launchFor);
      var tryServerNum := startTryNum;
      while tryServerNum <= lastTryNum
        invariant Valid() && Current() == old(Current())
        invariant environ == old(environ) && signals == old(signals)
        invariant StartRange(old(Current()), startTryNum, lastTryNum, launchFor) ==
                  ScanFrom(Current(), startTryNum, lastTryNum, tryServerNum, launchFor)
        decreases lastTryNum + 1 - tryServerNum
      {
        // Already managing this number: skip.
        if IsUsingXvfb(Some(tryServerNum)) {
          tryServerNum := tryServerNum + 1;
          continue;
        }
        var started := StartXvfb(tryServerNum, screenStr, launchFor(tryServerNum));
        match started {
          case Ok(_) =>
            return Ok(tryServerNum);
          case Err(e) =>
            StartSoftFailureLeavesRegistry(old(Current()), tryServerNum, launchFor(tryServerNum));
            if e.Kind() == OSError {
              return Err(e);
            }
        }
        tryServerNum := tryServerNum + 1;
      }
      return Err(RangeExhausted(startTryNum, lastTryNum));
    }

    /** stopXvfb: False if untracked; otherwise terminate with escalation (or clear a
        stray placeholder), then drop the capture file and the entry, and return True. */
    method StopXvfb(serverNum: int, polls: seq<Option<int>>) returns (stopped: bool)
      requires Valid()
      modifies this
      ensures Valid() && (old(Settled(Current())) ==> Settled(Current()))
      ensures (stopped, Current()) == Stop(old(Current()), serverNum)
      ensures signals == old(signals) + StopSignals(old(Current()), serverNum, polls)
      ensures environ == old(environ)
    {
      if !IsUsingXvfb(Some(serverNum)) {
        return false;
      }
      match pipes[serverNum] {
        case Placeholder =>
          // A start left its lock behind (its capture file could not be created): clean up
          // the capture file if there is one, and the placeholder.
          if serverNum in outputFiles {
            outputFiles := outputFiles - {serverNum};
          } else {
            RemoveAbsent(outputFiles, serverNum);
          }
          pipes := pipes - {serverNum};
          return true;
        case Running(pipe) =>
          signals := signals + [Terminate(pipe)];
          var isDone := false;
          ghost var exitedAt := TERMINATE_POLLS;
          for i := 0 to TERMINATE_POLLS
            invariant !isDone && exitedAt == TERMINATE_POLLS
            invariant forall j :: 0 <= j < i ==> Poll(polls, j).None?
          {
            if Poll(polls, i).Some? {
              isDone := true;
              exitedAt := i;
              break;
            }
          }
          assert isDone ==> FirstExit(polls, TERMINATE_POLLS) == Some(exitedAt);
          if !isDone {
            // Still alive: send the kill.
            signals := signals + [Kill(pipe)];
            if Poll(polls, TERMINATE_POLLS).Some? {
              signals := signals + [KillByPid(pipe)];
            }
          }
          // The source indexes the capture file here; a running entry always has one.
          assert serverNum in outputFiles;
          outputFiles := outputFiles - {serverNum};
          pipes := pipes - {serverNum};
          return true;
      }
    }

    /** stopAllManagedXvfbs: stop every number tracked when called; return how many. */
    method StopAllManagedXvfbs(pollsFor: int -> seq<Option<int>>) returns (count: nat)
      requires Valid()
      modifies this
      ensures Valid() && (old(Settled(Current())) ==> Settled(Current()))
      ensures count == |old(pipes)|
      ensures pipes == map[] && outputFiles == map[]
      ensures environ == old(environ) && old(signals) <= signals
    {
      // A snapshot, as the registry changes while we stop.
      var serverNums := pipes.Keys;
      var remaining := serverNums;
      while remaining != {}
        invariant remaining <= serverNums
        invariant Valid() && pipes.Keys == remaining
        invariant environ == old(environ) && old(signals) <= signals
        decreases |remaining|
      {
        EmptyOrHasMember(remaining);
        var serverNum :| serverNum in remaining;
        var stopped := StopXvfb(serverNum, pollsFor(serverNum));
        remaining := remaining - {serverNum};
      }
      count := |serverNums|;
    }

    /** ensureDisplayPresent: keep a non-empty DISPLAY; otherwise start an Xvfb in the
        range and point DISPLAY at it. Errors of the range start propagate. */
    method EnsureDisplayPresent(xvfbStartNum: int, xvfbLastNum: int, screenStr: string, launchFor: int -> Launch)
      returns (r: Result<bool>)
      requires Valid()
      modifies this
      ensures Valid() && (old(Settled(Current())) && !LeaksPlaceholder(r) ==> Settled(Current()))
      ensures signals == old(signals)
      ensures old(DisplayVar()) != "" ==>
        r == Ok(false) && Current() == old(Current()) && environ == old(environ)
      ensures old(DisplayVar()) == "" ==>
        var st := StartRange(old(Current()), xvfbStartNum, xvfbLastNum, launchFor);
        Current() == st.after &&
        if st.result.Ok? then r == Ok(true) && environ == old(environ)["DISPLAY" := DisplayStr(st.result.value)]
        else r == Err(st.result.error) && environ == old(environ)
      ensures r == Ok(true) ==>
        exists n :: ParseDisplay(DisplayVar()) == Some(n) && xvfbStartNum <= n <= xvfbLastNum && IsUsingXvfb(Some(n))
    {
      var curDisplay := DisplayVar();
      if curDisplay == "" {
        var started := StartXvfbRange(xvfbStartNum, xvfbLastNum, screenStr, launchFor);
        match started {
          case Ok(serverNum) =>
            environ := environ["DISPLAY" := DisplayStr(serverNum)];
            ScanReturnsFirstSuccess(old(Current()), xvfbStartNum, xvfbLastNum, xvfbStartNum, serverNum, launchFor);
            DisplayStrRoundTrip(serverNum);
            return Ok(true);
          case Err(e) =>
            return Err(e);
        }
      }
      return Ok(false);
    }
  }

  /** ensureDisplayPresent() with its default arguments: server numbers
      DEFAULT_START_NUM..DEFAULT_LAST_NUM and screen DEFAULT_SCREEN_STR. */
  method EnsureDefaultDisplayPresent(m: Manager, launchFor: int -> Launch) returns (r: Result<bool>)
    requires m.Valid()
    modifies m
    ensures m.Valid() && (old(Settled(m.Current())) && !LeaksPlaceholder(r) ==> Settled(m.Current()))
    ensures m.signals == old(m.signals)
    ensures old(m.DisplayVar()) != "" ==>
      r == Ok(false) && m.Current() == old(m.Current()) && m.environ == old(m.environ)
    ensures old(m.DisplayVar()) == "" ==>
      var st := StartRange(old(m.Current()), DEFAULT_START_NUM, DEFAULT_LAST_NUM, launchFor);
      m.Current() == st.after &&
      if st.result.Ok? then r == Ok(true) && m.environ == old(m.environ)["DISPLAY" := DisplayStr(st.result.value)]
      else r == Err(st.result.error) && m.environ == old(m.environ)
    ensures r == Ok(true) ==>
      exists n :: ParseDisplay(m.DisplayVar()) == Some(n) && DEFAULT_START_NUM <= n <= DEFAULT_LAST_NUM &&
        m.IsUsingXvfb(Some(n))
  {
    r := m.EnsureDisplayPresent(DEFAULT_START_NUM, DEFAULT_LAST_NUM, DEFAULT_SCREEN_STR, launchFor);
  }

  /** A set that is not empty has a member to pick. */
  lemma EmptyOrHasMember(s: set<int>)
    ensures s == {} || exists x :: x in s
  {
    if forall x :: x !in s {
      assert s == {};
    }
  }

  /** Stopping everything twice in a row: the second call finds nothing and returns 0. */
  method StopAllTwice(m: Manager, pollsFor: int -> seq<Option<int>>) returns (first: nat, second: nat)
    requires m.Valid()
    modifies m
    ensures first == |old(m.pipes)| && second == 0 && !m.IsUsingXvfb(None)
  {
    first := m.StopAllManagedXvfbs(pollsFor);
    second := m.StopAllManagedXvfbs(pollsFor);
  }
}
