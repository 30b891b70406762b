# xvfbman slot registry, modelled in Dafny

xvfbman starts and stops Xvfb virtual display servers for headless programs. It keeps
a process-wide registry of the server numbers it manages. The registry is two Python
dicts keyed by server number: `xvfbPipes` maps a number to the `None` placeholder that
locks it during a start, or to the `Popen` handle of the running Xvfb, and
`xvfbOutputFiles` maps it to the temporary file that captures the process's output.

This project models that registry and the operations on it:

- `isUsingXvfb`
- `getDisplayStrForServerNum`
- `startXvfb`: lock, spawn, crash-detection window, then commit or unwind
- `startXvfbRange`: ascending scan with error-dependent continue/abort
- `stopXvfb`: no-op on an untracked number, else termination escalation and removal
- `stopAllManagedXvfbs`
- `ensureDisplayPresent`

It proves what the registry promises its callers.

Layout:

- `wrappers.dfy` (module `Wrappers`): the `Option` type.
- `decimal.dfy` (module `Decimal`): Python's `str(int)`, and its inverse `ParseInt` on
  canonical decimal strings.
- `text.dfy` (module `Text`): Python's substring test `pattern in text`.
- `display.dfy` (module `Display`): the display identifier `":<n>.0"`, and its inverse.
- `process.dfy` (module `Process`): the supervised process seen through `poll()`.
  Covers the two bounded polling windows (6 polls after spawn, 12 after terminate) and
  the signals of the termination escalation.
- `registry.dfy` (module `SlotRegistry`): the registry as a value, the error kinds, and
  what each operation returns and leaves behind. This is the specification.
- `xvfbman.dfy` (module `XvfbMan`): class `Manager`, with the two maps and `os.environ`
  as fields. Its methods update the maps in place step by step, as the Python functions
  do: insert the placeholder, assign the handle, delete entries, run the bounded poll
  loops with `break` and the `isDone` flag, loop over a snapshot of the keys.
  `StartXvfb`, `AwaitCrashWindow`, `StartXvfbRange`, `StopXvfb` and
  `EnsureDisplayPresent` are proved to return and leave exactly what the `SlotRegistry`
  functions `Start`, `Watch`, `StartRange` and `Stop` specify. `StopAllManagedXvfbs` is
  specified directly: it returns the count and leaves both maps empty.
  `EnsureDefaultDisplayPresent` and `StopAllTwice` are stated through the methods they
  call.
  `startXvfb` is split in two: `StartXvfb` does the lock, the capture file and the spawn,
  and `AwaitCrashWindow` does the crash-detection loop that follows.

What the outside world does is an input:

- `startXvfb` gets a `Launch`. It says whether `NamedTemporaryFile` raises or opens a
  capture file, and then whether `Popen` raises or starts a process. A started process
  comes with the answers of its successive `poll()` calls (None while running, past the
  end of the script too). It also comes with what reading back the capture file after an
  early exit gives: `flush()` raises, or the output text.
- `stopXvfb` gets the poll answers of the process after terminate.
- `startXvfbRange` and `ensureDisplayPresent` get one `Launch` per server number.
- The signals sent are recorded in a ghost log, `Manager.signals`.

The Python exception classes are `SlotRegistry.ErrorKind`:

- `ValueError`: the number is already managed.
- `KeyError`: the display address is already in use, or the range is exhausted.
- `OSError`: creating the capture file raised, the spawn raised, or the process exited
  early and either flushing its capture file raised or its output lacks the marker.

`Error.Kind()` maps each raised error to its class. `startXvfbRange` decides to continue
or abort by that class, as the source's `except` clauses do.

Two failures of `startXvfb` leave entries behind, and the model keeps them as written:

- `NamedTemporaryFile` (xvfbman/__init__.py:118) runs after the placeholder is inserted
  (line 114) and before the `try` that unwinds a failed spawn (line 122). If it raises,
  the error propagates and the number stays locked with no capture file.
  `SlotRegistry.LeakedLockUntilStopped` proves the consequences. Every later start of
  that number raises ValueError, so `startXvfbRange` skips it. `stopXvfb`'s placeholder
  branch (lines 275-292) clears it without sending a signal and returns True.
- `flush()` after an early exit (line 150) is not guarded. If it raises, the error
  propagates with both entries still set, holding the exited process's handle.

Invariants:

- `Consistent` (`Manager.Valid()`): only a tracked number has a capture file, and a
  tracked number without one holds the placeholder. Every operation keeps it.
- `Settled`: no placeholder is left in the registry. The constructor establishes it.
  Every operation preserves it, except a start whose capture file could not be created.
  On a registry that is both, the two maps track the same numbers (`SettledKeysAgree`).

Behaviour of the code that the model follows as written:

- `startXvfb` returns `True` (xvfbman/__init__.py:173).
- Range exhaustion (line 227) and "address in use" (line 168) are both raised as
  `KeyError`.
- After `kill()`, the code sends SIGKILL by pid when `poll()` reports that the process
  HAS exited (line 323), not when it is still running. `Process.Escalation` keeps that
  test as written. No property is claimed about this fallback.

## Model

| member | source | states |
|---|---|---|
| `Decimal.NatToString` | xvfbman/__init__.py:76 | `str` of a non-negative number is a non-empty digit string with no leading zero |
| `Decimal.IntToString` | xvfbman/__init__.py:76 | `str(n)`: canonical digits for `n >= 0`; a minus sign followed by canonical digits for `n < 0` |
| `Decimal.IntToStringRoundTrip` | xvfbman/__init__.py:76 | parsing `str(n)` gives back `n`, for every int including negatives |
| `Decimal.ParseIntInverse` | xvfbman/__init__.py:76 | every string the parser accepts is exactly `str` of the number it yields, so `str` is a bijection onto canonical decimals |
| `Display.DisplayStr` | xvfbman/__init__.py:65-76 | `getDisplayStrForServerNum`: the string starts with `:` and ends with `.0`, with only digits between them for a non-negative number |
| `Display.DisplayStrRoundTrip` | xvfbman/__init__.py:65-76 | the display string of `n` has the form `":" + str(n) + ".0"`, and reading the number out of it gives `n` |
| `Display.ParseDisplayInverse` | xvfbman/__init__.py:65-76 | any string of the form `":<decimal>.0"` is the display string of the number it names |
| `Display.DisplayStrInjective` | xvfbman/__init__.py:65-76 | two server numbers with the same display string are equal |
| `Display.DisplayStrExample` | xvfbman/__init__.py:65-76 | the display string of 77 is `":77.0"` |
| `Text.Contains` | xvfbman/__init__.py:166 | the substring test of the marker: never true for a pattern longer than the text, always true for the empty pattern |
| `Text.ContainsIff` | xvfbman/__init__.py:166 | the marker test is true exactly when the marker occurs at some index of the captured output |
| `Process.FirstExit` | xvfbman/__init__.py:139-143 | the bounded poll loop stops at the first poll that reports an exit code; it reports none only if every poll in the window saw the process running |
| `Process.FirstExitOnlyReadsWindow` | xvfbman/__init__.py:139-143 | a window of `limit` polls reads no poll past its limit |
| `Process.CrashWindow` | xvfbman/__init__.py:139-143 | the crash window reports nothing exactly when all 3 × 2 = 6 polls saw the process running, and otherwise the exit code of the first poll that saw an exit |
| `Process.CrashWindowOnlyReadsWindow` | xvfbman/__init__.py:139-143 | the crash window consults at most 6 polls |
| `Process.Escalation` | xvfbman/__init__.py:296-327 | the signals stop sends a running process: terminate always first, at most three signals in all |
| `Process.EscalationKillsOnlyAfterFullWait` | xvfbman/__init__.py:305-320 | kill is sent exactly when all 3 × 4 = 12 polls after terminate saw the process alive |
| `Process.EscalationOnlyReadsWindow` | xvfbman/__init__.py:305-327 | the escalation consults at most 13 polls: 12 in the loop and 1 after kill |
| `SlotRegistry.SettledKeysAgree` | xvfbman/__init__.py:29-37 | on a consistent registry with no placeholder, both maps track exactly the same numbers |
| `SlotRegistry.IsUsing` | xvfbman/__init__.py:42-62 | with no argument: true iff the pipes map is non-empty; with `n`: true iff `n` is a key; a function, so it has no side effects |
| `SlotRegistry.ClassifyExit` | xvfbman/__init__.py:166-171 | the error of an early exit: KeyError exactly when the output contains the marker, else OSError, carrying the number and exit code |
| `SlotRegistry.Start` | xvfbman/__init__.py:79-173 | `startXvfb` on the registry value: what it returns or raises and the registry it leaves; its properties are the `Start*` lemmas below |
| `SlotRegistry.Watch` | xvfbman/__init__.py:138-173 | the crash-detection part of `startXvfb`, used by `Start`; its properties are the `Start*` lemmas below |
| `SlotRegistry.StartFailureEffect` | xvfbman/__init__.py:108-171 | a failed start leaves the placeholder alone when creating the capture file raised (line 118), leaves both entries when the flush raised (line 150), and otherwise leaves both maps as before |
| `SlotRegistry.StartSoftFailureLeavesRegistry` | xvfbman/__init__.py:108-171 | a start raising ValueError or KeyError leaves both maps as before |
| `SlotRegistry.StartErrorKinds` | xvfbman/__init__.py:108-171 | ValueError iff the number is tracked; KeyError iff the process exits in the window and the read-back output contains the marker; OSError iff the capture file or the spawn raises, or the process exits and the flush raises or the output lacks the marker |
| `SlotRegistry.StartSuccess` | xvfbman/__init__.py:113-173 | a start succeeds iff the number is free, the capture file and the process are created and all 6 polls see the process running; it returns True, maps the number to the live handle and the new capture file, and leaves all other keys unchanged |
| `SlotRegistry.StartOnlyReadsCrashWindow` | xvfbman/__init__.py:139-143 | the outcome of a start depends on no poll after the sixth |
| `SlotRegistry.StartPreservesInvariants` | xvfbman/__init__.py:113-173 | a start keeps `Consistent`; it adds no placeholder except when creating the capture file raised, and then leaves exactly that lock behind |
| `SlotRegistry.StartThenTracked` | xvfbman/__init__.py:108-111 | after a successful start, `isUsingXvfb(n)` and `isUsingXvfb()` hold, and a second start of `n` raises ValueError and changes nothing |
| `SlotRegistry.LeakedLockUntilStopped` | xvfbman/__init__.py:108-118 | after a start whose capture file could not be created, `n` is in use, every further start of it raises ValueError and changes nothing, and stopping it sends no signal, returns True and restores the registry of before |
| `SlotRegistry.Scenario77` | xvfbman/__init__.py:139-173 | a healthy start of 77 returns True and tracks 77; an early exit printing the marker raises KeyError and leaves 77 untracked |
| `SlotRegistry.ScanFrom` | xvfbman/__init__.py:204-227 | the ascending scan of `startXvfbRange` from one candidate on; its properties are the `Scan*` lemmas below |
| `SlotRegistry.StartRange` | xvfbman/__init__.py:176-227 | `startXvfbRange`: the scan from its first number; its properties are the `Scan*` lemmas below |
| `SlotRegistry.ScanReturnsFirstSuccess` | xvfbman/__init__.py:204-224 | the range start returns `k` iff `k` is in `[start, last]`, free, starts successfully, and every smaller candidate from `start` was tracked or raised ValueError/KeyError; the registry is then what that start left |
| `SlotRegistry.ScanExhausted` | xvfbman/__init__.py:204-227 | the range start raises the range-exhausted KeyError iff every candidate in `[start, last]` is skipped, so always on an empty range, and then leaves both maps as before |
| `SlotRegistry.ScanPropagatesHardFailure` | xvfbman/__init__.py:210-220 | any other error from the range start is the OSError of the first candidate whose start raised OSError, with the registry that start left; ValueError and KeyError never escape |
| `SlotRegistry.ScanStopsAtHardFailure` | xvfbman/__init__.py:218-220 | the first candidate whose start raises OSError ends the scan with that error and the registry that start left |
| `SlotRegistry.ScanPreservesInvariants` | xvfbman/__init__.py:204-227 | the range start keeps `Consistent`, and adds no placeholder unless it raises a failure to create a capture file |
| `SlotRegistry.Stop` | xvfbman/__init__.py:244-343 | `stopXvfb` on the registry value: the result and the registry left; its properties are `StopSpec` and `StopPreservesInvariants` |
| `SlotRegistry.StopSignals` | xvfbman/__init__.py:255-327 | the signals `stopXvfb` sends: the escalation for a running process, none for a placeholder or an untracked number |
| `SlotRegistry.StopSpec` | xvfbman/__init__.py:244-343 | stop returns True iff the number was tracked; untracked changes nothing; tracked removes the number from both maps and leaves all other entries unchanged |
| `SlotRegistry.StopPreservesInvariants` | xvfbman/__init__.py:275-343 | stop keeps `Consistent` and adds no placeholder |
| `XvfbMan.Manager.constructor` | xvfbman/__init__.py:29-37 | the registry starts with both maps empty |
| `XvfbMan.Manager.IsUsingXvfb` | xvfbman/__init__.py:42-62 | `isUsingXvfb` on the manager's maps: with no argument true iff anything is tracked, with `n` true iff `n` is tracked |
| `XvfbMan.Manager.StartXvfb` | xvfbman/__init__.py:79-173 | the in-place start (lock, open and register the capture file, spawn, crash window, unwind or commit) returns and leaves exactly what `SlotRegistry.Start` specifies; it keeps `Consistent` and leaves the environment alone |
| `XvfbMan.Manager.AwaitCrashWindow` | xvfbman/__init__.py:138-173 | the 6-poll loop of `startXvfb` and its unwinding on an early exit return and leave exactly what `SlotRegistry.Watch` specifies |
| `XvfbMan.Manager.StartXvfbRange` | xvfbman/__init__.py:176-227 | the ascending loop with skip/continue/raise returns and leaves exactly what `SlotRegistry.StartRange` specifies |
| `XvfbMan.Manager.StopXvfb` | xvfbman/__init__.py:231-343 | the in-place stop returns and leaves exactly what `SlotRegistry.Stop` specifies; a running process gets exactly the escalation signals for its poll answers |
| `XvfbMan.Manager.StopAllManagedXvfbs` | xvfbman/__init__.py:346-361 | returns the number of keys tracked before the call and leaves both maps empty |
| `XvfbMan.StopAllTwice` | xvfbman/__init__.py:346-361 | two consecutive stop-alls: the second returns 0, and nothing is in use afterwards |
| `XvfbMan.Manager.EnsureDisplayPresent` | xvfbman/__init__.py:364-400 | a non-empty DISPLAY gives False with registry and environment unchanged; otherwise DISPLAY is set to the display string of the range start's number and True is returned, whose DISPLAY names a tracked number in the range; a range-start error propagates with DISPLAY unchanged |
| `XvfbMan.EnsureDefaultDisplayPresent` | xvfbman/__init__.py:364 | `ensureDisplayPresent()` with its default arguments 50, 99 and `DEFAULT_SCREEN_STR` (line 40): a non-empty DISPLAY gives False with registry and environment unchanged; otherwise DISPLAY is set to the display string of the number the range start over 50..99 returns and True is returned, or that range start's error propagates with DISPLAY unchanged; no signal is sent |

## Left out

- Process and file I/O (`subprocess.Popen`, `NamedTemporaryFile`, flushing and reading back the capture file, closing it): whether each raises, and what it yields, is part of the `Launch` input. Closing a capture file is modelled only as its removal from `xvfbOutputFiles`; `close()` raising is swallowed by the source at every call but the one at line 337, whose failure is not modelled.
- The Xvfb command line (`/usr/bin/Xvfb :<n> -screen 0 <screenStr>`): `screenStr` is passed through, but its effect is part of the `Launch` input.
- Timing: the `time.sleep` calls and wall-clock bounds. Only the poll counts are modelled (6 in the crash window, 12 after terminate, 1 after kill).
- Signal delivery: `terminate()`, its `os.kill(SIGTERM)` fallback, `kill()`, `os.kill(SIGKILL)` and `wait()`, each with its swallowed exceptions. These are foreign OS calls; the model records only which signals are sent, in a ghost log.
- The 8-step wait for a placeholder to resolve in `stopXvfb` (xvfbman/__init__.py:260-273): it only matters when another thread runs. With one thread nothing can change the map during the wait, so the model goes straight to the cleanup it ends in.
- The `.get(serverNum, 'x')` miss branches of `stopXvfb` (xvfbman/__init__.py:251-253, 268-269): right after `isUsingXvfb` they cannot be taken with one thread.
- Concurrent callers: the model is sequential.
- Poll scripts: any script is allowed, including ones a real process could not produce (an exit followed by "running").
- A stray capture file for an untracked number: the source's unwinding `del xvfbOutputFiles[serverNum]` (lines 126, 157) would remove it, while `SlotRegistry.Start` returns the registry it was given. `Consistent` rules such a registry out, and every operation keeps `Consistent`, so no reachable state tells the two apart.
- Default arguments: `startXvfb` and `startXvfbRange` take `screenStr` explicitly; `DEFAULT_SCREEN_STR` is what `EnsureDefaultDisplayPresent` passes.
- `int(serverNum)` conversion of non-int arguments: server numbers are ints.
- An unset `DISPLAY` and an empty one are treated alike, as the source's `os.environ.get('DISPLAY', '')` does.
- Exception message texts: errors carry the server number, exit code, output or range bounds, not the formatted strings.
- `registerAtExitCleanup`: a thin `atexit` registration of `stopAllManagedXvfbs`.
- `setup.py`: packaging only.
- XvfbMan.Manager.StopAllManagedXvfbs: its signal log is only stated to extend the old one. The snapshot order is not modelled (Python's insertion order; here an arbitrary order over the key set), so the order of the per-server escalations is left open.
