# Pomodoro timer session controller in Dafny

A model of the session controller of a single-page Pomodoro timer
(`src/pomodoro/Pomodoro.js`): focus and break intervals that alternate, with
adjustable durations, play/pause and stop buttons, and a per-second tick that
counts the current session down, rolls it over with a sound when it has run
out, and updates a progress percentage.

- `session.dfy`, module `PomodoroSession`: the pure transition functions
  `nextTick` and `nextSession` of the source, the composed effect of one
  running second on a session, and the progress percentage. A session record
  is `Session(kind, timeRemaining)`; `kind` is the source's `label` field
  (`label` is a reserved word in Dafny) and is one of `Focusing`, `OnBreak`
  or `NoLabel`. `nextSession(f, b)` is curried in the source and takes all
  three arguments at once here.
- `controller.dfy`, module `PomodoroController`: the component's state as the
  class `Pomodoro`, one field per `useState` plus `alerts`, a counter of the
  completion sounds started. Each button handler and each firing of the two
  `useInterval` callbacks is a method. The class invariant `Valid()` says
  that the settings stay in range, that a running timer always has a
  session, and that a focusing session never holds more time than the focus
  duration. Every method keeps it. The duration rules are also stated on
  values (`Adjust`, `AdjustAll`), so that any sequence of button presses can
  be reasoned about.
- `cycle.dfy`, module `PomodoroCycle`: many running seconds in a row
  (`Steps`, `Alerts`). A session counts down, rolls over exactly once with
  one sound, and focus and break alternate with period `(focus + break) * 60`
  ticks. `RunTicks` calls the controller's `Tick` `n` times and ties the
  result to `Steps` and `Alerts`, so these lemmas describe the controller.

React's queued state updates are read sequentially. Inside one callback the
queued `setSession` updates compose in order. Every read of `session`,
`focusDuration`, `breakDuration`, `elapsed` and `breakLeft` sees the value
from before the callback ran. So one tick sets the session to
`nextTick(t == 0 ? nextSession(f, b)(s) : s)`, and it computes `aria` from
the session `s` as it was before the tick.

Behaviour kept as the code has it, even where it is surprising:

- A reader might expect every session to be a focus or a break. It is not
  always. The focus buttons write `{ ...session, timeRemaining }`, and with
  no session this creates one that has a time but no label (`NoLabel`). Play
  keeps that session. The progress computation treats it as a break, because
  any label other than "Focusing" uses the break duration. Its time is 30
  minutes while the break is 5, so the progress shown is negative.
  `LabelLessSessionProgress` walks through this: "+" focus, play, one tick,
  progress -500. When this session runs out, it rolls over to a focusing
  session.
- A reader might expect progress to restart at 0 on the rollover tick. It
  does not. Progress comes from the snapshot before the tick, not from the
  session the tick leaves behind, so a rollover tick shows 100 (`Progress`
  with no time left).
- A reader might expect the elapsed counter to stop during a pause. It does
  not, because it is not gated by the running flag. It goes on counting
  while the timer is paused, as long as the session has time left
  (`AccumulateElapsed`).
- A reader might expect progress always to lie in [0, 100]. That holds only
  for focusing sessions, which always fit their configured length. A break
  session can hold more time than the break duration, in two ways, both while
  the timer is paused:
  - During a pause, a focus button resets a break session to the new focus
    duration but keeps the "On Break" label (Pomodoro.js lines 75 and 86).
    For example, OnBreak/100 paused at 25/5 becomes OnBreak/1800 after "+",
    and the next tick shows 100*(300-1800)/300 = -500.
  - A break button changes the break duration but leaves the break session's
    time as it was.

  That is why `Tick` bounds the progress to [0, 100] only for a focusing
  snapshot. The general fact is `Progress`'s if-and-only-if: the progress is
  in [0, 100] exactly when the time left fits the duration used for its label.

## Model

| member | source | states |
|---|---|---|
| `PomodoroSession.NextTick` | src/pomodoro/Pomodoro.js:19-25 | the label is kept; the time goes down by one second, is never negative, and stays 0 at 0 |
| `PomodoroSession.NextSession` | src/pomodoro/Pomodoro.js:36-51 | a focusing session is followed by a break and anything else by a focusing session; the new session holds the full configured length of its own label, in seconds |
| `PomodoroSession.NextSessionIgnoresTime` | src/pomodoro/Pomodoro.js:40-51 | the next session depends only on the label, never on the time that was left |
| `PomodoroSession.NextSessionTwice` | src/pomodoro/Pomodoro.js:40-51 | two rollovers from a focusing (break) session give a full focusing (break) session |
| `PomodoroSession.StepSession` | src/pomodoro/Pomodoro.js:113-117 | one running second: with time left, same label and one second less; at 0 a focusing session becomes a break of b*60-1 seconds and anything else a focusing session of f*60-1; stays within the focus-duration fit |
| `PomodoroSession.Progress` | src/pomodoro/Pomodoro.js:118-123 | the progress is 100 when the snapshot has no time left, and lies in [0, 100] if and only if the time left is between 0 and the configured length of the label's duration |
| `PomodoroSession.ProgressAdvances` | src/pomodoro/Pomodoro.js:117-123 | while time is left, each second raises the progress by exactly one second's share of the configured length |
| `PomodoroController.Adjust` | src/pomodoro/Pomodoro.js:71-98 | a duration button keeps valid settings valid; from valid settings it applies the requested 5-minute or 1-minute step when that stays in [5,60] or [1,15], and is a no-op otherwise |
| `PomodoroController.AdjustAllKeepsBounds` | src/pomodoro/Pomodoro.js:71-98 | any sequence of duration button presses keeps focus in [5,60] in steps of 5 and break in [1,15] |
| `PomodoroController.InitialAdjustmentsKeepBounds` | src/pomodoro/Pomodoro.js:59-98 | the same from the initial 25 and 5 minutes |
| `PomodoroController.Resynced` | src/pomodoro/Pomodoro.js:75 | the spread record has the new time, keeps the session's label, and has no label when there was no session |
| `PomodoroController.Pomodoro.constructor` | src/pomodoro/Pomodoro.js:55-63 | not running, no session, 25/5 minutes, elapsed, progress and counters at 0 |
| `PomodoroController.Pomodoro.IncreaseFocusTime` | src/pomodoro/Pomodoro.js:71-79 | settings become `Adjust(old, IncreaseFocus)`; when it takes effect the session becomes non-null with time focus*60 and its old label (none if absent); otherwise nothing changes |
| `PomodoroController.Pomodoro.DecreaseFocusTime` | src/pomodoro/Pomodoro.js:81-90 | the same for the "-" button |
| `PomodoroController.Pomodoro.IncreaseBreakTime` | src/pomodoro/Pomodoro.js:92-94 | settings become `Adjust(old, IncreaseBreak)`; the session and all else are untouched |
| `PomodoroController.Pomodoro.DecreaseBreakTime` | src/pomodoro/Pomodoro.js:96-98 | settings become `Adjust(old, DecreaseBreak)`; the session and all else are untouched |
| `PomodoroController.Pomodoro.StopButtonHandler` | src/pomodoro/Pomodoro.js:100-104 | no session, not running, elapsed 0; settings, progress and counters kept; stop sets those three fields to fixed values and keeps the rest, so a second stop changes nothing |
| `PomodoroController.Pomodoro.PlayPause` | src/pomodoro/Pomodoro.js:138-156 | the running flag flips; starting with no session creates Focusing/focus*60, starting with a session keeps it, pausing changes nothing else; keeps "running implies a session" |
| `PomodoroController.Pomodoro.Tick` | src/pomodoro/Pomodoro.js:111-126 | only while running; the session becomes `StepSession` of the snapshot, the sound is started once exactly when the snapshot had 0 left, progress is `Progress` of the snapshot (in [0, 100] for a focusing snapshot), breakLeft goes up by one, settings kept |
| `PomodoroController.Pomodoro.AccumulateElapsed` | src/pomodoro/Pomodoro.js:129-133 | elapsed goes up by exactly 1 when a session exists with time other than 0, running or not, and is unchanged otherwise; nothing else changes |
| `PomodoroController.FreshStart` | src/pomodoro/Pomodoro.js:138-156 | from a fresh controller, one press of play gives a running timer with Focusing/1500 |
| `PomodoroController.LabelLessSessionProgress` | src/pomodoro/Pomodoro.js:71-126 | "+" focus, play, one tick from fresh leaves a label-less session of 1799 s and a progress of -500 |
| `PomodoroCycle.StepsAdd` | src/pomodoro/Pomodoro.js:111-126 | running m then n seconds is running m+n seconds, and the sounds add up |
| `PomodoroCycle.CountDown` | src/pomodoro/Pomodoro.js:113-117 | up to its time left, a session only counts down, with its label kept and no sound |
| `PomodoroCycle.RunsOut` | src/pomodoro/Pomodoro.js:111-117 | a session with t seconds left rolls over on tick t+1 into the other kind with length*60-1 seconds, with exactly one sound |
| `PomodoroCycle.DefaultFocusRollsToBreak` | src/pomodoro/Pomodoro.js:111-117 | at 25/5, Focusing/1500 shows 0 after 1500 ticks, and tick 1501 leaves OnBreak/299 with one sound |
| `PomodoroCycle.FullCycle` | src/pomodoro/Pomodoro.js:111-117 | from a focusing session that has just run out, (focus+break)*60 ticks return to the same point with two sounds |
| `PomodoroCycle.RunTicks` | src/pomodoro/Pomodoro.js:111-126 | n firings of the running tick on a running controller leave the session at `Steps` of the starting one and add `Alerts` sounds; settings and elapsed kept, breakLeft up by n |

## Left out

- `src/pomodoro/FocusTime.js` and `src/pomodoro/BreakTime.js` are presentation only. Their buttons are disabled while the timer runs. The model does not need that as a precondition: the adjuster methods keep every invariant even while running. `PomodoroCycle` iterates ticks under fixed settings, which is what the disabled buttons ensure.
- `minutesToDuration` (the `MM:SS` formatter) is not part of this model; it only formats.
- The audio cue `new Audio(...).play()` is a foreign side effect. It is modelled as the `alerts` counter. A failure to play cannot change the state.
- `useInterval` scheduling, the 1000 ms cadence and cancellation are timer plumbing. Each firing is one explicit method call. The running gate becomes `Tick`'s `requires isTimerRunning`.
- Interleaving of the two interval callbacks is not modelled. They are two separate sequential methods, which a caller may call in either order.
- Rendering and the `Timer` and `Subtitle` components are UI and are not part of this model.
- The progress is a floating-point division in the source. Here it is an exact `real` division; IEEE rounding is not modelled.
- Label strings are an enumeration. Only the comparisons the code makes with "Focusing" are modelled.
