/**
 * Many running seconds in a row: the session after `n` ticks of the running
 * timer (settings are fixed while it runs) and the number of completion
 * sounds started on the way. A session counts down second by second, rolls
 * over once it has shown zero, and focus and break alternate for ever.
 */
module PomodoroCycle {
  import opened PomodoroSession
  import opened PomodoroController

  /** The session after `n` running seconds, each one the step of the tick
      callback. */
  function Steps(focusDuration: int, breakDuration: int, s: Session, n: nat): Session {
    if n == 0 then s else StepSession(focusDuration, breakDuration, Steps(focusDuration, breakDuration, s, n - 1))
  }

  /** How many of those `n` seconds started the completion sound: those that
      began on a session with no time left. */
  function Alerts(focusDuration: int, breakDuration: int, s: Session, n: nat): nat {
    if n == 0 then 0
    else
      Alerts(focusDuration, breakDuration, s, n - 1) +
      (if Steps(focusDuration, breakDuration, s, n - 1).timeRemaining == 0 then 1 else 0)
  }

  /** Running `m` seconds and then `n` more is running `m + n` seconds, and
      the sounds add up. */
  lemma {:induction false} StepsAdd(focusDuration: int, breakDuration: int, s: Session, m: nat, n: nat)
    ensures Steps(focusDuration, breakDuration, s, m + n) ==
            Steps(focusDuration, breakDuration, Steps(focusDuration, breakDuration, s, m), n)
    ensures Alerts(focusDuration, breakDuration, s, m + n) ==
            Alerts(focusDuration, breakDuration, s, m) +
            Alerts(focusDuration, breakDuration, Steps(focusDuration, breakDuration, s, m), n)
  {
    if n > 0 {
      StepsAdd(focusDuration, breakDuration, s, m, n - 1);
    }
  }

  /** Until it reaches zero a session only counts down: same label, one
      second less per tick, no sound. */
  lemma {:induction false} CountDown(focusDuration: int, breakDuration: int, s: Session, n: nat)
    requires n <= s.timeRemaining
    ensures Steps(focusDuration, breakDuration, s, n) == Session(s.kind, s.timeRemaining - n)
    ensures Alerts(focusDuration, breakDuration, s, n) == 0
  {
    if n > 0 {
      CountDown(focusDuration, breakDuration, s, n - 1);
    }
  }

  /** A session with `t` seconds left shows zero after `t` ticks and rolls
      over on the next one, starting the sound exactly once: a focusing
      session becomes a break with one second already taken off, anything
      else becomes a focusing session the same way. */
  lemma RunsOut(focusDuration: int, breakDuration: int, s: Session)
    requires focusDuration > 0 && breakDuration > 0
    requires s.timeRemaining >= 0
    ensures Steps(focusDuration, breakDuration, s, s.timeRemaining + 1) ==
            Session(if s.kind == Focusing then OnBreak else Focusing,
                    MinutesFor(focusDuration, breakDuration, if s.kind == Focusing then OnBreak else Focusing) * SecondsPerMinute - 1)
    ensures Alerts(focusDuration, breakDuration, s, s.timeRemaining + 1) == 1
  {
    CountDown(focusDuration, breakDuration, s, s.timeRemaining);
  }

  /** The example of a default timer: a fresh 25-minute focusing session
      reaches zero after 1500 ticks, and tick 1501 starts the sound once and
      leaves a 5-minute break with 299 seconds to go. */
  lemma DefaultFocusRollsToBreak()
    ensures Steps(25, 5, Session(Focusing, 1500), 1500) == Session(Focusing, 0)
    ensures Steps(25, 5, Session(Focusing, 1500), 1501) == Session(OnBreak, 299)
    ensures Alerts(25, 5, Session(Focusing, 1500), 1501) == 1
  {
    CountDown(25, 5, Session(Focusing, 1500), 1500);
    RunsOut(25, 5, Session(Focusing, 1500));
  }

  /** Focus and break alternate for ever: from a focusing session that has
      just run out, one full break and one full focus period later
      (`(focus + break) * 60` ticks) the timer is back at the same point,
      having started the sound twice. */
  lemma FullCycle(focusDuration: int, breakDuration: int)
    requires focusDuration > 0 && breakDuration > 0
    ensures Steps(focusDuration, breakDuration, Session(Focusing, 0),
                  (focusDuration + breakDuration) * SecondsPerMinute) == Session(Focusing, 0)
    ensures Alerts(focusDuration, breakDuration, Session(Focusing, 0),
                   (focusDuration + breakDuration) * SecondsPerMinute) == 2
  {
    var f, b := focusDuration, breakDuration;
    var start := Session(Focusing, 0);
    // the rollover into the break, then the break down to zero
    RunsOut(f, b, start);
    var onBreak := Session(OnBreak, b * SecondsPerMinute - 1);
    CountDown(f, b, onBreak, b * SecondsPerMinute - 1);
    StepsAdd(f, b, start, 1, b * SecondsPerMinute - 1);
    var breakOver := Session(OnBreak, 0);
    assert Steps(f, b, start, b * SecondsPerMinute) == breakOver;
    // the rollover into focus, then focus down to zero
    RunsOut(f, b, breakOver);
    var focusing := Session(Focusing, f * SecondsPerMinute - 1);
    CountDown(f, b, focusing, f * SecondsPerMinute - 1);
    StepsAdd(f, b, breakOver, 1, f * SecondsPerMinute - 1);
    assert Steps(f, b, breakOver, f * SecondsPerMinute) == start;
    StepsAdd(f, b, start, b * SecondsPerMinute, f * SecondsPerMinute);
  }

  /** `n` firings of the running-gated callback on a running controller: the
      session is `Steps` of the one it started with, and the sound has been
      started `Alerts` times. The cycle lemmas above therefore describe the
      controller itself. */
  method RunTicks(p: Pomodoro, n: nat)
    requires p.Valid() && p.isTimerRunning
    modifies p
    ensures p.Valid() && p.isTimerRunning
    ensures p.Settings() == old(p.Settings())
    ensures p.session == Some(Steps(old(p.focusDuration), old(p.breakDuration), old(p.session).value, n))
    ensures p.alerts == old(p.alerts) + Alerts(old(p.focusDuration), old(p.breakDuration), old(p.session).value, n)
    ensures p.elapsed == old(p.elapsed) && p.breakLeft == old(p.breakLeft) + n
  {
    ghost var f, b, s0 := p.focusDuration, p.breakDuration, p.session.value;
    ghost var a0, e0, l0 := p.alerts, p.elapsed, p.breakLeft;
    var i := 0;
    while i < n
      invariant 0 <= i <= n
      invariant p.Valid() && p.isTimerRunning
      invariant p.Settings() == Durations(f, b)
      invariant p.session == Some(Steps(f, b, s0, i))
      invariant p.alerts == a0 + Alerts(f, b, s0, i)
      invariant p.elapsed == e0 && p.breakLeft == l0 + i
    {
      p.Tick();
      i := i + 1;
    }
  }
}
