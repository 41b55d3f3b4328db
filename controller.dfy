/**
 * The session controller of the Pomodoro timer: the component state, the
 * command handlers behind the duration, play/pause and stop buttons, and the
 * two once-a-second callbacks. Each callback firing and each button press is
 * one method call; the audio cue played when a session runs out is counted
 * in `alerts`.
 */
module PomodoroController {
  import opened PomodoroSession

  datatype Option<T> = None | Some(value: T)

  const InitialFocus := 25
  const InitialBreak := 5
  const MinFocus := 5
  const MaxFocus := 60
  const FocusStep := 5
  const MinBreak := 1
  const MaxBreak := 15
  const BreakStep := 1

  /** The two configured durations, in minutes. */
  datatype Durations = Durations(focusMinutes: int, breakMinutes: int)

  /** The range the duration buttons keep the settings in. */
  predicate ValidDurations(d: Durations) {
    MinFocus <= d.focusMinutes <= MaxFocus && d.focusMinutes % FocusStep == 0 &&
    MinBreak <= d.breakMinutes <= MaxBreak
  }

  /** The four duration buttons. */
  datatype Adjustment = IncreaseFocus | DecreaseFocus | IncreaseBreak | DecreaseBreak

  /** Where a button asks the settings to go, bounds or no bounds. */
  function Requested(d: Durations, a: Adjustment): Durations {
    match a
    case IncreaseFocus => d.(focusMinutes := d.focusMinutes + FocusStep)
    case DecreaseFocus => d.(focusMinutes := d.focusMinutes - FocusStep)
    case IncreaseBreak => d.(breakMinutes := d.breakMinutes + BreakStep)
    case DecreaseBreak => d.(breakMinutes := d.breakMinutes - BreakStep)
  }

  /** What a duration button does to the settings: each handler first tests
      the bound it would cross and does nothing when it would cross it. From
      valid settings this is the requested step when that stays in range and
      no change at all otherwise. */
  function Adjust(d: Durations, a: Adjustment): (r: Durations)
    ensures ValidDurations(d) ==> ValidDurations(r)
    ensures ValidDurations(d) ==>
              r == if ValidDurations(Requested(d, a)) then Requested(d, a) else d
  {
    match a
    case IncreaseFocus => if d.focusMinutes < MaxFocus then Requested(d, a) else d
    case DecreaseFocus => if d.focusMinutes > MinFocus then Requested(d, a) else d
    case IncreaseBreak => if d.breakMinutes < MaxBreak then Requested(d, a) else d
    case DecreaseBreak => if d.breakMinutes > MinBreak then Requested(d, a) else d
  }

  /** A sequence of button presses, applied in order. */
  function AdjustAll(d: Durations, presses: seq<Adjustment>): Durations
    decreases |presses|
  {
    if presses == [] then d else AdjustAll(Adjust(d, presses[0]), presses[1..])
  }

  /** However the duration buttons are pressed, and however often, settings
      that start in range stay in range. */
  lemma {:induction false} AdjustAllKeepsBounds(d: Durations, presses: seq<Adjustment>)
    requires ValidDurations(d)
    ensures ValidDurations(AdjustAll(d, presses))
    decreases |presses|
  {
    if presses != [] {
      AdjustAllKeepsBounds(Adjust(d, presses[0]), presses[1..]);
    }
  }

  /** In particular from the initial 25 and 5 minutes. */
  lemma InitialAdjustmentsKeepBounds(presses: seq<Adjustment>)
    ensures ValidDurations(AdjustAll(Durations(InitialFocus, InitialBreak), presses))
  {
    AdjustAllKeepsBounds(Durations(InitialFocus, InitialBreak), presses);
  }

  /** The record `{ ...session, timeRemaining: seconds }`: the label of the
      session is kept when there is one, and an absent session spreads to a
      record with no label. */
  function Resynced(session: Option<Session>, seconds: int): (r: Session)
    ensures r.timeRemaining == seconds
    ensures session.Some? ==> r.kind == session.value.kind
    ensures session.None? ==> r.kind == NoLabel
  {
    match session
    case Some(s) => s.(timeRemaining := seconds)
    case None => Session(NoLabel, seconds)
  }

  class Pomodoro {
    var isTimerRunning: bool
    var session: Option<Session>
    var focusDuration: int
    var breakDuration: int
    var elapsed: nat
    var aria: real
    var breakLeft: nat
    /** How many times the completion sound has been started. */
    var alerts: nat

    function Settings(): Durations
      reads this
    {
      Durations(focusDuration, breakDuration)
    }

    /** The controller invariant: settings in range, a running timer always
        has a session, and that session fits the focus duration. */
    ghost predicate Valid()
      reads this
    {
      ValidDurations(Settings()) &&
      (isTimerRunning ==> session.Some?) &&
      (session.Some? ==> Fits(focusDuration, session.value))
    }

    /** The timer starts paused, with no session and 25/5 minutes. */
    constructor ()
      ensures Valid()
      ensures !isTimerRunning && session == None
      ensures Settings() == Durations(InitialFocus, InitialBreak)
      ensures elapsed == 0 && aria == 0.0 && breakLeft == 0 && alerts == 0
    {
      isTimerRunning := false;
      session := None;
      focusDuration := InitialFocus;
      breakDuration := InitialBreak;
      elapsed := 0;
      aria := 0.0;
      breakLeft := 0;
      alerts := 0;
    }

    /** The "+" focus button. When it takes effect the session is reset to
        the new focus duration, keeping its label, and is created (without a
        label) when there was none. */
    method IncreaseFocusTime()
      requires Valid()
      modifies this
      ensures Valid()
      ensures Settings() == Adjust(old(Settings()), IncreaseFocus)
      ensures focusDuration != old(focusDuration) ==>
                session == Some(Resynced(old(session), focusDuration * SecondsPerMinute))
      ensures focusDuration == old(focusDuration) ==> session == old(session)
      ensures isTimerRunning == old(isTimerRunning) && elapsed == old(elapsed)
      ensures aria == old(aria) && breakLeft == old(breakLeft) && alerts == old(alerts)
    {
      if focusDuration < MaxFocus {
        var duration := focusDuration + FocusStep;
        session := Some(Resynced(session, duration * SecondsPerMinute));
        focusDuration := duration;
      }
    }

    /** The "-" focus button, with the same effect on the session. */
    method DecreaseFocusTime()
      requires Valid()
      modifies this
      ensures Valid()
      ensures Settings() == Adjust(old(Settings()), DecreaseFocus)
      ensures focusDuration != old(focusDuration) ==>
                session == Some(Resynced(old(session), focusDuration * SecondsPerMinute))
      ensures focusDuration == old(focusDuration) ==> session == old(session)
      ensures isTimerRunning == old(isTimerRunning) && elapsed == old(elapsed)
      ensures aria == old(aria) && breakLeft == old(breakLeft) && alerts == old(alerts)
    {
      if focusDuration > MinFocus {
        var duration := focusDuration - FocusStep;
        session := Some(Resynced(session, duration * SecondsPerMinute));
        focusDuration := duration;
      }
    }

    /** The "+" break button; it never touches the session. */
    method IncreaseBreakTime()
      requires Valid()
      modifies this
      ensures Valid()
      ensures Settings() == Adjust(old(Settings()), IncreaseBreak)
      ensures session == old(session) && isTimerRunning == old(isTimerRunning)
      ensures elapsed == old(elapsed) && aria == old(aria)
      ensures breakLeft == old(breakLeft) && alerts == old(alerts)
    {
      if breakDuration < MaxBreak {
        breakDuration := breakDuration + BreakStep;
      }
    }

    /** The "-" break button; it never touches the session. */
    method DecreaseBreakTime()
      requires Valid()
      modifies this
      ensures Valid()
      ensures Settings() == Adjust(old(Settings()), DecreaseBreak)
      ensures session == old(session) && isTimerRunning == old(isTimerRunning)
      ensures elapsed == old(elapsed) && aria == old(aria)
      ensures breakLeft == old(breakLeft) && alerts == old(alerts)
    {
      if breakDuration > MinBreak {
        breakDuration := breakDuration - BreakStep;
      }
    }

    /** The stop button: no session, not running, nothing elapsed; the
        settings and everything else are kept. Stop sets those three fields
        to fixed values and keeps the rest, so a second stop changes nothing. */
    method StopButtonHandler()
      requires Valid()
      modifies this
      ensures Valid()
      ensures session == None && !isTimerRunning && elapsed == 0
      ensures Settings() == old(Settings()) && aria == old(aria)
      ensures breakLeft == old(breakLeft) && alerts == old(alerts)
    {
      session := None;
      isTimerRunning := false;
      elapsed := 0;
    }

    /** The play/pause button. Starting with no session opens a full focusing
        session; starting with a session (resuming) keeps it exactly as it
        was; pausing changes nothing but the running flag. */
    method PlayPause()
      requires Valid()
      modifies this
      ensures Valid()
      ensures isTimerRunning == !old(isTimerRunning)
      ensures isTimerRunning && old(session) == None ==>
                session == Some(Session(Focusing, focusDuration * SecondsPerMinute))
      ensures old(session) != None || !isTimerRunning ==> session == old(session)
      ensures Settings() == old(Settings()) && elapsed == old(elapsed) && aria == old(aria)
      ensures breakLeft == old(breakLeft) && alerts == old(alerts)
    {
      var nextState := !isTimerRunning;
      if nextState {
        if session == None {
          session := Some(Session(Focusing, focusDuration * SecondsPerMinute));
        }
      }
      isTimerRunning := nextState;
    }

    /** One firing of the running-gated per-second callback (it only fires
        while the timer runs). The session is rolled over, with the sound,
        when the snapshot has run out, and then one second is taken off; the
        progress is computed from the snapshot taken before the tick. */
    method Tick()
      requires Valid() && isTimerRunning
      modifies this
      ensures Valid()
      ensures session == Some(StepSession(focusDuration, breakDuration, old(session).value))
      ensures alerts == old(alerts) + (if old(session).value.timeRemaining == 0 then 1 else 0)
      ensures aria == Progress(focusDuration, breakDuration, old(session).value)
      ensures old(session).value.kind == Focusing ==> 0.0 <= aria <= 100.0
      ensures isTimerRunning && Settings() == old(Settings()) && elapsed == old(elapsed)
      ensures breakLeft == old(breakLeft) + 1
    {
      var snapshot := session.value;
      breakLeft := breakLeft + 1;
      var queued := snapshot;
      if snapshot.timeRemaining == 0 {
        alerts := alerts + 1;
        queued := NextSession(focusDuration, breakDuration, queued);
      }
      queued := NextTick(queued);
      session := Some(queued);
      var left := snapshot.timeRemaining;
      if snapshot.kind == Focusing {
        var total := focusDuration * SecondsPerMinute;
        aria := 100.0 * (total - left) as real / total as real;
      } else {
        var total := breakDuration * SecondsPerMinute;
        aria := 100.0 * (total - left) as real / total as real;
      }
    }

    /** One firing of the ungated per-second callback: one more second is
        counted exactly when there is a session with time left, whether or
        not the timer runs. */
    method AccumulateElapsed()
      requires Valid()
      modifies this
      ensures Valid()
      ensures elapsed == old(elapsed) + (if old(session).Some? && old(session).value.timeRemaining != 0 then 1 else 0)
      ensures session == old(session) && isTimerRunning == old(isTimerRunning)
      ensures Settings() == old(Settings()) && aria == old(aria)
      ensures breakLeft == old(breakLeft) && alerts == old(alerts)
    {
      if session.Some? && session.value.timeRemaining != 0 {
        elapsed := elapsed + 1;
      }
    }
  }

  /** Starting fresh and pressing play once gives a full focusing session of
      25 minutes on a running timer. */
  method FreshStart() returns (running: bool, current: Option<Session>)
    ensures running && current == Some(Session(Focusing, InitialFocus * SecondsPerMinute))
  {
    var p := new Pomodoro();
    p.PlayPause();
    running, current := p.isTimerRunning, p.session;
  }

  /** Pressing "+" on the focus duration before the first start, then play,
      then one tick: the label-less session it created is treated as a
      break when progress is computed, against the 5-minute break length
      although it holds 30 minutes, and the progress shown is negative. */
  method LabelLessSessionProgress() returns (current: Option<Session>, progress: real)
    ensures current == Some(Session(NoLabel, 30 * SecondsPerMinute - 1))
    ensures progress == -500.0
  {
    var p := new Pomodoro();
    p.IncreaseFocusTime();
    p.PlayPause();
    p.Tick();
    current, progress := p.session, p.aria;
  }
}
