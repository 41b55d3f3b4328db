/**
 * The pure session-transition functions of the Pomodoro timer: the record that
 * describes the running focus or break interval, what one second does to it,
 * what happens when it runs out, and the progress figure shown beside it.
 * None of them reads controller state; everything arrives as a parameter.
 */
module PomodoroSession {

  const SecondsPerMinute := 60

  /** The label of a session. `NoLabel` stands for the record the
      focus-duration handlers build when they spread an absent session: it
      carries a `timeRemaining` but no label at all. */
  datatype Label = Focusing | OnBreak | NoLabel

  /** A focus or break interval: its label (`kind`) and the seconds left. */
  datatype Session = Session(kind: Label, timeRemaining: int)

  function Max(a: int, b: int): int {
    if a < b then b else a
  }

  /** The configured length, in minutes, that goes with a label: the focus
      duration for a focusing session, the break duration for anything else
      (the label test is a comparison with "Focusing" and nothing more). */
  function MinutesFor(focusDuration: int, breakDuration: int, kind: Label): int {
    if kind == Focusing then focusDuration else breakDuration
  }

  /** One second passes: the label is kept and the remaining time goes down
      by one, never below zero. */
  function NextTick(prev: Session): (r: Session)
    ensures r.kind == prev.kind
    ensures r.timeRemaining >= 0
    ensures prev.timeRemaining > 0 ==> r.timeRemaining == prev.timeRemaining - 1
    ensures prev.timeRemaining <= 0 ==> r.timeRemaining == 0
  {
    prev.(timeRemaining := Max(0, prev.timeRemaining - 1))
  }

  /** The session that follows one that has run out. A focusing session is
      followed by a break, anything else by a focusing session, and the new
      session starts with the full configured length of its own label. */
  function NextSession(focusDuration: int, breakDuration: int, current: Session): (r: Session)
    ensures r.kind == (if current.kind == Focusing then OnBreak else Focusing)
    ensures r.timeRemaining == MinutesFor(focusDuration, breakDuration, r.kind) * SecondsPerMinute
  {
    if current.kind == Focusing then
      Session(OnBreak, breakDuration * SecondsPerMinute)
    else
      Session(Focusing, focusDuration * SecondsPerMinute)
  }

  /** What a session may look like while the controller is consistent: its
      time is never negative, and a focusing session never has more time
      left than the focus duration allows. */
  predicate Fits(focusDuration: int, s: Session) {
    s.timeRemaining >= 0 &&
    (s.kind == Focusing ==> s.timeRemaining <= focusDuration * SecondsPerMinute)
  }

  /** The effect of one running second on the session: the two queued
      updates of the tick callback applied in order, the rollover first
      (only when the snapshot has run out) and then the decrement. */
  function StepSession(focusDuration: int, breakDuration: int, s: Session): (r: Session)
    ensures s.timeRemaining > 0 ==> r == Session(s.kind, s.timeRemaining - 1)
    ensures s.timeRemaining == 0 && s.kind == Focusing && breakDuration > 0 ==>
              r == Session(OnBreak, breakDuration * SecondsPerMinute - 1)
    ensures s.timeRemaining == 0 && s.kind != Focusing && focusDuration > 0 ==>
              r == Session(Focusing, focusDuration * SecondsPerMinute - 1)
    ensures Fits(focusDuration, s) && focusDuration > 0 && breakDuration > 0 ==>
              Fits(focusDuration, r)
  {
    NextTick(if s.timeRemaining == 0 then NextSession(focusDuration, breakDuration, s) else s)
  }

  /** The progress percentage computed from a session: the share of the
      configured length of its label that has been used up. */
  function Progress(focusDuration: int, breakDuration: int, s: Session): (r: real)
    requires focusDuration > 0 && breakDuration > 0
    ensures s.timeRemaining == 0 ==> r == 100.0
    ensures 0.0 <= r <= 100.0 <==>
              0 <= s.timeRemaining <= MinutesFor(focusDuration, breakDuration, s.kind) * SecondsPerMinute
  {
    var total := MinutesFor(focusDuration, breakDuration, s.kind) * SecondsPerMinute;
    PercentInRange(total - s.timeRemaining, total);
    100.0 * (total - s.timeRemaining) as real / total as real
  }

  /** A percentage `100 * used / total` lies in [0, 100] exactly when the
      used amount lies between nothing and the whole. */
  lemma PercentInRange(used: int, total: int)
    requires total > 0
    ensures 0.0 <= 100.0 * used as real / total as real <= 100.0 <==> 0 <= used <= total
    ensures used == total ==> 100.0 * used as real / total as real == 100.0
  {
  }

  /** The session that follows depends on the label alone, never on the time
      that was left. */
  lemma NextSessionIgnoresTime(focusDuration: int, breakDuration: int, s: Session, t: int)
    ensures NextSession(focusDuration, breakDuration, s) ==
            NextSession(focusDuration, breakDuration, Session(s.kind, t))
  {
  }

  /** Two rollovers from a focusing session lead back to a full focusing
      session, and two from a break lead back to a full break. */
  lemma NextSessionTwice(focusDuration: int, breakDuration: int, s: Session)
    requires s.kind != NoLabel
    ensures NextSession(focusDuration, breakDuration, NextSession(focusDuration, breakDuration, s)) ==
            Session(s.kind, MinutesFor(focusDuration, breakDuration, s.kind) * SecondsPerMinute)
  {
  }

  /** Each running second moves progress forward by the same step, one
      second's share of the configured length, as long as the session has
      not run out. */
  lemma ProgressAdvances(focusDuration: int, breakDuration: int, s: Session)
    requires focusDuration > 0 && breakDuration > 0
    requires s.timeRemaining > 0
    ensures Progress(focusDuration, breakDuration, NextTick(s)) ==
            Progress(focusDuration, breakDuration, s) +
            100.0 / (MinutesFor(focusDuration, breakDuration, s.kind) * SecondsPerMinute) as real
  {
  }
}
