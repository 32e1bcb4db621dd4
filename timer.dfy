// The focus timer of src/features/timer/Timer.jsx: a countdown with custom,
// work and break sessions and an automatic Pomodoro cycle, the form of the
// clock, the settings inputs and the session statistics.
//
// Each run of the countdown effect is one call of `Step`; the one-second
// interval between runs is outside the model. The clock readings the
// component takes (`Date.now()`, the ISO time and the ISO date) are
// parameters. Sound, alerts' display and the remote save are left out; the
// alert text is returned.

module Timer {
  import opened Common
  import opened Store

  datatype SessionType = Work | ShortBreak | LongBreak

  /** A finished work session as the component records it. */
  datatype Session = Session(id: int, name: string, notes: string, duration: int,
                             startTime: Option<string>, endTime: string, kind: SessionType, date: string)

  datatype Settings = Settings(workDuration: int, shortBreakDuration: int, longBreakDuration: int,
                               autoStartBreaks: bool, autoStartPomodoros: bool, soundEnabled: bool)

  const DefaultSettings := Settings(25, 5, 15, true, false, true)

  predicate SettingsValid(s: Settings)
  {
    s.workDuration >= 1 && s.shortBreakDuration >= 1 && s.longBreakDuration >= 1
  }

  /**
   * The break that follows a work session in Pomodoro mode, from the number
   * of work sessions finished before it: a long break after every fourth.
   */
  function BreakAfter(count: nat): (r: SessionType)
    ensures r != Work
    ensures r == LongBreak <==> (count + 1) % 4 == 0
  {
    if count > 0 && (count + 1) % 4 == 0 then LongBreak else ShortBreak
  }

  /** How many of the first n work sessions are followed by a long break. */
  function LongBreaksIn(n: nat): nat
  {
    if n == 0 then 0 else LongBreaksIn(n - 1) + (if BreakAfter(n - 1) == LongBreak then 1 else 0)
  }

  /** One long break per four work sessions. */
  lemma {:induction false} LongBreakEveryFourth(n: nat)
    ensures LongBreaksIn(n) == n / 4
  {
    if n > 0 {
      LongBreakEveryFourth(n - 1);
      var q, m := (n - 1) / 4, (n - 1) % 4;
      assert n - 1 == 4 * q + m;
      if m == 3 {
        assert n == 4 * (q + 1);
        assert BreakAfter(n - 1) == LongBreak;
      } else {
        assert n == 4 * q + (m + 1) && m + 1 < 4;
        assert BreakAfter(n - 1) == ShortBreak;
      }
    }
  }

  /** The length of each kind of session. */
  function DurationOf(s: Settings, kind: SessionType): int
  {
    match kind
    case Work => s.workDuration
    case ShortBreak => s.shortBreakDuration
    case LongBreak => s.longBreakDuration
  }

  /** Every field of the component's state, as one value. */
  datatype TimerState = TimerState(minutes: int, seconds: int, active: bool, paused: bool, pomodoroMode: bool,
                                   sessionLabel: string, sessionNotes: string, sessions: seq<Session>,
                                   settings: Settings, dailyGoal: int, sessionStart: Option<string>,
                                   sessionType: SessionType, pomodoroCount: nat)

  /** What one run of the countdown effect did. */
  datatype Effect = Ticked | Completed | Idle

  class FocusTimer {
    var minutes: int
    var seconds: int
    var active: bool
    var paused: bool
    var pomodoroMode: bool
    var sessionLabel: string
    var sessionNotes: string
    var sessions: seq<Session>
    var settings: Settings
    var dailyGoal: int
    var sessionStart: Option<string>
    var sessionType: SessionType
    var pomodoroCount: nat

    /**
     * Durations and the goal stay at least one minute, the countdown never
     * goes below zero, and the recorded sessions, all of them work
     * sessions, are at most the Pomodoro count (a deleted session leaves
     * the count as it was).
     */
    predicate Valid()
      reads this
    {
      minutes >= 1 && seconds >= 0 && dailyGoal >= 1 && SettingsValid(settings)
      && |sessions| <= pomodoroCount
      && forall i :: 0 <= i < |sessions| ==> sessions[i].kind == Work && sessions[i].duration >= 1
    }

    /** The whole state, so that a contract can say what else stays. */
    function State(): TimerState
      reads this
    {
      TimerState(minutes, seconds, active, paused, pomodoroMode, sessionLabel, sessionNotes, sessions,
                 settings, dailyGoal, sessionStart, sessionType, pomodoroCount)
    }

    /** The session a completion at this moment records. */
    function Record(nowIso: string, today: string, id: int): Session
      reads this
    {
      Session(id, if sessionLabel == "" then "Focus Session" else sessionLabel, sessionNotes,
              minutes, sessionStart, nowIso, Work, today)
    }

    constructor()
      ensures Valid()
      ensures minutes == 25 && seconds == 0 && !active && !paused && !pomodoroMode
      ensures sessionLabel == "" && sessionNotes == "" && sessions == [] && settings == DefaultSettings
      ensures dailyGoal == 120 && sessionStart.None? && sessionType == Work && pomodoroCount == 0
    {
      minutes, seconds, active, paused, pomodoroMode := 25, 0, false, false, false;
      sessionLabel, sessionNotes, sessions, settings := "", "", [], DefaultSettings;
      dailyGoal, sessionStart, sessionType, pomodoroCount := 120, None, Work, 0;
    }

    /** The common part of every `start*`: a fresh countdown of m minutes of the given kind. */
    method Begin(m: int, kind: SessionType, now: string)
      requires Valid() && m >= 1
      modifies this
      ensures Valid()
      ensures minutes == m && seconds == m * 60 && active && !paused
      ensures sessionStart == Some(now) && sessionType == kind
      ensures pomodoroMode == old(pomodoroMode) && sessionLabel == old(sessionLabel) && sessionNotes == old(sessionNotes)
      ensures sessions == old(sessions) && settings == old(settings) && dailyGoal == old(dailyGoal)
      ensures pomodoroCount == old(pomodoroCount)
    {
      minutes, seconds, active, paused := m, m * 60, true, false;
      sessionStart, sessionType := Some(now), kind;
    }

    /** startTimer: a work countdown of the custom duration, Pomodoro mode untouched. */
    method StartTimer(now: string)
      requires Valid()
      modifies this
      ensures Valid()
      ensures minutes == old(minutes) && seconds == minutes * 60 && active && !paused
      ensures sessionStart == Some(now) && sessionType == Work
      ensures pomodoroMode == old(pomodoroMode) && sessionLabel == old(sessionLabel) && sessionNotes == old(sessionNotes)
      ensures sessions == old(sessions) && settings == old(settings) && dailyGoal == old(dailyGoal)
      ensures pomodoroCount == old(pomodoroCount)
    {
      Begin(minutes, Work, now);
    }

    /** startPomodoro: Pomodoro mode on, a work countdown of the work duration. */
    method StartPomodoro(now: string)
      requires Valid()
      modifies this
      ensures Valid()
      ensures minutes == settings.workDuration && seconds == minutes * 60 && active && !paused
      ensures sessionStart == Some(now) && sessionType == Work && pomodoroMode
      ensures sessionLabel == old(sessionLabel) && sessionNotes == old(sessionNotes)
      ensures sessions == old(sessions) && settings == old(settings) && dailyGoal == old(dailyGoal)
      ensures pomodoroCount == old(pomodoroCount)
    {
      pomodoroMode := true;
      Begin(settings.workDuration, Work, now);
    }

    /** startShortBreak and startLongBreak: a break countdown of its configured length. */
    method StartBreak(kind: SessionType, now: string)
      requires Valid() && kind != Work
      modifies this
      ensures Valid()
      ensures minutes == DurationOf(settings, kind) && seconds == minutes * 60 && active && !paused
      ensures sessionStart == Some(now) && sessionType == kind
      ensures pomodoroMode == old(pomodoroMode) && sessionLabel == old(sessionLabel) && sessionNotes == old(sessionNotes)
      ensures sessions == old(sessions) && settings == old(settings) && dailyGoal == old(dailyGoal)
      ensures pomodoroCount == old(pomodoroCount)
    {
      Begin(DurationOf(settings, kind), kind, now);
    }

    /** pauseTimer: the countdown holds; nothing else changes. */
    method Pause()
      requires Valid()
      modifies this
      ensures Valid()
      ensures State() == old(State()).(paused := true)
    {
      paused := true;
    }

    /** resumeTimer: the countdown runs on; nothing else changes. */
    method Resume()
      requires Valid()
      modifies this
      ensures Valid()
      ensures State() == old(State()).(paused := false)
    {
      paused := false;
    }

    /** snoozeTimer: m more minutes on the clock; the recorded duration stays. */
    method Snooze(m: nat)
      requires Valid()
      modifies this
      ensures Valid()
      ensures State() == old(State()).(seconds := old(seconds) + m * 60)
    {
      seconds := seconds + m * 60;
    }

    /** The Stop button: the countdown and Pomodoro mode end and the inputs clear; nothing is recorded. */
    method Stop()
      requires Valid()
      modifies this
      ensures Valid()
      ensures State() == old(State()).(active := false, pomodoroMode := false, sessionLabel := "", sessionNotes := "")
    {
      active, pomodoroMode, sessionLabel, sessionNotes := false, false, "", "";
    }

    /** The custom-duration input: a readable positive number of minutes, else 1; the running countdown is untouched. */
    method SetMinutesInput(value: string)
      requires Valid()
      modifies this
      ensures Valid()
      ensures State() == old(State()).(minutes := ClampSetting(value, 1))
    {
      minutes := ClampSetting(value, 1);
    }

    /** The daily-goal input: a readable positive number of minutes, else 1. */
    method SetDailyGoalInput(value: string)
      requires Valid()
      modifies this
      ensures Valid()
      ensures State() == old(State()).(dailyGoal := ClampSetting(value, 1))
    {
      dailyGoal := ClampSetting(value, 1);
    }

    /** One of the three settings inputs, through `ApplySettingInput`. */
    method SetSettingInput(field: SessionType, value: string)
      requires Valid()
      modifies this
      ensures Valid()
      ensures State() == old(State()).(settings := ApplySettingInput(old(settings), field, value))
    {
      var r := ApplySettingInput(settings, field, value);
      assert SettingsValid(r);
      settings := r;
    }

    /** The delete button of a logged session: every session with that id goes, the rest stay in order; the count stays. */
    method DeleteSession(id: int)
      requires Valid()
      modifies this
      ensures Valid()
      ensures State() == old(State()).(sessions := Filter(old(sessions), SessionIdIsNot(id)))
    {
      sessions := Filter(sessions, SessionIdIsNot(id));
    }

    /**
     * handleTimerComplete: a finished work session is recorded (its label
     * defaulting to 'Focus Session') and counted; then in Pomodoro mode the
     * next session starts if its auto-start setting is on, else the timer
     * stops with an alert; outside Pomodoro mode it always stops. The
     * break choice reads the count from before this session.
     */
    method Complete(nowIso: string, today: string, id: int) returns (alert: Option<string>)
      requires Valid()
      modifies this
      ensures Valid()
      ensures sessions == old(sessions) + (if old(sessionType) == Work then [old(Record(nowIso, today, id))] else [])
      ensures pomodoroCount == old(pomodoroCount) + (if old(sessionType) == Work then 1 else 0)
      ensures sessionLabel == "" && sessionNotes == "" && settings == old(settings) && dailyGoal == old(dailyGoal)
      ensures pomodoroMode == old(pomodoroMode)
      ensures !active ==> alert.Some? && minutes == old(minutes) && seconds == old(seconds) && paused == old(paused)
                          && sessionType == old(sessionType) && sessionStart == old(sessionStart)
      ensures !old(pomodoroMode) ==>
        !active && alert == Some("Timer complete!") && !pomodoroMode && seconds == old(seconds)
      ensures (old(pomodoroMode) && old(sessionType) == Work ==>
        var next := BreakAfter(old(pomodoroCount));
        if settings.autoStartBreaks then
          active && !paused && sessionType == next && minutes == DurationOf(settings, next)
          && seconds == minutes * 60 && sessionStart == Some(nowIso) && alert.None? && pomodoroMode
        else
          !active && sessionType == Work && seconds == old(seconds)
          && alert == Some(if next == LongBreak then "Time for a long break!" else "Time for a short break!"))
      ensures (old(pomodoroMode) && old(sessionType) != Work ==>
        if settings.autoStartPomodoros then
          active && !paused && sessionType == Work && minutes == settings.workDuration
          && seconds == minutes * 60 && sessionStart == Some(nowIso) && alert.None? && pomodoroMode
        else
          !active && sessionType == old(sessionType) && seconds == old(seconds)
          && alert == Some("Break complete! Ready for next session?"))
    {
      var count := pomodoroCount;
      LogSession(nowIso, today, id);
      alert := Advance(count, nowIso);
      sessionLabel, sessionNotes := "", "";
    }

    /**
     * What follows a finished session: in Pomodoro mode the next session
     * (a break chosen by `count` after work, work after a break) starts if
     * its auto-start setting is on, else the timer stops with an alert; out
     * of Pomodoro mode it stops.
     */
    method Advance(count: nat, nowIso: string) returns (alert: Option<string>)
      requires Valid()
      modifies this
      ensures Valid()
      ensures sessions == old(sessions) && pomodoroCount == old(pomodoroCount)
      ensures settings == old(settings) && dailyGoal == old(dailyGoal) && pomodoroMode == old(pomodoroMode)
      ensures sessionLabel == old(sessionLabel) && sessionNotes == old(sessionNotes)
      ensures !active ==> State() == old(State()).(active := false) && alert.Some?
      ensures !old(pomodoroMode) ==>
        !active && alert == Some("Timer complete!") && !pomodoroMode && seconds == old(seconds)
      ensures (old(pomodoroMode) && old(sessionType) == Work ==>
        var next := BreakAfter(count);
        if settings.autoStartBreaks then
          active && !paused && sessionType == next && minutes == DurationOf(settings, next)
          && seconds == minutes * 60 && sessionStart == Some(nowIso) && alert.None? && pomodoroMode
        else
          !active && sessionType == Work && seconds == old(seconds)
          && alert == Some(if next == LongBreak then "Time for a long break!" else "Time for a short break!"))
      ensures (old(pomodoroMode) && old(sessionType) != Work ==>
        if settings.autoStartPomodoros then
          active && !paused && sessionType == Work && minutes == settings.workDuration
          && seconds == minutes * 60 && sessionStart == Some(nowIso) && alert.None? && pomodoroMode
        else
          !active && sessionType == old(sessionType) && seconds == old(seconds)
          && alert == Some("Break complete! Ready for next session?"))
    {
      alert := None;
      if pomodoroMode {
        if sessionType == Work {
          var next := BreakAfter(count);
          if settings.autoStartBreaks {
            StartBreak(next, nowIso);
          } else {
            active := false;
            alert := Some(if next == LongBreak then "Time for a long break!" else "Time for a short break!");
          }
        } else {
          if settings.autoStartPomodoros {
            StartPomodoro(nowIso);
          } else {
            active := false;
            alert := Some("Break complete! Ready for next session?");
          }
        }
      } else {
        active := false;
        alert := Some("Timer complete!");
      }
    }

    /** A finished work session is recorded and counted; a break is not. */
    method LogSession(nowIso: string, today: string, id: int)
      requires Valid()
      modifies this
      ensures Valid()
      ensures sessions == old(sessions) + (if sessionType == Work then [old(Record(nowIso, today, id))] else [])
      ensures pomodoroCount == old(pomodoroCount) + (if sessionType == Work then 1 else 0)
      ensures sessionType == old(sessionType) && pomodoroMode == old(pomodoroMode) && active == old(active)
      ensures paused == old(paused) && minutes == old(minutes) && seconds == old(seconds)
      ensures sessionStart == old(sessionStart) && settings == old(settings) && dailyGoal == old(dailyGoal)
    {
      if sessionType == Work {
        sessions := sessions + [Record(nowIso, today, id)];
        pomodoroCount := pomodoroCount + 1;
      }
    }

    /**
     * One run of the countdown effect: a second off while running, unpaused
     * and above zero; completion at zero while active; nothing otherwise.
     */
    method Step(nowIso: string, today: string, id: int) returns (e: Effect, alert: Option<string>)
      requires Valid()
      modifies this
      ensures Valid()
      ensures e == Ticked <==> old(active) && !old(paused) && old(seconds) > 0
      ensures e == Completed <==> old(active) && old(seconds) == 0
      ensures e == Ticked ==> State() == old(State()).(seconds := old(seconds) - 1) && alert.None?
      ensures e == Idle ==> State() == old(State()) && alert.None?
      ensures (e == Completed ==>
        sessions == old(sessions) + (if old(sessionType) == Work then [old(Record(nowIso, today, id))] else [])
        && pomodoroCount == old(pomodoroCount) + (if old(sessionType) == Work then 1 else 0)
        && sessionLabel == "" && sessionNotes == "" && settings == old(settings) && dailyGoal == old(dailyGoal)
        && pomodoroMode == old(pomodoroMode)
        && (active <==> old(pomodoroMode)
                        && if old(sessionType) == Work then settings.autoStartBreaks else settings.autoStartPomodoros)
        && (active ==> alert.None? && !paused && sessionStart == Some(nowIso)
                       && sessionType == (if old(sessionType) == Work then BreakAfter(old(pomodoroCount)) else Work)
                       && minutes == DurationOf(settings, sessionType) && seconds == minutes * 60)
        && (!active ==> alert.Some? && seconds == 0 && minutes == old(minutes) && paused == old(paused)
                        && sessionType == old(sessionType) && sessionStart == old(sessionStart)))
    {
      alert := None;
      if active && !paused && seconds > 0 {
        seconds := seconds - 1;
        e := Ticked;
      } else if seconds == 0 && active {
        alert := Complete(nowIso, today, id);
        e := Completed;
      } else {
        e := Idle;
      }
    }
  }

  /**
   * Running a started countdown without pausing through to its end records
   * exactly one session if it is a work session, and none for a break.
   */
  method RunToEnd(t: FocusTimer, nowIso: string, today: string, id: int) returns (steps: nat)
    requires t.Valid() && t.active && !t.paused
    modifies t
    ensures t.Valid()
    ensures steps == old(t.seconds) + 1
    ensures t.sessions == old(t.sessions) + (if old(t.sessionType) == Work then [old(t.Record(nowIso, today, id))] else [])
  {
    steps := 0;
    while t.seconds > 0
      invariant t.Valid() && t.active && !t.paused
      invariant steps + t.seconds == old(t.seconds)
      invariant t.sessions == old(t.sessions) && t.sessionType == old(t.sessionType)
      invariant t.Record(nowIso, today, id) == old(t.Record(nowIso, today, id))
      decreases t.seconds
    {
      var e, _ := t.Step(nowIso, today, id);
      steps := steps + 1;
    }
    var e, _ := t.Step(nowIso, today, id);
    steps := steps + 1;
  }

  // ---------------------------------------------------------------------
  // The clock face.
  // ---------------------------------------------------------------------

  /** formatTime: whole minutes, a colon and the seconds as two digits. */
  function FormatTime(seconds: nat): (r: string)
    ensures ':' in r
  {
    var r := NatToStr(seconds / 60) + ":" + Pad2(seconds % 60);
    assert r[|NatToStr(seconds / 60)|] == ':';
    r
  }

  predicate AllDigits(s: string)
  {
    forall i :: 0 <= i < |s| ==> IsDigit(s[i])
  }

  /** Reading a clock face back: minutes and two-digit seconds below 60. */
  function ParseClock(t: string): Option<nat>
  {
    match IndexOfFrom(t, ':', 0)
    case None => None
    case Some(k) =>
      var m, s := t[..k], t[k + 1..];
      if m != [] && AllDigits(m) && |s| == 2 && AllDigits(s) && DigitsValue(s) < 60
      then Some(DigitsValue(m) * 60 + DigitsValue(s)) else None
  }

  lemma Pad2BelowHundred(n: nat)
    requires n < 100
    ensures |Pad2(n)| == 2
  {
    if n >= 10 {
      assert NatToStr(n) == NatToStr(n / 10) + [DigitChar(n % 10)];
    }
  }

  /** The clock face shows exactly the remaining seconds. */
  lemma FormatTimeRoundTrip(seconds: nat)
    ensures ParseClock(FormatTime(seconds)) == Some(seconds)
  {
    var m, s := NatToStr(seconds / 60), Pad2(seconds % 60);
    assert m + ":" + s == FormatTime(seconds);
    DigitsOfNatToStr(seconds / 60);
    ColonSplit(m, s);
    Pad2BelowHundred(seconds % 60);
  }

  /** The first colon of `m:s` is the one after m, when m has none. */
  lemma ColonSplit(m: string, s: string)
    requires forall i :: 0 <= i < |m| ==> IsDigit(m[i])
    ensures var t := m + ":" + s;
      IndexOfFrom(t, ':', 0) == Some(|m|) && t[..|m|] == m && t[|m| + 1..] == s
  {
    var t := m + ":" + s;
    FirstIndexOf(t, ':', |m|);
    assert t[..|m|] == m && t[|m| + 1..] == s;
  }

  // ---------------------------------------------------------------------
  // Settings inputs.
  // ---------------------------------------------------------------------

  /**
   * `Math.max(1, parseInt(value) || fallback)`: an unreadable or zero entry
   * gives the fallback, anything below one gives one.
   */
  function ClampSetting(value: string, fallback: int): (r: int)
    requires fallback >= 1
    ensures r >= 1
    ensures ParseInt(value, true).None? || ParseInt(value, true) == Some(0) ==> r == fallback
    ensures (ParseInt(value, true).Some? && ParseInt(value, true).value >= 1) ==> r == ParseInt(value, true).value
  {
    match ParseInt(value, true)
    case None => fallback
    case Some(n) => if n == 0 then fallback else if n < 1 then 1 else n
  }

  /** The custom duration and daily goal fall back to 1, the three settings to 25, 5 and 15. */
  function ApplySettingInput(s: Settings, field: SessionType, value: string): (r: Settings)
    requires SettingsValid(s)
    ensures SettingsValid(r)
    ensures field == Work ==> r == s.(workDuration := ClampSetting(value, 25))
    ensures field == ShortBreak ==> r == s.(shortBreakDuration := ClampSetting(value, 5))
    ensures field == LongBreak ==> r == s.(longBreakDuration := ClampSetting(value, 15))
  {
    match field
    case Work => s.(workDuration := ClampSetting(value, 25))
    case ShortBreak => s.(shortBreakDuration := ClampSetting(value, 5))
    case LongBreak => s.(longBreakDuration := ClampSetting(value, 15))
  }

  /** Typing a readable positive number sets exactly that many minutes. */
  lemma SettingTakesPositiveNumber(d: string, fallback: int)
    requires fallback >= 1 && d != [] && AllDigits(d) && DigitsValue(d) >= 1
    ensures ClampSetting(d, fallback) == DigitsValue(d)
  {
    ParseIntOfDigits(d, true);
  }

  function SessionIdIsNot(id: int): Session -> bool
  {
    (s: Session) => s.id != id
  }

  /** Deleting a session removes every session with its id and keeps every other one. */
  lemma DeleteSessionRemovesOnlyIt(sessions: seq<Session>, id: int)
    ensures var r := Filter(sessions, SessionIdIsNot(id));
      (forall i :: 0 <= i < |r| ==> r[i].id != id)
      && (forall i :: 0 <= i < |sessions| && sessions[i].id != id ==> sessions[i] in r)
      && |r| + Count(sessions, (s: Session) => s.id == id) == |sessions|
  {
    CountComplement(sessions, (s: Session) => s.id == id, SessionIdIsNot(id));
    CountIsFilterLength(sessions, SessionIdIsNot(id));
  }

  // ---------------------------------------------------------------------
  // Statistics.
  // ---------------------------------------------------------------------

  function Duration(s: Session): int { s.duration }

  datatype TimerStats = TimerStats(totalMinutes: int, totalSessions: nat, avgSession: real,
                                   todayMinutes: int, todaySessions: nat)

  function SessionDate(s: Session): string { s.date }

  /** The sessions dated on the given day. */
  function OnDay(day: string): Session -> bool
  {
    (s: Session) => s.date == day
  }

  function SpanSessions(sessions: seq<Session>, span: Span, now: int, dateOf: string -> Option<int>): (r: seq<Session>)
    ensures multiset(r) <= multiset(sessions) && |r| <= |sessions|
    ensures forall i :: 0 <= i < |r| ==> InSpan(span, dateOf(r[i].date), now)
    ensures forall i :: 0 <= i < |sessions| && InSpan(span, dateOf(sessions[i].date), now) ==> sessions[i] in r
    ensures span == OtherSpan ==> r == sessions
  {
    var r := FilterBySpan(sessions, (s: Session) => dateOf(s.date), span, now);
    assert |multiset(r)| <= |multiset(sessions)| by {
      MultisetSubsetSize(multiset(r), multiset(sessions));
    }
    r
  }

  /** A session of the span is counted as often as it was logged, any other not at all. */
  lemma SpanSessionsCounts(sessions: seq<Session>, span: Span, now: int, dateOf: string -> Option<int>, s: Session)
    ensures multiset(SpanSessions(sessions, span, now, dateOf))[s]
         == if InSpan(span, dateOf(s.date), now) then multiset(sessions)[s] else 0
  {
    FilterBySpanCounts(sessions, (x: Session) => dateOf(x.date), span, now, s);
  }

  /**
   * stats: minutes and count of the sessions in the span (dates read by
   * `dateOf`), their mean, and minutes and count of today's sessions over
   * all of them. The one-decimal rendering of the mean is left out.
   */
  function Stats(sessions: seq<Session>, span: Span, now: int, dateOf: string -> Option<int>, today: string): (r: TimerStats)
    ensures r.totalSessions <= |sessions| && r.todaySessions <= |sessions|
    ensures r.totalSessions == 0 ==> r.totalMinutes == 0
    ensures r.avgSession == Mean(r.totalMinutes, r.totalSessions)
    ensures r.totalSessions == |SpanSessions(sessions, span, now, dateOf)|
    ensures r.totalMinutes == Sum(SpanSessions(sessions, span, now, dateOf), Duration)
    ensures span == OtherSpan ==> r.totalSessions == |sessions| && r.totalMinutes == Sum(sessions, Duration)
    ensures r.todaySessions == Count(sessions, OnDay(today))
    ensures r.todayMinutes == SumWhere(sessions, SessionDate, today, Duration)
  {
    var inSpan := SpanSessions(sessions, span, now, dateOf);
    var total := Sum(inSpan, Duration);
    var onToday := Filter(sessions, OnDay(today));
    CountIsFilterLength(sessions, OnDay(today));
    SumWhereIsFilteredSum(sessions, SessionDate, today, Duration, OnDay(today));
    TimerStats(total, |inSpan|, Mean(total, |inSpan|), Sum(onToday, Duration), |onToday|)
  }

  /** With every session at least a minute long, the mean is at least a minute. */
  lemma MeanAtLeastOne(sessions: seq<Session>, span: Span, now: int, dateOf: string -> Option<int>, today: string)
    requires forall i :: 0 <= i < |sessions| ==> sessions[i].duration >= 1
    ensures var r := Stats(sessions, span, now, dateOf, today);
      r.totalMinutes >= r.totalSessions && (r.totalSessions > 0 ==> r.avgSession >= 1.0)
  {
    var inSpan := SpanSessions(sessions, span, now, dateOf);
    forall i | 0 <= i < |inSpan| ensures inSpan[i].duration >= 1 {
      assert inSpan[i] in multiset(sessions);
    }
    SumAtLeastLength(inSpan, Duration);
    if |inSpan| > 0 {
      MeanNotBelowOne(Sum(inSpan, Duration), |inSpan|);
    }
  }

  /** A chart bar: the day (month and day), its minutes and its number of sessions. */
  datatype DayBar = DayBar(day: string, minutes: int, sessions: nat)

  /** chartData: one bar per given day with that day's sessions. */
  function ChartData(sessions: seq<Session>, days: seq<string>): (r: seq<DayBar>)
    ensures |r| == |days|
    ensures forall i :: 0 <= i < |r| ==>
      r[i].minutes == SumWhere(sessions, SessionDate, days[i], Duration)
      && r[i].sessions == Count(sessions, OnDay(days[i]))
  {
    seq(|days|, i requires 0 <= i < |days| =>
      DayBar(Substring5(days[i]), SumWhere(sessions, SessionDate, days[i], Duration),
             Count(sessions, OnDay(days[i]))))
  }

  /** `dateStr.slice(5)`. */
  function Substring5(s: string): string
  {
    if |s| <= 5 then "" else s[5..]
  }

  function BarMinutes(bars: seq<DayBar>): int
  {
    if bars == [] then 0 else BarMinutes(bars[..|bars| - 1]) + bars[|bars| - 1].minutes
  }

  /** The bars add up to the minutes of the sessions on the charted days. */
  lemma {:induction false} ChartAddsUpToSessionsOnDays(sessions: seq<Session>, days: seq<string>)
    ensures BarMinutes(ChartData(sessions, days)) == SumOverKeys(days, sessions, SessionDate, Duration)
  {
    if days != [] {
      var init := days[..|days| - 1];
      ChartAddsUpToSessionsOnDays(sessions, init);
      var r := ChartData(sessions, days);
      assert r[..|r| - 1] == ChartData(sessions, init);
    }
  }

  function OnDays(days: seq<string>): Session -> bool
  {
    (s: Session) => s.date in days
  }

  /** When the charted days are distinct, each session on one of them is counted once. */
  lemma SessionsOnDistinctDays(sessions: seq<Session>, days: seq<string>)
    requires NoDuplicates(days)
    ensures SumOverKeys(days, sessions, SessionDate, Duration)
         == Sum(Filter(sessions, OnDays(days)), Duration)
  {
    KeyedSumIsFilteredSum(days, sessions, SessionDate, Duration, OnDays(days));
  }

  lemma {:induction false} KeyedSumIsFilteredSum<T>(ks: seq<string>, s: seq<T>, key: T -> string, w: T -> int, p: T -> bool)
    requires NoDuplicates(ks)
    requires forall x :: p(x) == (key(x) in ks)
    ensures SumOverKeys(ks, s, key, w) == Sum(Filter(s, p), w)
  {
    if s == [] {
      SumOverKeysNone(ks, s, key, w);
    } else {
      var init, x := s[..|s| - 1], s[|s| - 1];
      KeyedSumIsFilteredSum(ks, init, key, w, p);
      assert s == init + [x];
      SumOverKeysStep(ks, init, x, key, w);
      var tail := if p(x) then [x] else [];
      assert Filter(s, p) == Filter(init, p) + tail;
      SumAppend(Filter(init, p), tail, w);
    }
  }

  lemma {:induction false} SumOverKeysNone<T>(ks: seq<string>, s: seq<T>, key: T -> string, w: T -> int)
    requires s == []
    ensures SumOverKeys(ks, s, key, w) == 0
  {
    if ks != [] {
      SumOverKeysNone(ks[..|ks| - 1], s, key, w);
    }
  }
}
