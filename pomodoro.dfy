/** The Pomodoro countdown: a work/break timer that ticks once a second and
    counts completed work sessions. Durations are whole minutes, the
    countdown is in seconds. */
module Pomodoro {
  import opened Optional
  import opened Text

  const DefaultWorkMinutes: int := 25
  const DefaultBreakMinutes: int := 5

  /** Every field of the timer that its logic reads or writes. */
  datatype TimerState = TimerState(
    workTime: int,           // minutes of a work session
    breakTime: int,          // minutes of a break
    currentTime: int,        // seconds left in the current session
    isRunning: bool,
    isWorkSession: bool,     // the phase: work (true) or break (false)
    completedSessions: nat)  // work sessions run down to zero so far

  /** Both durations are positive minutes. */
  predicate Configured(s: TimerState) {
    s.workTime > 0 && s.breakTime > 0
  }

  /** The invariant of a timer between events: positive durations and a
      countdown that has not reached zero. */
  predicate Valid(s: TimerState) {
    Configured(s) && s.currentTime > 0
  }

  /** The full length, in seconds, of the phase `isWork` selects. */
  function PhaseSeconds(isWork: bool, workTime: int, breakTime: int): int {
    (if isWork then workTime else breakTime) * 60
  }

  /** The timer as the constructor leaves it: defaults of 25 and 5 minutes,
      each replaced by a stored value when one is present, a full work session
      on the clock, not running. */
  function Loaded(savedWork: Option<int>, savedBreak: Option<int>, savedCompleted: Option<nat>): (s: TimerState)
    requires savedWork.Some? ==> savedWork.value > 0
    requires savedBreak.Some? ==> savedBreak.value > 0
    ensures Valid(s) && s.isWorkSession && !s.isRunning
    ensures s.currentTime == s.workTime * 60
    ensures s.workTime == (if savedWork.Some? then savedWork.value else 25)
    ensures s.breakTime == (if savedBreak.Some? then savedBreak.value else 5)
    ensures s.completedSessions == (if savedCompleted.Some? then savedCompleted.value else 0)
  {
    var work := savedWork.GetOr(DefaultWorkMinutes);
    TimerState(work, savedBreak.GetOr(DefaultBreakMinutes), work * 60, false, true, savedCompleted.GetOr(0))
  }

  /** `start`: the timer runs; it has no guard against already running, and
      nothing else changes. */
  function Started(s: TimerState): (r: TimerState)
    ensures r.isRunning
    ensures r.currentTime == s.currentTime && r.isWorkSession == s.isWorkSession
    ensures r.workTime == s.workTime && r.breakTime == s.breakTime
    ensures r.completedSessions == s.completedSessions
  {
    s.(isRunning := true)
  }

  /** `pause`: the timer stops; nothing else changes. */
  function Paused(s: TimerState): (r: TimerState)
    ensures !r.isRunning
    ensures r.currentTime == s.currentTime && r.isWorkSession == s.isWorkSession
    ensures r.workTime == s.workTime && r.breakTime == s.breakTime
    ensures r.completedSessions == s.completedSessions
  {
    s.(isRunning := false)
  }

  /** `reset`: pause, and put the full length of the current phase back on
      the clock; phase, counter and settings are kept. */
  function Rewound(s: TimerState): (r: TimerState)
    ensures !r.isRunning
    ensures r.currentTime == PhaseSeconds(s.isWorkSession, s.workTime, s.breakTime)
    ensures r.isWorkSession == s.isWorkSession && r.completedSessions == s.completedSessions
    ensures r.workTime == s.workTime && r.breakTime == s.breakTime
    ensures Configured(s) ==> Valid(r)
  {
    var p := Paused(s);
    p.(currentTime := if p.isWorkSession then p.workTime * 60 else p.breakTime * 60)
  }

  /** `sessionComplete`: pause and switch phase. Ending a work session counts
      it and puts a break on the clock; ending a break counts nothing and
      puts a work session on the clock. */
  function SessionCompleted(s: TimerState): (r: TimerState)
    ensures !r.isRunning
    ensures r.isWorkSession == !s.isWorkSession
    ensures s.isWorkSession ==> r.completedSessions == s.completedSessions + 1 && r.currentTime == s.breakTime * 60
    ensures !s.isWorkSession ==> r.completedSessions == s.completedSessions && r.currentTime == s.workTime * 60
    ensures r.workTime == s.workTime && r.breakTime == s.breakTime
    ensures Configured(s) ==> Valid(r)
  {
    var p := Paused(s);
    if p.isWorkSession then
      p.(completedSessions := p.completedSessions + 1, isWorkSession := false, currentTime := p.breakTime * 60)
    else
      p.(isWorkSession := true, currentTime := p.workTime * 60)
  }

  /** One firing of the one-second interval: count down by one, and when the
      countdown has run out complete the session. The settings never change;
      with positive durations the countdown is positive again afterwards. */
  function Ticked(s: TimerState): (r: TimerState)
    ensures s.currentTime > 1 ==> r == s.(currentTime := s.currentTime - 1)
    ensures s.currentTime <= 1 ==> r == SessionCompleted(s.(currentTime := s.currentTime - 1))
    ensures r.workTime == s.workTime && r.breakTime == s.breakTime
    ensures Configured(s) ==> Valid(r)
  {
    var d := s.(currentTime := s.currentTime - 1);
    if d.currentTime <= 0 then SessionCompleted(d) else d
  }

  /** `updateSettings`: store the new durations; a timer that is not running
      gets the full new length of its current phase, a running one keeps its
      countdown. Phase, run state and counter are never touched. */
  function SettingsUpdated(s: TimerState, workTime: int, breakTime: int): (r: TimerState)
    requires workTime > 0 && breakTime > 0
    ensures r.workTime == workTime && r.breakTime == breakTime
    ensures !s.isRunning ==> r.currentTime == PhaseSeconds(s.isWorkSession, workTime, breakTime)
    ensures s.isRunning ==> r.currentTime == s.currentTime
    ensures r.isRunning == s.isRunning && r.isWorkSession == s.isWorkSession
    ensures r.completedSessions == s.completedSessions
    ensures Valid(s) ==> Valid(r)
  {
    var u := s.(workTime := workTime, breakTime := breakTime);
    if !u.isRunning then u.(currentTime := if u.isWorkSession then workTime * 60 else breakTime * 60)
    else u
  }

  /** `n` consecutive ticks. */
  function Ticks(s: TimerState, n: nat): TimerState
    decreases n
  {
    if n == 0 then s else Ticks(Ticked(s), n - 1)
  }

  /** With positive durations the countdown never reaches zero between
      ticks, however many there are. */
  lemma {:induction false} TicksKeepValid(s: TimerState, n: nat)
    requires Valid(s)
    ensures Valid(Ticks(s, n))
    ensures Ticks(s, n).workTime == s.workTime && Ticks(s, n).breakTime == s.breakTime
    decreases n
  {
    if n > 0 {
      TicksKeepValid(Ticked(s), n - 1);
    }
  }

  /** Fewer ticks than the seconds left count down by exactly that many and
      change nothing else. */
  lemma {:induction false} TicksCountDown(s: TimerState, n: nat)
    requires n < s.currentTime
    ensures Ticks(s, n) == s.(currentTime := s.currentTime - n)
    decreases n
  {
    if n > 0 {
      TicksCountDown(Ticked(s), n - 1);
    }
  }

  /** As many ticks as seconds left complete the session, exactly once. */
  lemma {:induction false} TicksCompleteSession(s: TimerState)
    requires s.currentTime > 0
    ensures Ticks(s, s.currentTime as nat) == SessionCompleted(s.(currentTime := 0))
    decreases s.currentTime
  {
    var n := s.currentTime as nat;
    var next := Ticked(s);
    if n == 1 {
      assert Ticks(s, 1) == Ticks(next, 0);
    } else {
      assert next == s.(currentTime := n - 1);
      TicksCompleteSession(next);
      assert Ticks(s, n) == Ticks(next, n - 1);
      assert next.(currentTime := 0) == s.(currentTime := 0);
    }
  }

  /** Ticking `m` then `n` times is ticking `m + n` times. */
  lemma {:induction false} TicksSplit(s: TimerState, m: nat, n: nat)
    ensures Ticks(s, m + n) == Ticks(Ticks(s, m), n)
    decreases m
  {
    if m > 0 {
      TicksSplit(Ticked(s), m - 1, n);
    }
  }

  /** A full cycle: start a fresh work session and let it run down, then start
      the break and let it run down. The timer is back at the start of a work
      session, stopped, with exactly one more completed session. */
  lemma WorkBreakCycle(s: TimerState)
    requires Valid(s) && s.isWorkSession && s.currentTime == s.workTime * 60
    ensures Ticks(Started(Ticks(Started(s), s.workTime * 60)), s.breakTime * 60)
         == s.(isRunning := false, completedSessions := s.completedSessions + 1)
  {
    var onBreak := Ticks(Started(s), s.workTime * 60);
    TicksCompleteSession(Started(s));
    assert onBreak.currentTime == s.breakTime * 60 && !onBreak.isWorkSession;
    TicksCompleteSession(Started(onBreak));
  }

  /** Pausing and then starting again resumes the countdown where it was:
      the result is the same as if the timer had never been paused. */
  lemma PauseThenStartResumes(s: TimerState, n: nat)
    ensures Ticks(Started(Paused(s)), n) == Ticks(Started(s), n)
  {
    assert Started(Paused(s)) == Started(s);
  }

  /** `n.toString().padStart(2, '0')`: at least two digits, exactly two
      below 100, never truncated, and reading back as `n`. */
  function Pad2(n: nat): (r: string)
    ensures AllDigits(r) && |r| >= 2
    ensures |r| == 2 <==> n < 100
    ensures DecimalValue(r) == n
  {
    DecimalStringLength(n);
    PaddedDecimalValue(n, 2);
    PadStart(DecimalString(n), 2, '0')
  }

  /** The display text of `updateDisplay`: whole minutes and the remaining
      seconds, each padded to two digits, joined by a colon. */
  function FormatClock(t: nat): (r: string)
    ensures |r| >= 5 && r[|r| - 3] == ':'
    ensures forall k :: 0 <= k < |r| && k != |r| - 3 ==> IsDigit(r[k])
    ensures |r| == 5 <==> t < 6000
  {
    var minutes, seconds := Pad2(t / 60), Pad2(t % 60);
    ClockShape(minutes, seconds);
    minutes + ":" + seconds
  }

  /** Two digit fields joined by a colon: digits everywhere but three
      characters from the end, where the colon is. */
  lemma ClockShape(minutes: string, seconds: string)
    requires |seconds| == 2 && AllDigits(minutes) && AllDigits(seconds)
    ensures var r := minutes + ":" + seconds;
      && |r| == |minutes| + 3 && r[|r| - 3] == ':'
      && (forall k :: 0 <= k < |r| && k != |r| - 3 ==> IsDigit(r[k]))
  {
    var r := minutes + ":" + seconds;
    assert forall k :: |minutes| < k < |r| ==> r[k] == seconds[k - |minutes| - 1];
  }

  /** Reads a clock text back: minutes before the colon, seconds after. */
  function ParseClock(r: string): int
    requires |r| >= 3
  {
    60 * DecimalValue(r[..|r| - 3]) + DecimalValue(r[|r| - 2..])
  }

  /** The display loses nothing: its two fields read back as the minutes and
      the seconds below 60, which together give the countdown. */
  lemma FormatClockRoundTrip(t: nat)
    ensures ParseClock(FormatClock(t)) == t
    ensures DecimalValue(FormatClock(t)[|FormatClock(t)| - 2..]) == t % 60 < 60
  {
    var minutes, seconds := Pad2(t / 60), Pad2(t % 60);
    assert FormatClock(t) == minutes + ":" + seconds;
    FieldsReadBack(minutes, seconds);
  }

  /** ParseClock takes two fields joined by a colon apart again. */
  lemma FieldsReadBack(minutes: string, seconds: string)
    requires |seconds| == 2
    ensures ParseClock(minutes + ":" + seconds) == 60 * DecimalValue(minutes) + DecimalValue(seconds)
    ensures var r := minutes + ":" + seconds; DecimalValue(r[|r| - 2..]) == DecimalValue(seconds)
  {
    var r := minutes + ":" + seconds;
    assert r[..|r| - 3] == minutes && r[|r| - 2..] == seconds;
  }

  /** Below 100, the padded text is the tens digit (zero for a single digit)
      followed by the units digit. */
  lemma Pad2Digits(n: nat)
    requires n < 100
    ensures Pad2(n) == [DigitChar(n / 10), DigitChar(n % 10)]
  {
    var digits := DecimalString(n);
    if n < 10 {
      assert digits == [DigitChar(n)];
      assert PadStart(digits, 2, '0') == ['0'] + digits;
      assert DigitChar(n / 10) == '0';
    } else {
      assert DecimalString(n / 10) == [DigitChar(n / 10)];
      assert digits == [DigitChar(n / 10), DigitChar(n % 10)];
      assert PadStart(digits, 2, '0') == digits;
    }
  }

  /** Below 100 minutes the display is exactly five characters: the two
      digits of the minutes, a colon, the two digits of the seconds. */
  lemma FormatClockDigits(t: nat)
    requires t < 6000
    ensures FormatClock(t) == [DigitChar(t / 60 / 10), DigitChar(t / 60 % 10), ':', DigitChar(t % 60 / 10), DigitChar(t % 60 % 10)]
  {
    var minutes, seconds := Pad2(t / 60), Pad2(t % 60);
    assert FormatClock(t) == minutes + ":" + seconds;
    Pad2Digits(t / 60);
    Pad2Digits(t % 60);
    assert minutes + ":" + seconds == [minutes[0], minutes[1], ':', seconds[0], seconds[1]];
  }

  /** 65 seconds show as one minute, five seconds. */
  lemma FormatClockExample()
    ensures FormatClock(65) == "01:05"
  {
    var t := 65;
    FormatClockDigits(t);
    assert t / 60 / 10 == 0 && t / 60 % 10 == 1 && t % 60 / 10 == 0 && t % 60 % 10 == 5;
    assert DigitChar(0) == '0' && DigitChar(1) == '1' && DigitChar(5) == '5';
  }

  /** A full hour is sixty minutes on the display. */
  lemma FormatClockFullHour()
    ensures FormatClock(3600) == "60:00"
  {
    FormatClockWholeMinutes(60);
    assert DigitChar(6) == '6' && DigitChar(0) == '0';
  }

  /** A whole number of minutes shows zero seconds, and the minutes are never
      wrapped into hours: a full hour is "60:00". */
  lemma FormatClockWholeMinutes(m: nat)
    requires m < 100
    ensures FormatClock(60 * m) == [DigitChar(m / 10), DigitChar(m % 10), ':', '0', '0']
  {
    var t := 60 * m;
    FormatClockDigits(t);
    assert t / 60 == m && t % 60 == 0;
  }

  /** The timer object. Each method changes the fields exactly as the
      corresponding function above changes a TimerState. */
  class Timer {
    var workTime: int
    var breakTime: int
    var currentTime: int
    var isRunning: bool
    var isWorkSession: bool
    var completedSessions: nat

    function State(): TimerState
      reads this
    {
      TimerState(workTime, breakTime, currentTime, isRunning, isWorkSession, completedSessions)
    }

    /** Defaults, then the stored durations and counter when present. */
    constructor (savedWork: Option<int>, savedBreak: Option<int>, savedCompleted: Option<nat>)
      requires savedWork.Some? ==> savedWork.value > 0
      requires savedBreak.Some? ==> savedBreak.value > 0
      ensures State() == Loaded(savedWork, savedBreak, savedCompleted)
    {
      var work := DefaultWorkMinutes;
      if savedWork.Some? {
        work := savedWork.value;
      }
      var rest := DefaultBreakMinutes;
      if savedBreak.Some? {
        rest := savedBreak.value;
      }
      var completed := 0;
      if savedCompleted.Some? {
        completed := savedCompleted.value;
      }
      workTime, breakTime, completedSessions := work, rest, completed;
      currentTime := work * 60;
      isRunning, isWorkSession := false, true;
    }

    method UpdateSettings(newWork: int, newBreak: int)
      requires newWork > 0 && newBreak > 0
      modifies this
      ensures State() == SettingsUpdated(old(State()), newWork, newBreak)
    {
      workTime := newWork;
      breakTime := newBreak;
      if !isRunning {
        currentTime := if isWorkSession then workTime * 60 else breakTime * 60;
      }
    }

    method Start()
      modifies this
      ensures State() == Started(old(State()))
    {
      isRunning := true;
    }

    /** The body of the one-second interval callback. */
    method Tick()
      modifies this
      ensures State() == Ticked(old(State()))
    {
      currentTime := currentTime - 1;
      if currentTime <= 0 {
        SessionComplete();
      }
    }

    method Pause()
      modifies this
      ensures State() == Paused(old(State()))
    {
      isRunning := false;
    }

    method Reset()
      modifies this
      ensures State() == Rewound(old(State()))
    {
      Pause();
      currentTime := if isWorkSession then workTime * 60 else breakTime * 60;
    }

    method SessionComplete()
      modifies this
      ensures State() == SessionCompleted(old(State()))
    {
      Pause();
      if isWorkSession {
        completedSessions := completedSessions + 1;
        isWorkSession := false;
        currentTime := breakTime * 60;
      } else {
        isWorkSession := true;
        currentTime := workTime * 60;
      }
    }
  }
}
