/**
 * The fasting-session timer (src/components/FastTimer.tsx).
 *
 * The component keeps three pieces of state: whether the fast is running,
 * the elapsed seconds and the chosen target in hours. A one-second interval
 * adds 1 to the elapsed time while the fast runs; the buttons start, pause
 * and complete the fast and pick the target. Completing a fast writes the
 * user's counters back through `updateUserData`, a merge of the fields it
 * lists. The display helpers `formatTime`, `getProgress` and
 * `getFastingPhase` are pure.
 */
module FastTimer {
  import opened Text
  import opened Wrappers

  const SecondsPerHour: nat := 3600
  const PointsPerHour: nat := 10
  const DefaultTargetHours: nat := 16
  /** The targets the selector offers, in button order. */
  const TargetOptions: seq<nat> := [12, 14, 16, 18, 20, 24]

  /** The counters the timer reads from its `userData` prop. */
  datatype UserData = UserData(name: string, level: int, fastPoints: int, currentStreak: int, totalFasts: int)

  /** Counters that make sense together: nothing negative, and a streak never longer than the number of fasts. */
  predicate Consistent(u: UserData) {
    u.fastPoints >= 0 && 0 <= u.currentStreak <= u.totalFasts
  }

  // ---------------------------------------------------------------------
  // Session state as a value, and its transitions
  // ---------------------------------------------------------------------

  datatype Session = Session(isActive: bool, timeElapsed: nat, targetHours: nat)

  /** What can happen to a session: the interval fires, or a button is pressed. */
  datatype Event = Tick | Start | Pause | Complete | SelectTarget(hours: nat)

  const Initial: Session := Session(false, 0, DefaultTargetHours)

  /**
   * One transition. The interval only runs while the fast is active, so a
   * tick of an inactive session changes nothing. Start and pause only flip
   * `isActive`; complete stops the fast and clears the elapsed time; the
   * selector sets the target whatever the session is doing.
   */
  function Step(s: Session, e: Event): (t: Session)
    ensures t.timeElapsed != s.timeElapsed ==>
              (e == Tick && s.isActive && t.timeElapsed == s.timeElapsed + 1) ||
              (e == Complete && t.timeElapsed == 0)
    ensures e == Tick && s.isActive ==> t.timeElapsed == s.timeElapsed + 1
    ensures t.targetHours != s.targetHours ==> e.SelectTarget? && t.targetHours == e.hours
    ensures t.isActive <==> e == Start || (s.isActive && e != Pause && e != Complete)
    ensures e == Complete ==> t.timeElapsed == 0
    ensures e.SelectTarget? ==> t.targetHours == e.hours
  {
    match e
    case Tick => if s.isActive then s.(timeElapsed := s.timeElapsed + 1) else s
    case Start => s.(isActive := true)
    case Pause => s.(isActive := false)
    case Complete => s.(isActive := false, timeElapsed := 0)
    case SelectTarget(h) => s.(targetHours := h)
  }

  /** The session after a sequence of events, first event first. */
  function Run(s: Session, evs: seq<Event>): Session
    decreases |evs|
  {
    if evs == [] then s else Run(Step(s, evs[0]), evs[1..])
  }

  function Ticks(k: nat): (evs: seq<Event>)
    ensures |evs| == k && forall i :: 0 <= i < k ==> evs[i] == Tick
  {
    if k == 0 then [] else [Tick] + Ticks(k - 1)
  }

  function CountTicks(evs: seq<Event>): (n: nat)
    ensures n <= |evs|
  {
    if evs == [] then 0 else (if evs[0] == Tick then 1 else 0) + CountTicks(evs[1..])
  }

  /** Every target chosen in `evs` comes from the selector's buttons. */
  predicate FromSelector(evs: seq<Event>) {
    forall i :: 0 <= i < |evs| && evs[i].SelectTarget? ==> evs[i].hours in TargetOptions
  }

  lemma {:induction false} TargetStaysAnOption(s: Session, evs: seq<Event>)
    requires s.targetHours in TargetOptions && FromSelector(evs)
    ensures Run(s, evs).targetHours in TargetOptions
    decreases |evs|
  {
    if evs != [] {
      assert FromSelector(evs[1..]) by {
        forall i | 0 <= i < |evs[1..]| && evs[1..][i].SelectTarget?
          ensures evs[1..][i].hours in TargetOptions
        {
          assert evs[1..][i] == evs[i + 1];
        }
      }
      TargetStaysAnOption(Step(s, evs[0]), evs[1..]);
    }
  }

  /** From the initial state, whatever buttons are pressed, the target is one the selector offers. */
  lemma TargetAlwaysAnOption(evs: seq<Event>)
    requires FromSelector(evs)
    ensures Run(Initial, evs).targetHours in TargetOptions
  {
    TargetStaysAnOption(Initial, evs);
  }

  /**
   * Until the fast is completed the elapsed time never goes down, and it
   * grows by at most one per tick.
   */
  lemma {:induction false} ElapsedGrowsUntilComplete(s: Session, evs: seq<Event>)
    requires Complete !in evs
    ensures s.timeElapsed <= Run(s, evs).timeElapsed <= s.timeElapsed + CountTicks(evs)
    decreases |evs|
  {
    if evs != [] {
      assert Complete !in evs[1..] by {
        assert forall e :: e in evs[1..] ==> e in evs;
      }
      ElapsedGrowsUntilComplete(Step(s, evs[0]), evs[1..]);
    }
  }

  /** While running, k ticks add exactly k seconds and change nothing else. */
  lemma {:induction false} RunningTicksAdd(s: Session, k: nat)
    requires s.isActive
    ensures Run(s, Ticks(k)) == s.(timeElapsed := s.timeElapsed + k)
    decreases k
  {
    if k > 0 {
      assert Ticks(k)[1..] == Ticks(k - 1);
      RunningTicksAdd(Step(s, Tick), k - 1);
    }
  }

  /** While paused, ticks change nothing. */
  lemma {:induction false} PausedTicksIgnored(s: Session, k: nat)
    requires !s.isActive
    ensures Run(s, Ticks(k)) == s
    decreases k
  {
    if k > 0 {
      assert Ticks(k)[1..] == Ticks(k - 1);
      PausedTicksIgnored(s, k - 1);
    }
  }

  /** Pausing a running fast, letting time pass, and starting again resumes from the same count. */
  lemma PauseThenStartResumes(s: Session, idle: nat)
    requires s.isActive
    ensures Run(s, [Pause] + Ticks(idle) + [Start]) == s
  {
    var paused := s.(isActive := false);
    assert [Pause] + Ticks(idle) + [Start] == [Pause] + (Ticks(idle) + [Start]);
    RunAppend([Pause], Ticks(idle) + [Start], s);
    assert Run(s, [Pause]) == paused;
    assert Run(paused, [Start]) == s;
    RunAppend(Ticks(idle), [Start], paused);
    PausedTicksIgnored(paused, idle);
  }

  lemma {:induction false} RunAppend(a: seq<Event>, b: seq<Event>, s: Session)
    ensures Run(s, a + b) == Run(Run(s, a), b)
    decreases |a|
  {
    if a == [] {
      assert a + b == b;
    } else {
      assert (a + b)[1..] == a[1..] + b;
      RunAppend(a[1..], b, Step(s, a[0]));
    }
  }

  // ---------------------------------------------------------------------
  // Completing a fast
  // ---------------------------------------------------------------------

  /** The result of `completeFast`, standing for the toast it shows. */
  datatype Outcome = Completed(pointsEarned: nat) | Interrupted

  lemma WholeHoursAtLeastTarget(timeElapsed: nat, targetHours: nat)
    requires timeElapsed >= targetHours * SecondsPerHour
    ensures timeElapsed / SecondsPerHour >= targetHours
  {
  }

  /**
   * The completion rule applied to the user's counters. Reaching the target
   * earns ten points per whole hour fasted and adds one to the streak and
   * to the number of fasts; stopping earlier only breaks the streak. The
   * name and the level are never touched.
   */
  function Settle(u: UserData, timeElapsed: nat, targetHours: nat): (r: (UserData, Outcome))
    ensures r.0.name == u.name && r.0.level == u.level
    ensures r.1.Completed? <==> timeElapsed >= targetHours * SecondsPerHour
    ensures r.1.Completed? ==>
              var hours := r.1.pointsEarned / PointsPerHour;
              r.1.pointsEarned % PointsPerHour == 0 &&
              hours * SecondsPerHour <= timeElapsed < (hours + 1) * SecondsPerHour &&
              r.1.pointsEarned >= targetHours * PointsPerHour &&
              r.0.fastPoints == u.fastPoints + r.1.pointsEarned &&
              r.0.currentStreak == u.currentStreak + 1 &&
              r.0.totalFasts == u.totalFasts + 1
    ensures r.1.Interrupted? ==>
              r.0.currentStreak == 0 && r.0.fastPoints == u.fastPoints && r.0.totalFasts == u.totalFasts
    ensures Consistent(u) ==> Consistent(r.0)
  {
    if timeElapsed >= targetHours * SecondsPerHour then
      var pointsEarned := (timeElapsed / SecondsPerHour) * PointsPerHour;
      WholeHoursAtLeastTarget(timeElapsed, targetHours);
      (u.(fastPoints := u.fastPoints + pointsEarned,
          currentStreak := u.currentStreak + 1,
          totalFasts := u.totalFasts + 1),
       Completed(pointsEarned))
    else
      (u.(currentStreak := 0), Interrupted)
  }

  /** Start a fast, let it run for the whole default target, complete it: 160 points, one more fast. */
  lemma SixteenHourFast(u: UserData)
    ensures var s := Run(Initial, [Start] + Ticks(16 * SecondsPerHour));
            s == Session(true, 16 * SecondsPerHour, 16) &&
            Settle(u, s.timeElapsed, s.targetHours) ==
              (u.(fastPoints := u.fastPoints + 160, currentStreak := u.currentStreak + 1,
                  totalFasts := u.totalFasts + 1), Completed(160))
  {
    RunAppend([Start], Ticks(16 * SecondsPerHour), Initial);
    RunningTicksAdd(Initial.(isActive := true), 16 * SecondsPerHour);
  }

  /** Completing after eight hours of a sixteen-hour target breaks the streak and awards nothing. */
  lemma EightHourAttempt(u: UserData)
    ensures var s := Run(Initial, [Start] + Ticks(8 * SecondsPerHour));
            Settle(u, s.timeElapsed, s.targetHours) == (u.(currentStreak := 0), Interrupted)
  {
    RunAppend([Start], Ticks(8 * SecondsPerHour), Initial);
    RunningTicksAdd(Initial.(isActive := true), 8 * SecondsPerHour);
  }

  // ---------------------------------------------------------------------
  // Display helpers
  // ---------------------------------------------------------------------

  /** Hours, minutes and seconds of a duration; only the hours are unbounded. */
  function ClockFields(seconds: nat): (f: (nat, nat, nat))
    ensures f.1 < 60 && f.2 < 60
    ensures f.0 * SecondsPerHour + f.1 * 60 + f.2 == seconds
  {
    (seconds / SecondsPerHour, (seconds % SecondsPerHour) / 60, seconds % 60)
  }

  /** `n.toString().padStart(2, '0')`: at least two characters, exactly two below 100. */
  function Pad2(n: nat): (s: string)
    ensures |s| >= 2 && (n < 100 ==> |s| == 2)
    ensures n >= 10 ==> s == Decimal(n)
  {
    assert n >= 10 ==> Decimal(n) == Decimal(n / 10) + [DigitChar(n % 10)];
    PadStart(Decimal(n), 2, '0')
  }

  /** A padded field is all digits and reads back as the number it was written from. */
  lemma Pad2ReadsBack(n: nat)
    ensures AllDigits(Pad2(n)) && DecimalValue(Pad2(n)) == n
  {
    PaddedDecimalRoundTrip(n, 2);
  }

  /** `formatTime`: HH:MM:SS, each field at least two digits. */
  function FormatTime(seconds: nat): (t: string)
    ensures |t| >= 8 && t[|t| - 6] == ':' && t[|t| - 3] == ':'
  {
    var f := ClockFields(seconds);
    Pad2(f.0) + ":" + Pad2(f.1) + ":" + Pad2(f.2)
  }

  /** Cuts a clock string at its last two colons, which must leave two characters after each. */
  function SplitClock(t: string): Option<(string, string, string)> {
    if |t| < 8 || t[|t| - 6] != ':' || t[|t| - 3] != ':' then None
    else Some((t[..|t| - 6], t[|t| - 5..|t| - 3], t[|t| - 2..]))
  }

  /** Reads three clock fields: digits, then minutes and seconds below 60. */
  function ReadFields(hh: string, mm: string, ss: string): Option<nat> {
    if !AllDigits(hh) || !AllDigits(mm) || !AllDigits(ss) then None
    else if DecimalValue(mm) >= 60 || DecimalValue(ss) >= 60 then None
    else Some(DecimalValue(hh) * SecondsPerHour + DecimalValue(mm) * 60 + DecimalValue(ss))
  }

  /** Reads a clock string back into seconds. */
  function ReadClock(t: string): Option<nat> {
    match SplitClock(t)
    case None => None
    case Some(fields) => ReadFields(fields.0, fields.1, fields.2)
  }

  lemma SplitClockFields(hh: string, mm: string, ss: string)
    requires |hh| >= 2 && |mm| == 2 && |ss| == 2
    ensures SplitClock(hh + ":" + mm + ":" + ss) == Some((hh, mm, ss))
  {
    var t := hh + ":" + mm + ":" + ss;
    assert t[..|t| - 6] == hh;
    assert t[|t| - 5..|t| - 3] == mm;
    assert t[|t| - 2..] == ss;
  }

  lemma ReadClockSplits(hh: string, mm: string, ss: string)
    requires |hh| >= 2 && |mm| == 2 && |ss| == 2
    ensures ReadClock(hh + ":" + mm + ":" + ss) == ReadFields(hh, mm, ss)
  {
    SplitClockFields(hh, mm, ss);
  }

  lemma ReadFieldsValue(hh: string, mm: string, ss: string, h: nat, m: nat, sec: nat)
    requires AllDigits(hh) && AllDigits(mm) && AllDigits(ss)
    requires DecimalValue(hh) == h && DecimalValue(mm) == m && DecimalValue(ss) == sec
    requires m < 60 && sec < 60
    ensures ReadFields(hh, mm, ss) == Some(h * SecondsPerHour + m * 60 + sec)
  {
  }

  /** Three fields written by `Pad2` and joined by colons read back as the seconds they stand for. */
  lemma PaddedFieldsRoundTrip(h: nat, m: nat, sec: nat)
    requires m < 60 && sec < 60
    ensures ReadClock(Pad2(h) + ":" + Pad2(m) + ":" + Pad2(sec)) == Some(h * SecondsPerHour + m * 60 + sec)
  {
    Pad2ReadsBack(h);
    Pad2ReadsBack(m);
    Pad2ReadsBack(sec);
    ReadClockSplits(Pad2(h), Pad2(m), Pad2(sec));
    ReadFieldsValue(Pad2(h), Pad2(m), Pad2(sec), h, m, sec);
  }

  /** `formatTime` loses nothing: its text reads back as the number of seconds it was given. */
  lemma FormatTimeRoundTrip(seconds: nat)
    ensures ReadClock(FormatTime(seconds)) == Some(seconds)
  {
    var f := ClockFields(seconds);
    assert FormatTime(seconds) == Pad2(f.0) + ":" + Pad2(f.1) + ":" + Pad2(f.2);
    PaddedFieldsRoundTrip(f.0, f.1, f.2);
  }

  /** `getProgress`: the percentage of the target reached, capped at 100. */
  function ProgressPercent(timeElapsed: nat, targetHours: nat): (p: real)
    requires targetHours > 0
    ensures 0.0 <= p <= 100.0
    ensures p == 100.0 <==> timeElapsed >= targetHours * SecondsPerHour
    ensures p < 100.0 ==> p * (targetHours * SecondsPerHour) as real == timeElapsed as real * 100.0
  {
    var targetSeconds := targetHours * SecondsPerHour;
    var ratio := (timeElapsed as real / targetSeconds as real) * 100.0;
    RatioReachesHundred(timeElapsed, targetSeconds);
    if ratio < 100.0 then ratio else 100.0
  }

  lemma RatioReachesHundred(elapsed: nat, target: nat)
    requires target > 0
    ensures (elapsed as real / target as real) * 100.0 >= 100.0 <==> elapsed >= target
    ensures (elapsed as real / target as real) * 100.0 * target as real == elapsed as real * 100.0
  {
    var q := elapsed as real / target as real;
    assert q * target as real == elapsed as real;
    assert q >= 1.0 <==> elapsed as real >= target as real;
  }

  lemma ProgressMonotone(a: nat, b: nat, targetHours: nat)
    requires targetHours > 0 && a <= b
    ensures ProgressPercent(a, targetHours) <= ProgressPercent(b, targetHours)
  {
    var ts := (targetHours * SecondsPerHour) as real;
    assert a as real / ts <= b as real / ts;
  }

  /** The five phases of `getFastingPhase`, earliest first. */
  datatype Phase = Digestao | InicioDoJejum | QueimaDeGordura | CetoseLeve | CetoseProfunda {
    function Title(): string {
      match this
      case Digestao => "Digestão"
      case InicioDoJejum => "Início do Jejum"
      case QueimaDeGordura => "Queima de Gordura"
      case CetoseLeve => "Cetose Leve"
      case CetoseProfunda => "Cetose Profunda"
    }

    function Index(): nat {
      match this
      case Digestao => 0
      case InicioDoJejum => 1
      case QueimaDeGordura => 2
      case CetoseLeve => 3
      case CetoseProfunda => 4
    }
  }

  /** `getFastingPhase`: a new phase every four whole hours, the last one from sixteen hours on. */
  function FastingPhase(timeElapsed: nat): (p: Phase)
    ensures p.Index() == if timeElapsed / SecondsPerHour / 4 < 4 then timeElapsed / SecondsPerHour / 4 else 4
  {
    var hours := timeElapsed / SecondsPerHour;
    if hours < 4 then Digestao
    else if hours < 8 then InicioDoJejum
    else if hours < 12 then QueimaDeGordura
    else if hours < 16 then CetoseLeve
    else CetoseProfunda
  }

  lemma PhaseDependsOnlyOnWholeHours(a: nat, b: nat)
    requires a / SecondsPerHour == b / SecondsPerHour
    ensures FastingPhase(a) == FastingPhase(b)
  {
  }

  lemma PhaseMonotone(a: nat, b: nat)
    requires a <= b
    ensures FastingPhase(a).Index() <= FastingPhase(b).Index()
  {
    assert a / SecondsPerHour <= b / SecondsPerHour;
  }

  /** The phase changes exactly when a multiple of four hours up to sixteen is reached. */
  lemma PhaseBreaks(k: nat)
    requires 1 <= k <= 4
    ensures FastingPhase(4 * k * SecondsPerHour - 1).Index() == k - 1
    ensures FastingPhase(4 * k * SecondsPerHour).Index() == k
  {
  }

  lemma DeepKetosisFromSixteenHours(timeElapsed: nat)
    requires timeElapsed >= 16 * SecondsPerHour
    ensures FastingPhase(timeElapsed) == CetoseProfunda
    ensures FastingPhase(timeElapsed).Title() == "Cetose Profunda"
  {
  }

  // ---------------------------------------------------------------------
  // The component's state, updated in place
  // ---------------------------------------------------------------------

  class Timer {
    var isActive: bool
    var timeElapsed: nat
    var targetHours: nat

    function State(): Session
      reads this
    {
      Session(isActive, timeElapsed, targetHours)
    }

    ghost predicate Valid()
      reads this
    {
      targetHours in TargetOptions
    }

    constructor ()
      ensures Valid() && State() == Initial
    {
      isActive, timeElapsed, targetHours := false, 0, DefaultTargetHours;
    }

    /** The interval callback; it only fires while the fast is active. */
    method Tick()
      requires Valid()
      modifies this
      ensures Valid() && State() == Step(old(State()), Event.Tick)
    {
      if isActive {
        timeElapsed := timeElapsed + 1;
      }
    }

    method StartFast()
      requires Valid()
      modifies this
      ensures Valid() && State() == Step(old(State()), Start)
    {
      isActive := true;
    }

    method PauseFast()
      requires Valid()
      modifies this
      ensures Valid() && State() == Step(old(State()), Pause)
    {
      isActive := false;
    }

    /** `completeFast`: settles the counters, then stops the fast and clears the elapsed time. */
    method CompleteFast(userData: UserData) returns (updated: UserData, outcome: Outcome)
      requires Valid()
      modifies this
      ensures (updated, outcome) == Settle(userData, old(timeElapsed), old(targetHours))
      ensures Valid() && State() == Step(old(State()), Complete)
    {
      if timeElapsed >= targetHours * SecondsPerHour {
        var pointsEarned := (timeElapsed / SecondsPerHour) * PointsPerHour;
        updated := userData.(fastPoints := userData.fastPoints + pointsEarned,
                             currentStreak := userData.currentStreak + 1,
                             totalFasts := userData.totalFasts + 1);
        outcome := Completed(pointsEarned);
        isActive := false;
        timeElapsed := 0;
      } else {
        updated := userData.(currentStreak := 0);
        outcome := Interrupted;
        isActive := false;
        timeElapsed := 0;
      }
    }

    /** `getProgress` over the timer's own state; the invariant keeps the target positive. */
    function Progress(): (p: real)
      requires Valid()
      reads this
      ensures p == ProgressPercent(timeElapsed, targetHours)
      ensures 0.0 <= p <= 100.0
      ensures p == 100.0 <==> timeElapsed >= targetHours * SecondsPerHour
    {
      ProgressPercent(timeElapsed, targetHours)
    }

    /** A target button; it is enabled whether or not a fast is running. */
    method SelectTarget(hours: nat)
      requires Valid() && hours in TargetOptions
      modifies this
      ensures Valid() && State() == Step(old(State()), Event.SelectTarget(hours))
    {
      targetHours := hours;
    }
  }

  /** A client: pausing and starting again leaves the count where it was. */
  method PauseAndResume(t: Timer)
    requires t.Valid() && t.isActive
    modifies t
    ensures t.Valid() && t.State() == old(t.State())
  {
    t.PauseFast();
    t.Tick();
    t.StartFast();
  }
}
