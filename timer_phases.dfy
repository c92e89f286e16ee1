/** The pomodoro cycle shared by both Timer components: the three phases,
    their lengths, the routing from one phase to the next, and the strings
    the components render from the countdown. */
module TimerPhases {
  import opened Js
  import Arithmetic

  datatype Phase = Focus | ShortBreak | LongBreak

  /** The value `currentState` holds for each phase (TIMER_STATES). */
  function Key(p: Phase): (k: string)
    ensures k == "focus" <==> p == Focus
    ensures k == "short_break" <==> p == ShortBreak
    ensures k == "long_break" <==> p == LongBreak
  {
    match p
    case Focus => "focus"
    case ShortBreak => "short_break"
    case LongBreak => "long_break"
  }

  /** getStateDuration: seconds per state value. A value that is not one of
      the three keys gets the focus length. */
  function StateDuration(state: string): (d: nat)
    ensures state == Key(ShortBreak) ==> d == 5 * 60
    ensures state == Key(LongBreak) ==> d == 15 * 60
    ensures state != Key(ShortBreak) && state != Key(LongBreak) ==> d == 25 * 60
  {
    if state == "focus" then 25 * 60
    else if state == "short_break" then 5 * 60
    else if state == "long_break" then 15 * 60
    else 25 * 60
  }

  function Duration(p: Phase): (d: nat)
    ensures d > 0 && d % 60 == 0
  {
    StateDuration(Key(p))
  }

  /** getStateLabel: the tab caption; an unknown value is labelled Focus,
      so a state is labelled Focus exactly when getStateDuration gives it the
      focus length. */
  function StateLabel(state: string): (caption: string)
    ensures state == Key(Focus) ==> caption == "Focus"
    ensures state == Key(ShortBreak) ==> caption == "Short Break"
    ensures state == Key(LongBreak) ==> caption == "Long Break"
    ensures caption == "Focus" <==> StateDuration(state) == Duration(Focus)
    ensures caption == "Focus" || caption == "Short Break" || caption == "Long Break"
  {
    if state == "short_break" then "Short Break"
    else if state == "long_break" then "Long Break"
    else "Focus"
  }

  /** getNextState: a focus phase is followed by a long break exactly when
      the session it completes makes the count a multiple of `n`, and by a
      short break otherwise; any break is followed by focus. */
  function NextPhase(current: Phase, focusSessions: nat, n: int): (next: Phase)
    requires n > 0
    ensures current == Focus ==> (next == LongBreak <==> (focusSessions + 1) % n == 0)
    ensures current == Focus ==> next != Focus
    ensures current != Focus ==> next == Focus
  {
    if current == Focus then
      if (focusSessions + 1) % n == 0 then LongBreak else ShortBreak
    else Focus
  }

  /** The part of the state skipToNext advances: the phase and the number of
      completed focus sessions. */
  datatype Progress = Progress(phase: Phase, focusSessions: nat)

  /** skipToNext on the phase and the session count: the phase advances and
      the count grows by one exactly when a focus phase is left. */
  function Advance(p: Progress, n: int): (q: Progress)
    requires n > 0
    ensures q.phase == NextPhase(p.phase, p.focusSessions, n)
    ensures q.focusSessions == p.focusSessions + (if p.phase == Focus then 1 else 0)
  {
    Progress(NextPhase(p.phase, p.focusSessions, n),
             if p.phase == Focus then p.focusSessions + 1 else p.focusSessions)
  }

  /** `steps` consecutive completions, each one an Advance. */
  function Completions(p: Progress, n: int, steps: nat): Progress
    requires n > 0
    decreases steps
  {
    if steps == 0 then p else Advance(Completions(p, n, steps - 1), n)
  }

  /** Completion routing over a whole run: starting in focus with `s`
      sessions done, after 2k completions the timer is in focus again with
      s + k sessions, and the break that follows the (s + k + 1)-th focus
      session is a long break exactly when s + k + 1 is a multiple of n. */
  lemma {:induction false} RoutingOverRun(s: nat, n: int, k: nat)
    requires n > 0
    ensures Completions(Progress(Focus, s), n, 2 * k) == Progress(Focus, s + k)
    ensures Completions(Progress(Focus, s), n, 2 * k + 1)
         == Progress(if (s + k + 1) % n == 0 then LongBreak else ShortBreak, s + k + 1)
    decreases k
  {
    if k > 0 {
      RoutingOverRun(s, n, k - 1);
      assert Completions(Progress(Focus, s), n, 2 * k)
          == Advance(Completions(Progress(Focus, s), n, 2 * (k - 1) + 1), n);
    }
  }

  /** A number padded to at least two digits, as `toString().padStart(2, '0')`;
      the digits read back as the number. */
  function TwoDigits(n: nat): (r: string)
    ensures |r| >= 2 && AllDigits(r) && DigitsValue(r) == n
    ensures n < 100 ==> |r| == 2
  {
    var s := NatToString(n);
    assert n < 100 ==> |s| <= 2 by {
      if 10 <= n < 100 { assert s == NatToString(n / 10) + [DigitChar(n % 10)]; }
    }
    NatToStringValue(n);
    if |s| >= 2 then s
    else
      LeadingZerosValue(2 - |s|, s);
      assert PadStart(s, 2, '0') == seq(2 - |s|, _ => '0') + s;
      PadStart(s, 2, '0')
  }

  /** A clock string: a minutes field, ':' and a two-character seconds field. */
  function Clock(m: string, sec: string): (r: string)
    requires |sec| == 2
    ensures |r| == |m| + 3 && r[|r| - 3] == ':'
    ensures r[..|r| - 3] == m && r[|r| - 2..] == sec
  {
    m + ":" + sec
  }

  /** formatTime: minutes and seconds, each padded to two digits and joined
      by ':'. What it shows reads back as the countdown: the minutes field is
      seconds / 60 and the seconds field seconds % 60, which
      together give the number of seconds again. */
  function FormatTime(seconds: nat): (r: string)
    ensures |r| >= 5 && r[|r| - 3] == ':'
    ensures AllDigits(r[..|r| - 3]) && AllDigits(r[|r| - 2..])
    ensures DigitsValue(r[..|r| - 3]) == seconds / 60
    ensures DigitsValue(r[|r| - 2..]) == seconds % 60
    ensures DigitsValue(r[..|r| - 3]) * 60 + DigitsValue(r[|r| - 2..]) == seconds
  {
    Clock(TwoDigits(seconds / 60), TwoDigits(seconds % 60))
  }

  /** The document title: phase caption, " - ", then a clock whose minutes
      are unpadded (no leading zero) and whose seconds have two digits; the
      two fields read back as timeLeft / 60 and timeLeft % 60. */
  function Title(p: Phase, timeLeft: nat): (r: string)
    ensures |r| >= |StateLabel(Key(p))| + 3 + 4
    ensures r[..|StateLabel(Key(p))| + 3] == StateLabel(Key(p)) + " - "
    ensures var clock := r[|StateLabel(Key(p))| + 3..];
      && clock[|clock| - 3] == ':'
      && AllDigits(clock[..|clock| - 3]) && AllDigits(clock[|clock| - 2..])
      && DigitsValue(clock[..|clock| - 3]) == timeLeft / 60
      && DigitsValue(clock[|clock| - 2..]) == timeLeft % 60
      && (|clock| > 4 ==> clock[0] != '0')
  {
    var prefix := StateLabel(Key(p)) + " - ";
    var minutes := NatToString(timeLeft / 60);
    NatToStringValue(timeLeft / 60);
    var clock := Clock(minutes, TwoDigits(timeLeft % 60));
    var r := prefix + clock;
    assert r[..|prefix|] == prefix && r[|prefix|..] == clock;
    r
  }

  /** From ten minutes up, the title's clock is the clock on the dial; below
      that the title drops the leading zero of the minutes. */
  lemma TitleShowsDial(p: Phase, timeLeft: nat)
    ensures timeLeft >= 600 ==> Title(p, timeLeft) == StateLabel(Key(p)) + " - " + FormatTime(timeLeft)
    ensures timeLeft < 600 ==> Title(p, timeLeft) != StateLabel(Key(p)) + " - " + FormatTime(timeLeft)
  {
    var m := timeLeft / 60;
    var s := NatToString(m);
    if timeLeft >= 600 {
      assert |s| >= 2;
      assert TwoDigits(m) == s;
    } else {
      assert |s| == 1;
      assert |TwoDigits(m)| == 2;
    }
  }

  /** True when a completed-session count routes the next break to a long one. */
  predicate LongBreakAt(count: int, n: int)
    requires n > 0
  {
    count % n == 0
  }

  /** The "N left" of the session indicator: how many more focus sessions
      until the long break. It lies in [1, n], the count reaches a multiple
      of n after exactly that many more sessions and not before; the
      indicator's filled dots (focusSessions % n) and this number add up to n. */
  function SessionsLeft(focusSessions: nat, n: int): (left: int)
    requires n > 0
    ensures 1 <= left <= n
    ensures LongBreakAt(focusSessions + left, n)
    ensures forall c :: focusSessions < c < focusSessions + left ==> !LongBreakAt(c, n)
    ensures focusSessions % n + left == n
  {
    var q := focusSessions / n;
    var left := n - focusSessions % n;
    assert focusSessions + left == (q + 1) * n;
    Arithmetic.DivModUnique(focusSessions + left, n, q + 1, 0);
    forall c | focusSessions < c < focusSessions + left
      ensures !LongBreakAt(c, n)
    {
      Arithmetic.NoMultipleBetween(c, n, q);
    }
    left
  }
}
