/** The timer on the home page: the three-phase pomodoro cycle, a countdown
    that drops by one second per tick, automatic continuation into the next
    phase, and a start instant kept in the browser's key-value store so that
    a reload can recompute the countdown. */
module HomeTimer {
  import opened TimerPhases
  import Arithmetic

  /** The key the mount effect reads and the start/resume button writes. */
  const StartKey: string := "pomodoroStart"

  /** The key switchToState and skipToNext write; it differs from StartKey
      by one letter, so what they store is never read back. */
  const SwitchKey: string := "promodoroStart"

  function Max0(x: int): nat
  {
    if x > 0 then x else 0
  }

  /** The mount effect's arithmetic: whole seconds elapsed since the saved
      start instant (milliseconds, rounded down) are taken off the duration,
      and a negative result becomes 0. It never exceeds the duration when
      the saved instant is not in the future. */
  function RestoredTimeLeft(duration: nat, savedStart: int, now: int): (t: nat)
    ensures savedStart <= now ==> t <= duration
    ensures t == Max0(duration - (now - savedStart) / 1000)
  {
    var elapsed := (now - savedStart) / 1000;
    var remaining := duration - elapsed;
    if remaining > 0 then remaining else 0
  }

  /** The start instant toggleTimer saves when the countdown starts or
      resumes: as many milliseconds before now as the phase has already run,
      so that restoring from it at that same instant gives the countdown
      back, and it is not in the future while the countdown is within the
      duration. */
  function StartInstant(now: int, duration: nat, timeLeft: nat): (start: int)
    ensures RestoredTimeLeft(duration, start, now) == timeLeft
    ensures timeLeft <= duration ==> start <= now
  {
    Arithmetic.DivAddMultiple(0, 1000, duration - timeLeft);
    now - (duration - timeLeft) * 1000
  }

  /** Saving the start instant and restoring from it is drift-free: restored
      at any later instant, the countdown equals what it was at the save minus
      the whole seconds since then, and never goes below 0; restored at the
      same instant, it is exactly what was saved. */
  lemma {:induction false} RestoreAfterStart(now: int, duration: nat, timeLeft: nat, later: int)
    requires now <= later
    ensures RestoredTimeLeft(duration, StartInstant(now, duration, timeLeft), later)
         == Max0(timeLeft - (later - now) / 1000)
    ensures later == now ==> RestoredTimeLeft(duration, StartInstant(now, duration, timeLeft), later) == timeLeft
  {
    var start := StartInstant(now, duration, timeLeft);
    assert later - start == (later - now) + (duration - timeLeft) * 1000;
    Arithmetic.DivAddMultiple(later - now, 1000, duration - timeLeft);
  }

  class Timer {
    var currentState: Phase
    var timeLeft: nat
    var isActive: bool
    var focusSessions: nat
    const sessionsUntilLongBreak: int := 4
    /** localStorage, holding start instants in milliseconds. */
    var storage: map<string, int>

    /** The component as first rendered, over the store the browser kept. */
    constructor (storage: map<string, int>)
      ensures currentState == Focus && timeLeft == 25 * 60 && !isActive && focusSessions == 0
      ensures this.storage == storage
    {
      currentState := Focus;
      timeLeft := 25 * 60;
      isActive := false;
      focusSessions := 0;
      this.storage := storage;
    }

    /** The mount effect: with a saved start instant the countdown is
        recomputed from it for the duration of the phase current now,
        whatever phase was running when it was saved; without one, now is
        saved as the start instant. Nothing else changes. */
    method Restore(now: int)
      modifies this
      ensures StartKey in old(storage) ==>
        && timeLeft == RestoredTimeLeft(Duration(currentState), old(storage)[StartKey], now)
        && storage == old(storage)
      ensures StartKey !in old(storage) ==>
        timeLeft == old(timeLeft) && storage == old(storage)[StartKey := now]
      ensures currentState == old(currentState) && isActive == old(isActive)
      ensures focusSessions == old(focusSessions)
    {
      if StartKey in storage {
        var elapsed := (now - storage[StartKey]) / 1000;
        var duration := Duration(currentState);
        var remaining := duration - elapsed;
        timeLeft := if remaining > 0 then remaining else 0;
      } else {
        storage := storage[StartKey := now];
      }
    }

    /** switchToState: the given phase at its full length, stopped; the
        instant is saved under SwitchKey. The session count is kept. */
    method SwitchToState(newState: Phase, now: int)
      modifies this
      ensures currentState == newState && timeLeft == Duration(newState) && !isActive
      ensures focusSessions == old(focusSessions)
      ensures storage == old(storage)[SwitchKey := now]
    {
      isActive := false;
      currentState := newState;
      timeLeft := Duration(newState);
      storage := storage[SwitchKey := now];
    }

    /** skipToNext(isAutomatic): the phase and the session count advance,
        the countdown restarts at the new phase's length, the instant is
        saved under SwitchKey, and the timer runs on exactly when
        isAutomatic is set. */
    method SkipToNext(isAutomatic: bool, now: int)
      modifies this
      ensures Progress(currentState, focusSessions)
           == Advance(Progress(old(currentState), old(focusSessions)), sessionsUntilLongBreak)
      ensures timeLeft == Duration(currentState) && isActive == isAutomatic
      ensures storage == old(storage)[SwitchKey := now]
    {
      var nextState := NextPhase(currentState, focusSessions, sessionsUntilLongBreak);
      if currentState == Focus {
        focusSessions := focusSessions + 1;
      }
      currentState := nextState;
      timeLeft := Duration(nextState);
      storage := storage[SwitchKey := now];
      isActive := isAutomatic;
    }

    /** The skip button hands its click event to skipToNext as isAutomatic;
        the event is truthy, so a manual skip leaves the timer running. */
    method SkipClicked(now: int)
      modifies this
      ensures Progress(currentState, focusSessions)
           == Advance(Progress(old(currentState), old(focusSessions)), sessionsUntilLongBreak)
      ensures timeLeft == Duration(currentState) && isActive
      ensures storage == old(storage)[SwitchKey := now]
    {
      SkipToNext(true, now);
    }

    /** One step of the countdown effect: while running with time left, the
        countdown drops by exactly one second and nothing else changes; when
        it is running at 0 the phase completes as skipToNext(true), so the
        next phase starts at its full length and keeps running; when stopped
        nothing happens. */
    method Tick(now: int)
      modifies this
      ensures old(isActive) && old(timeLeft) > 0 ==>
        && timeLeft == old(timeLeft) - 1 && isActive
        && currentState == old(currentState) && focusSessions == old(focusSessions)
        && storage == old(storage)
      ensures old(isActive) && old(timeLeft) == 0 ==>
        && Progress(currentState, focusSessions)
           == Advance(Progress(old(currentState), old(focusSessions)), sessionsUntilLongBreak)
        && timeLeft == Duration(currentState) && timeLeft > 0 && isActive
        && storage == old(storage)[SwitchKey := now]
      ensures !old(isActive) ==>
        && timeLeft == old(timeLeft) && !isActive && currentState == old(currentState)
        && focusSessions == old(focusSessions) && storage == old(storage)
    {
      if isActive && timeLeft > 0 {
        timeLeft := timeLeft - 1;
      } else if timeLeft == 0 && isActive {
        SkipToNext(true, now);
      }
    }

    /** toggleTimer: flips isActive; when starting, it first saves under
        StartKey the instant the phase would have had to start to have the
        current countdown left now. */
    method ToggleTimer(now: int)
      modifies this
      ensures isActive == !old(isActive)
      ensures !old(isActive) ==>
        storage == old(storage)[StartKey := StartInstant(now, Duration(currentState), timeLeft)]
      ensures old(isActive) ==> storage == old(storage)
      ensures currentState == old(currentState) && timeLeft == old(timeLeft)
      ensures focusSessions == old(focusSessions)
    {
      if !isActive {
        storage := storage[StartKey := now - (Duration(currentState) - timeLeft) * 1000];
      }
      isActive := !isActive;
    }
  }

  /** What switchToState and skipToNext save never reaches the mount
      effect: writing SwitchKey leaves the StartKey entry, present or
      absent, as it was, so a reload after a switch or a skip restores from
      the instant toggleTimer last saved. */
  lemma SkipDoesNotReachRestore(s: map<string, int>, now: int)
    ensures SwitchKey != StartKey
    ensures StartKey in s ==> s[SwitchKey := now][StartKey] == s[StartKey]
    ensures StartKey !in s ==> StartKey !in s[SwitchKey := now]
  {
  }

  /** Any phase run to the end with no pauses: from any phase, session
      count and countdown k, running, the countdown reaches 0 after exactly
      k ticks without leaving the phase or touching the store, and the next
      tick completes the phase as skipToNext(true) does, carrying on into the
      following phase, running, at its full length. */
  method RunPhaseToCompletion(storage: map<string, int>, p: Phase, sessions: nat, k: nat, now: int)
    returns (ticks: nat, phaseAtZero: Phase, phase: Phase, running: bool, sessionsAfter: nat, left: nat,
             stored: map<string, int>)
    ensures ticks == k && phaseAtZero == p
    ensures Progress(phase, sessionsAfter) == Advance(Progress(p, sessions), 4)
    ensures running && left == Duration(phase)
    ensures stored == storage[SwitchKey := now]
  {
    var t := new Timer(storage);
    t.currentState, t.timeLeft, t.focusSessions, t.isActive := p, k, sessions, true;
    ticks := 0;
    while t.timeLeft > 0
      invariant ticks <= k && t.timeLeft == k - ticks
      invariant t.isActive && t.currentState == p && t.focusSessions == sessions && t.storage == storage
      decreases t.timeLeft
    {
      t.Tick(now);
      ticks := ticks + 1;
    }
    phaseAtZero := t.currentState;
    t.Tick(now);
    phase, running, sessionsAfter, left, stored := t.currentState, t.isActive, t.focusSessions, t.timeLeft, t.storage;
  }

  /** A reload: the component mounts in focus, stopped, whatever phase was
      running before. With a start instant saved, the countdown is the
      focus length minus the whole seconds since that instant (never more
      than the focus length when the instant is not in the future); without
      one, the full focus length is shown and now is saved as the start. */
  method Reload(storage: map<string, int>, now: int)
    returns (phase: Phase, left: nat, running: bool, stored: map<string, int>)
    ensures phase == Focus && !running
    ensures StartKey in storage ==>
      left == Max0(Duration(Focus) - (now - storage[StartKey]) / 1000) && stored == storage
    ensures StartKey in storage && storage[StartKey] <= now ==> left <= Duration(Focus)
    ensures StartKey !in storage ==> left == Duration(Focus) && stored == storage[StartKey := now]
  {
    var t := new Timer(storage);
    t.Restore(now);
    phase, left, running, stored := t.currentState, t.timeLeft, t.isActive, t.storage;
  }

  /** Switching to a phase a second time leaves the timer exactly as the
      first switch did, saved start instant included. */
  method SwitchTwice(storage: map<string, int>, s: Phase, now: int)
    returns (once: (Phase, nat, bool, nat, map<string, int>), twice: (Phase, nat, bool, nat, map<string, int>))
    ensures once == twice
    ensures once.0 == s && once.1 == Duration(s) && !once.2
  {
    var a := new Timer(storage);
    a.SwitchToState(s, now);
    once := (a.currentState, a.timeLeft, a.isActive, a.focusSessions, a.storage);
    var b := new Timer(storage);
    b.SwitchToState(s, now);
    b.SwitchToState(s, now);
    assert b.storage == storage[SwitchKey := now][SwitchKey := now];
    assert storage[SwitchKey := now][SwitchKey := now] == storage[SwitchKey := now];
    twice := (b.currentState, b.timeLeft, b.isActive, b.focusSessions, b.storage);
  }
}
