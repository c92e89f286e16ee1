/** The earlier Timer component: the same three-phase cycle and one-second
    countdown, with no persistence, and a completed phase stops the timer
    instead of running on into the next one. */
module LegacyTimer {
  import opened TimerPhases

  class Timer {
    var currentState: Phase
    var timeLeft: nat
    var isActive: bool
    var focusSessions: nat
    /** Has a setter in the component, but nothing calls it. */
    var sessionsUntilLongBreak: int

    ghost predicate Valid()
      reads this
    {
      sessionsUntilLongBreak == 4
    }

    constructor ()
      ensures Valid()
      ensures currentState == Focus && timeLeft == 25 * 60 && !isActive && focusSessions == 0
    {
      currentState := Focus;
      timeLeft := 25 * 60;
      isActive := false;
      focusSessions := 0;
      sessionsUntilLongBreak := 4;
    }

    /** switchToState: the given phase at its full length, stopped; the
        session count is kept. */
    method SwitchToState(newState: Phase)
      requires Valid()
      modifies this
      ensures Valid()
      ensures currentState == newState && timeLeft == Duration(newState) && !isActive
      ensures focusSessions == old(focusSessions)
    {
      isActive := false;
      currentState := newState;
      timeLeft := Duration(newState);
    }

    /** skipToNext: counts a focus session when a focus phase is left, then
        switches to the next phase, which stops the timer whichever way it
        was reached (the skip button or a completed countdown). */
    method SkipToNext()
      requires Valid()
      modifies this
      ensures Valid()
      ensures Progress(currentState, focusSessions)
           == Advance(Progress(old(currentState), old(focusSessions)), sessionsUntilLongBreak)
      ensures timeLeft == Duration(currentState) && !isActive
    {
      var nextState := NextPhase(currentState, focusSessions, sessionsUntilLongBreak);
      if currentState == Focus {
        focusSessions := focusSessions + 1;
      }
      SwitchToState(nextState);
    }

    /** One step of the countdown effect: while running with time left the
        countdown drops by one second; running at 0, the phase completes by
        skipToNext, which leaves the next phase stopped at its full length;
        stopped, nothing happens. */
    method Tick()
      requires Valid()
      modifies this
      ensures Valid()
      ensures old(isActive) && old(timeLeft) > 0 ==>
        && timeLeft == old(timeLeft) - 1 && isActive
        && currentState == old(currentState) && focusSessions == old(focusSessions)
      ensures old(isActive) && old(timeLeft) == 0 ==>
        && Progress(currentState, focusSessions)
           == Advance(Progress(old(currentState), old(focusSessions)), sessionsUntilLongBreak)
        && timeLeft == Duration(currentState) && !isActive
      ensures !old(isActive) ==>
        && timeLeft == old(timeLeft) && !isActive && currentState == old(currentState)
        && focusSessions == old(focusSessions)
    {
      if isActive && timeLeft > 0 {
        timeLeft := timeLeft - 1;
      } else if timeLeft == 0 && isActive {
        SkipToNext();
      }
    }

    /** toggleTimer: flips isActive and nothing else. */
    method ToggleTimer()
      requires Valid()
      modifies this
      ensures Valid()
      ensures isActive == !old(isActive)
      ensures currentState == old(currentState) && timeLeft == old(timeLeft)
      ensures focusSessions == old(focusSessions)
    {
      isActive := !isActive;
    }
  }

  /** Any phase run to the end with no pauses: from any phase, session
      count and countdown k, running, the countdown reaches 0 after exactly
      k ticks without leaving the phase, and the next tick completes it by
      skipToNext, which leaves the following phase stopped at its full
      length. */
  method RunPhaseToCompletion(p: Phase, sessions: nat, k: nat)
    returns (ticks: nat, phaseAtZero: Phase, phase: Phase, running: bool, sessionsAfter: nat, left: nat)
    ensures ticks == k && phaseAtZero == p
    ensures Progress(phase, sessionsAfter) == Advance(Progress(p, sessions), 4)
    ensures !running && left == Duration(phase)
  {
    var t := new Timer();
    t.currentState, t.timeLeft, t.focusSessions, t.isActive := p, k, sessions, true;
    ticks := 0;
    while t.timeLeft > 0
      invariant ticks <= k && t.timeLeft == k - ticks
      invariant t.Valid() && t.isActive && t.currentState == p && t.focusSessions == sessions
      decreases t.timeLeft
    {
      t.Tick();
      ticks := ticks + 1;
    }
    phaseAtZero := t.currentState;
    t.Tick();
    phase, running, sessionsAfter, left := t.currentState, t.isActive, t.focusSessions, t.timeLeft;
  }
}
