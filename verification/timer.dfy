/**
  The stopwatch the rhythm scene reads its time from (class `Timer` in
  AudioBeatGame.cpp). The clock reading `SDL_GetTicks()` is passed in as
  `now`; every operation is a pure function from the old record to the new.
*/
module BeatTimer {

  datatype Timer = Timer(started: bool, paused: bool, startTicks: int, pausedTicks: int)

  /** The invariant every operation keeps: only a started timer can be paused. */
  predicate Valid(t: Timer) {
    t.paused ==> t.started
  }

  /** Elapsed milliseconds: frozen while paused, measured from the start while running, 0 when stopped. */
  function GetTicks(t: Timer, now: int): (r: int)
    ensures !t.started ==> r == 0
    ensures t.started && t.paused ==> r == t.pausedTicks
    ensures t.started && !t.paused ==> t.startTicks + r == now
  {
    if t.started then
      if t.paused then t.pausedTicks else now - t.startTicks
    else 0
  }

  /** A freshly constructed timer: stopped, and reading 0 at every instant. */
  function NewTimer(): (t: Timer)
    ensures Valid(t) && !t.started && !t.paused
    ensures forall now :: GetTicks(t, now) == 0
  {
    Timer(false, false, 0, 0)
  }

  /** Starting (or restarting) measures elapsed time from `now`, whatever the old state. */
  function Start(t: Timer, now: int): (r: Timer)
    ensures Valid(r) && r.started && !r.paused
    ensures GetTicks(r, now) == 0
    ensures forall later :: GetTicks(r, later) == later - now
  {
    t.(started := true, paused := false, startTicks := now)
  }

  /** Stopping clears both flags; a stopped timer reads 0 at every instant. */
  function Stop(t: Timer): (r: Timer)
    ensures Valid(r) && !r.started && !r.paused
    ensures forall now :: GetTicks(r, now) == 0
    ensures r.startTicks == t.startTicks && r.pausedTicks == t.pausedTicks
  {
    t.(started := false, paused := false)
  }

  /**
    Pausing freezes the reading it has at `now`. It acts only on a running,
    unpaused timer; otherwise it changes nothing.
  */
  function Pause(t: Timer, now: int): (r: Timer)
    ensures Valid(t) ==> Valid(r)
    ensures t.started && !t.paused ==> r.paused && r.started
    ensures !(t.started && !t.paused) ==> r == t
    ensures GetTicks(r, now) == GetTicks(t, now)
    ensures r.started && r.paused ==> forall later :: GetTicks(r, later) == GetTicks(r, now)
  {
    if t.started && !t.paused then
      t.(paused := true, pausedTicks := now - t.startTicks)
    else t
  }

  /**
    Unpausing resumes a paused timer from its frozen reading: at `now` the
    reading is unchanged and afterwards it advances with the clock. It acts only
    on a paused timer and leaves the frozen value at 0.
  */
  function Unpause(t: Timer, now: int): (r: Timer)
    ensures Valid(t) ==> Valid(r)
    ensures !r.paused && r.started == t.started
    ensures !t.paused ==> r == t
    ensures t.paused ==> r.pausedTicks == 0
    ensures GetTicks(r, now) == GetTicks(t, now)
    ensures Valid(t) && t.started ==> forall later :: GetTicks(r, later) == GetTicks(t, now) + (later - now)
  {
    if t.paused then
      t.(paused := false, startTicks := now - t.pausedTicks, pausedTicks := 0)
    else t
  }

  /** Stopping twice is stopping once. */
  lemma StopIdempotent(t: Timer)
    ensures Stop(Stop(t)) == Stop(t)
  {
  }

  /** A second pause, at any instant, has no further effect. */
  lemma PauseIdempotent(t: Timer, now: int, now': int)
    ensures Pause(Pause(t, now), now') == Pause(t, now)
  {
  }

  /** A second unpause has no further effect. */
  lemma UnpauseIdempotent(t: Timer, now: int, now': int)
    ensures Unpause(Unpause(t, now), now') == Unpause(t, now)
  {
  }

  /** The reading of a valid timer: constant while stopped or paused, advancing with the clock otherwise. */
  lemma TicksFollowClock(t: Timer, now: int, d: int)
    requires Valid(t)
    ensures !t.started ==> GetTicks(t, now) == 0
    ensures t.paused ==> GetTicks(t, now + d) == GetTicks(t, now) == t.pausedTicks
    ensures t.started && !t.paused ==> GetTicks(t, now + d) == GetTicks(t, now) + d
  {
  }

  /**
    Time is continuous across a pause: started at `t0`, paused at `t1`,
    resumed at `t2` and read at `t3`, the timer reports only the running time.
  */
  lemma PauseIsContinuous(t: Timer, t0: int, t1: int, t2: int, t3: int)
    ensures GetTicks(Unpause(Pause(Start(t, t0), t1), t2), t3) == (t1 - t0) + (t3 - t2)
  {
  }
}
