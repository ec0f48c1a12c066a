/**
  The rhythm scene as a whole (class `RhythmScene` in AudioBeatGame.cpp): the
  schedule built by its constructor, the cursor, the scene's own timer and the
  running flag it shares with every scene.
*/
module Scenes {
  import opened BeatTimer
  import opened Scheduler

  datatype RhythmScene = RhythmScene(schedule: Schedule, cursor: Cursor, timer: Timer, running: bool)

  /** A C++ `(int)` conversion of a double: truncation toward zero. */
  function TruncToInt(x: real): (n: int)
    ensures x >= 0.0 ==> 0 <= n && n as real <= x < n as real + 1.0
    ensures x < 0.0 ==> n <= 0 && n as real - 1.0 < x <= n as real
  {
    if x >= 0.0 then x.Floor else -((-x).Floor)
  }

  /**
    A new scene for a blit timing in seconds (one analysis frame): the blit
    interval is that timing in milliseconds plus 50, truncated; the cursor
    starts at beat 0 and tick 0 and the timer is not started.
  */
  function NewRhythmScene(blitTiming: real, channel0: seq<real>, channel1: seq<real>): (r: RhythmScene)
    ensures r.schedule.channel0 == channel0 && r.schedule.channel1 == channel1
    ensures blitTiming >= -0.05 ==>
      r.schedule.blitOnMS as real <= blitTiming * 1000.0 + 50.0 < r.schedule.blitOnMS as real + 1.0
    ensures blitTiming >= 0.0 ==> r.schedule.blitOnMS >= 50
    ensures r.cursor == Cursor(0, 0) && !r.running
    ensures forall now :: GetTicks(r.timer, now) == 0
  {
    RhythmScene(Schedule(channel0, channel1, TruncToInt(blitTiming * 1000.0 + 50.0)), Cursor(0, 0), NewTimer(), false)
  }

  /** Starting the scene starts its timer at `now` and marks it running; nothing else changes. */
  function StartScene(sc: RhythmScene, now: int): (r: RhythmScene)
    ensures r.running && r.timer.started && !r.timer.paused
    ensures forall later :: GetTicks(r.timer, later) == later - now
    ensures r.schedule == sc.schedule && r.cursor == sc.cursor
  {
    sc.(timer := Start(sc.timer, now), running := true)
  }

  /** One frame of the scene at clock reading `now`: the scheduler fed with the timer's reading and pause state. */
  function Frame(sc: RhythmScene, now: int): (r: Outcome)
    requires sc.schedule.blitOnMS > 0
    ensures sc.timer.paused ==> r == Defined(sc.cursor, [])
    ensures r.Defined? ==> r.cursor.currentBeat >= sc.cursor.currentBeat
  {
    OnFrame(sc.schedule, sc.cursor, GetTicks(sc.timer, now), sc.timer.paused)
  }

  /** The scene with the cursor a defined frame left. */
  function Advance(sc: RhythmScene, o: Outcome): (r: RhythmScene)
    requires o.Defined?
    ensures r.cursor == o.cursor && r.schedule == sc.schedule && r.timer == sc.timer && r.running == sc.running
  {
    sc.(cursor := o.cursor)
  }

  /**
    A freshly started scene is quiet for one blit interval: every frame before
    `start + blitOnMS` pushes nothing and leaves the cursor at the beginning.
  */
  lemma QuietAfterStart(blitTiming: real, channel0: seq<real>, channel1: seq<real>, start: int, now: int)
    requires blitTiming >= 0.0
    requires start <= now < start + NewRhythmScene(blitTiming, channel0, channel1).schedule.blitOnMS
    ensures var sc := StartScene(NewRhythmScene(blitTiming, channel0, channel1), start);
            Frame(sc, now) == Defined(Cursor(0, 0), [])
  {
  }

  /**
    The first beat of a started scene is due after one interval: with all of
    the first beat real, the first frame in [start + B, start + 2B) sends it with
    offset `ticks % (B + 50)` and moves the cursor to beat 1.
  */
  lemma FirstBeat(blitTiming: real, channel0: seq<real>, channel1: seq<real>, start: int, now: int)
    requires blitTiming >= 0.0
    requires |channel0| > 0 && |channel1| > 0 && channel0[0] >= 1.0 && channel1[0] >= 1.0
    requires var b := NewRhythmScene(blitTiming, channel0, channel1).schedule.blitOnMS;
             start + b <= now < start + 2 * b
    ensures var sc := StartScene(NewRhythmScene(blitTiming, channel0, channel1), start);
            var b := sc.schedule.blitOnMS;
            Frame(sc, now) ==
            Defined(Cursor(1, now - start), [CreateBlit(channel0[0], channel1[0], CRem(now - start, b + 50))])
  {
    var sc := StartScene(NewRhythmScene(blitTiming, channel0, channel1), start);
    assert GetTicks(sc.timer, now) == now - start;
  }
}
