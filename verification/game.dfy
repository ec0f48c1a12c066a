/**
  The consumer side of the scheduler's events (the `CREATE_BLIT` and
  `FINISHED_RHYTHM` cases of the event loop in `AudioBeatGame::runGame`), and the
  scene set-up of `AudioBeatGame::createNewBeatScene`. The document the blits
  are drawn into is reduced to the list of placed notes.
*/
module Game {
  import opened Options
  import opened Thresholds
  import opened Columns
  import opened Scheduler
  import opened Scenes

  /** A note placed in a column, with the time offset it was sent with. */
  datatype Placement = Placement(column: Column, strength: real, timeOffset: int)

  /**
    The `"Rhythm Scene"` entry of the game's scene map. `scenes["Rhythm Scene"]`
    on a map without the key inserts a null pointer, so the entry can exist
    and hold no scene.
  */
  datatype SceneSlot = Absent | NullEntry | Registered(scene: RhythmScene)

  /** The game's view of the rhythm scene: its map entry, the two thresholds, the placed notes. */
  datatype GameState = GameState(slot: SceneSlot, threshold1: Threshold, threshold2: Threshold, placed: seq<Placement>)

  /**
    Setting up a new beat scene: one threshold per channel, computed from that
    channel's strengths, and a new scene registered in place of any old one.
  */
  function CreateNewBeatScene(g: GameState, blitTiming: real, channel0: seq<real>, channel1: seq<real>): (r: GameState)
    ensures r.threshold1 == CalculateThreshold(channel0) && r.threshold2 == CalculateThreshold(channel1)
    ensures r.slot == Registered(NewRhythmScene(blitTiming, channel0, channel1))
    ensures r.placed == g.placed
  {
    GameState(Registered(NewRhythmScene(blitTiming, channel0, channel1)),
              CalculateThreshold(channel0), CalculateThreshold(channel1), g.placed)
  }

  /** `addBeatBlit`: the note, if any, one channel's strength places. */
  function AddBeatBlit(g: GameState, channel: int, strength: real, timeOffset: int): (p: seq<Placement>)
    ensures |p| <= 1
    ensures |p| == 1 <==> channel <= 1 && strength >= 1.0
    ensures |p| == 1 ==> p[0].strength == strength && p[0].timeOffset == timeOffset
    ensures |p| == 1 ==> p[0].column == ColumnFor(channel, strength, g.threshold1, g.threshold2).value
  {
    match ColumnFor(channel, strength, g.threshold1, g.threshold2)
    case None => []
    case Some(col) => [Placement(col, strength, timeOffset)]
  }

  /**
    Handling one event: a blit places the channel-0 strength against the first
    threshold and the channel-1 strength against the second, in that order,
    and its lookup of the scene inserts a null entry when there is none;
    `Finished` deletes and erases the entry and places nothing.
  */
  function HandleEvent(g: GameState, e: Event): (r: GameState)
    ensures r.threshold1 == g.threshold1 && r.threshold2 == g.threshold2
    ensures e.Finished? ==> r.slot.Absent? && r.placed == g.placed
    ensures e.CreateBlit? && !g.slot.Absent? ==> r.slot == g.slot
    ensures e.CreateBlit? && g.slot.Absent? ==> r.slot.NullEntry?
    ensures e.CreateBlit? ==>
      r.placed == g.placed + AddBeatBlit(g, 0, e.strength1, e.timeOffset) + AddBeatBlit(g, 1, e.strength2, e.timeOffset)
  {
    match e
    case CreateBlit(s1, s2, offset) =>
      var slot := if g.slot.Absent? then NullEntry else g.slot;
      g.(slot := slot, placed := g.placed + AddBeatBlit(g, 0, s1, offset) + AddBeatBlit(g, 1, s2, offset))
    case Finished => g.(slot := Absent)
  }

  /**
    A blit the scheduler sends always yields exactly two notes: first in a
    left column (weak iff below the first threshold), then in a right one
    (weak iff below the second).
  */
  lemma BlitPlacesTwoNotes(g: GameState, e: Event)
    requires IsBlit(e)
    ensures var r := HandleEvent(g, e);
            && |r.placed| == |g.placed| + 2
            && r.placed[..|g.placed|] == g.placed
            && Lane(r.placed[|g.placed|].column) == 0
            && Lane(r.placed[|g.placed| + 1].column) == 1
            && (Strong(r.placed[|g.placed|].column) <==> !Below(e.strength1, g.threshold1))
            && (Strong(r.placed[|g.placed| + 1].column) <==> !Below(e.strength2, g.threshold2))
            && r.placed[|g.placed|].strength == e.strength1
            && r.placed[|g.placed| + 1].strength == e.strength2
  {
  }

  /** Number of blits in an event sequence. */
  function CountBlits(events: seq<Event>): (n: nat)
    ensures n <= |events|
  {
    if |events| == 0 then 0
    else CountBlits(events[..|events| - 1]) + (if events[|events| - 1].CreateBlit? then 1 else 0)
  }

  /** Draining the queue: every event handled in push order. */
  function Drain(g: GameState, events: seq<Event>): (r: GameState)
    ensures r.threshold1 == g.threshold1 && r.threshold2 == g.threshold2
    ensures r.slot.Registered? <==> g.slot.Registered? && Finished !in events
    ensures r.slot.Registered? ==> r.slot == g.slot
    ensures |events| > 0 && events[|events| - 1].Finished? ==> r.slot.Absent?
    ensures |events| > 0 && events[|events| - 1].CreateBlit? ==> !r.slot.Absent?
    ensures |g.placed| <= |r.placed| && r.placed[..|g.placed|] == g.placed
    decreases |events|
  {
    if |events| == 0 then g
    else
      var r := Drain(g, events[..|events| - 1]);
      assert forall e :: e in events <==> e in events[..|events| - 1] || e == events[|events| - 1] by {
        assert events == events[..|events| - 1] + [events[|events| - 1]];
      }
      HandleEvent(r, events[|events| - 1])
  }

  /** Draining events that are all real blits or `Finished` places two notes per blit. */
  lemma {:induction false} DrainPlacesTwoPerBlit(g: GameState, events: seq<Event>)
    requires forall k :: 0 <= k < |events| ==> IsBlit(events[k]) || events[k].Finished?
    ensures |Drain(g, events).placed| == |g.placed| + 2 * CountBlits(events)
    decreases |events|
  {
    if |events| > 0 {
      var init := events[..|events| - 1];
      assert forall k :: 0 <= k < |init| ==> init[k] == events[k];
      DrainPlacesTwoPerBlit(g, init);
      var last := events[|events| - 1];
      if last.CreateBlit? {
        BlitPlacesTwoNotes(Drain(g, init), last);
      }
    }
  }

  /**
    Consuming one frame of a scene: every blit of the frame becomes two notes,
    and the scene is unregistered exactly when the frame found the cursor past
    the end of channel 0.
  */
  lemma FrameThenDrain(g: GameState, s: Schedule, c: Cursor, ticks: int)
    requires s.blitOnMS > 0
    requires g.slot.Registered?
    requires OnFrame(s, c, ticks, false).Defined?
    ensures var o := OnFrame(s, c, ticks, false);
            var r := Drain(g, o.events);
            && |r.placed| == |g.placed| + 2 * CountBlits(o.events)
            && (r.slot.Absent? <==> c.currentBeat > |s.channel0|)
            && (r.slot == g.slot <==> c.currentBeat <= |s.channel0|)
  {
    var o := OnFrame(s, c, ticks, false);
    var n := Notice(s, c);
    forall k | 0 <= k < |o.events|
      ensures IsBlit(o.events[k]) || o.events[k].Finished?
    {
      if k < |n| {
        assert o.events[k] == o.events[..|n|][k];
      }
    }
    DrainPlacesTwoPerBlit(g, o.events);
    FinishedIffExhausted(s, c, ticks);
    if c.currentBeat > |s.channel0| {
      FinishedFrame(s, c, ticks);
    }
  }

  /**
    Example: a blit that arrives after `Finished` finds no scene, and its
    lookup leaves a null `"Rhythm Scene"` entry behind, which the next frame's
    loop over the scenes would dereference.
  */
  lemma ExampleBlitAfterFinished(g: GameState)
    requires g.slot.Registered?
    ensures Drain(g, [Finished, CreateBlit(2.0, 2.0, 0)]).slot == NullEntry
  {
    var events := [Finished, CreateBlit(2.0, 2.0, 0)];
    assert events[..1] == [Finished];
    assert events[..1][..0] == [];
  }
}
