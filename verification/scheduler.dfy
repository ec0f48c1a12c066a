/**
  The per-frame beat scheduler of the rhythm scene (`RhythmScene::onFrame` and
  `RhythmScene::sendBlitEvent` in AudioBeatGame.cpp) as a pure transition:
  from the scene's cursor and one timer reading to the new cursor and the
  events pushed during that frame, in push order.
*/
module Scheduler {
  import opened Options

  /** An event on the SDL queue: a new note pair, or the end of the song. */
  datatype Event = CreateBlit(strength1: real, strength2: real, timeOffset: int) | Finished

  /**
    The immutable part of a scene: the two channels' beat strengths (index =
    analysis frame) and the blit interval in milliseconds.
  */
  datatype Schedule = Schedule(channel0: seq<real>, channel1: seq<real>, blitOnMS: int)

  /** The mutable part: the next beat to send and the tick of the last processed beat. */
  datatype Cursor = Cursor(currentBeat: nat, previousTick: int)

  /**
    The result of a frame. `PastEnd` stands for a frame whose reads run past
    the end of a channel, which the source leaves undefined; nothing is claimed
    about it.
  */
  datatype Outcome = Defined(cursor: Cursor, events: seq<Event>) | PastEnd

  /**
    The sentinel test of `sendBlitEvent` at beat `i` reads only existing
    entries: beat `i` of channel 0 exists, and beat `i` of channel 1 exists
    unless channel 0 already holds a sentinel there (the `||` stops early).
  */
  predicate Readable(s: Schedule, i: int) {
    0 <= i < |s.channel0| && (s.channel0[i] < 1.0 || i < |s.channel1|)
  }

  /** `e` is a blit of a real beat: both strengths are at least 1. */
  predicate IsBlit(e: Event) {
    e.CreateBlit? && e.strength1 >= 1.0 && e.strength2 >= 1.0
  }

  /** Every beat with index in [lo, hi) exists in both channels and is a real beat in both. */
  predicate AllBeats(s: Schedule, lo: int, hi: int) {
    && 0 <= lo && hi <= |s.channel0| && hi <= |s.channel1|
    && forall j :: lo <= j < hi ==> s.channel0[j] >= 1.0 && s.channel1[j] >= 1.0
  }

  /** The "finished" notice a frame starts with: present iff the cursor is past the end of channel 0. */
  function Notice(s: Schedule, c: Cursor): (n: seq<Event>)
    ensures |n| <= 1
    ensures |n| == 1 <==> c.currentBeat > |s.channel0|
    ensures |n| == 1 ==> n[0] == Finished
  {
    if c.currentBeat > |s.channel0| then [Finished] else []
  }

  /** One call of `sendBlitEvent`: the cursor it leaves and the event it pushes, if any. */
  datatype Attempt = Attempt(nextBeat: nat, event: Option<Event>)

  /**
    Sending the beat at `currentBeat`: a sentinel (below 1) in either channel
    pushes nothing and skips the beat; otherwise the event carries both
    strengths and the given offset and the cursor stays.
  */
  function SendBlitEvent(s: Schedule, currentBeat: nat, offset: int): (a: Attempt)
    requires Readable(s, currentBeat)
    ensures a.event.None? <==> s.channel0[currentBeat] < 1.0 || s.channel1[currentBeat] < 1.0
    ensures a.event.None? ==> a.nextBeat == currentBeat + 1
    ensures a.event.Some? ==> a.nextBeat == currentBeat
    ensures a.event.Some? ==> a.event.value == CreateBlit(s.channel0[currentBeat], s.channel1[currentBeat], offset)
  {
    if s.channel0[currentBeat] < 1.0 || s.channel1[currentBeat] < 1.0 then
      Attempt(currentBeat + 1, None)
    else
      Attempt(currentBeat, Some(CreateBlit(s.channel0[currentBeat], s.channel1[currentBeat], offset)))
  }

  /** C++ `/` on `int` for a positive divisor: the quotient truncates toward zero. */
  function CQuot(a: int, m: int): int
    requires m > 0
  {
    if a >= 0 then a / m else -((-a) / m)
  }

  /**
    C++ `%` on `int` for a positive modulus: the remainder left by the
    truncating quotient, so it takes the sign of the dividend.
  */
  function CRem(a: int, m: int): (r: int)
    requires m > 0
    ensures a == CQuot(a, m) * m + r
    ensures a >= 0 ==> 0 <= r < m
    ensures a < 0 ==> -m < r <= 0
  {
    if a >= 0 then a % m
    else
      var q := (-a) / m;
      assert -a == q * m + (-a) % m;
      assert -(q * m) == (-q) * m;
      -((-a) % m)
  }

  /**
    How often `for (i = 0; i < delta; i += step)` runs: the ceiling of
    delta / step, and 0 for a non-positive delta.
  */
  function Iterations(delta: int, step: int): (k: nat)
    requires step > 0
    ensures delta <= 0 <==> k == 0
    ensures k <= 1 ==> delta <= step
    decreases delta
  {
    if delta <= 0 then 0 else 1 + Iterations(delta - step, step)
  }

  /** The iteration count is the ceiling of delta / step. */
  lemma {:induction false} IterationsIsCeil(delta: int, step: int)
    requires step > 0
    ensures delta > 0 ==> (Iterations(delta, step) - 1) * step < delta <= Iterations(delta, step) * step
    decreases delta
  {
    if delta > 0 {
      IterationsIsCeil(delta - step, step);
      MulStep(Iterations(delta - step, step), step);
    }
  }

  /** The state the catch-up loop ends in, or `Undefined` when one of its reads is out of range. */
  datatype Run = Run(currentBeat: nat, timeOffset: int, events: seq<Event>) | Undefined

  /**
    The catch-up loop from iteration counter `i` on: each round sends the beat
    with offset `ticks - timeOffset`, then advances `timeOffset` by the blit
    interval and the cursor by one.
  */
  function CatchUp(s: Schedule, ticks: int, delta: int, i: int, currentBeat: nat, timeOffset: int): (r: Run)
    requires s.blitOnMS > 0
    ensures r.Run? ==> r.currentBeat >= currentBeat
    decreases delta - i
  {
    if i >= delta then Run(currentBeat, timeOffset, [])
    else if !Readable(s, currentBeat) then Undefined
    else
      var a := SendBlitEvent(s, currentBeat, ticks - timeOffset);
      var rest := CatchUp(s, ticks, delta, i + s.blitOnMS, a.nextBeat + 1, timeOffset + s.blitOnMS);
      match rest
      case Undefined => Undefined
      case Run(cb, to, evs) => Run(cb, to, ToSeq(a.event) + evs)
  }

  /** Blits appended after a prefix are blits at every index past the prefix. */
  lemma BlitsAfter(prefix: seq<Event>, evs: seq<Event>)
    requires forall k :: 0 <= k < |evs| ==> IsBlit(evs[k])
    ensures forall k :: |prefix| <= k < |prefix + evs| ==> IsBlit((prefix + evs)[k])
  {
    forall k | |prefix| <= k < |prefix + evs|
      ensures IsBlit((prefix + evs)[k])
    {
      assert (prefix + evs)[k] == evs[k - |prefix|];
    }
  }

  /** Every event the catch-up loop sends is a blit of a real beat. */
  lemma {:induction false} CatchUpEmitsBlits(s: Schedule, ticks: int, delta: int, i: int, currentBeat: nat, timeOffset: int)
    requires s.blitOnMS > 0
    ensures var r := CatchUp(s, ticks, delta, i, currentBeat, timeOffset);
            r.Run? ==> forall k :: 0 <= k < |r.events| ==> IsBlit(r.events[k])
    decreases delta - i
  {
    if i < delta && Readable(s, currentBeat) {
      var a := SendBlitEvent(s, currentBeat, ticks - timeOffset);
      CatchUpEmitsBlits(s, ticks, delta, i + s.blitOnMS, a.nextBeat + 1, timeOffset + s.blitOnMS);
      var rest := CatchUp(s, ticks, delta, i + s.blitOnMS, a.nextBeat + 1, timeOffset + s.blitOnMS);
      var r := CatchUp(s, ticks, delta, i, currentBeat, timeOffset);
      if rest.Run? {
        assert r.events == ToSeq(a.event) + rest.events;
      }
    }
  }

  /**
    One frame. A paused timer makes it a no-op. Otherwise a cursor past the end
    of channel 0 pushes `Finished` (and the frame goes on); a gap of at least two
    intervals since the last processed beat runs the catch-up loop; a gap of one
    interval sends one beat with offset `ticks % (blitOnMS + 50)`.
  */
  function OnFrame(s: Schedule, c: Cursor, ticks: int, paused: bool): (r: Outcome)
    requires s.blitOnMS > 0
    ensures paused ==> r == Defined(c, [])
    ensures !paused && ticks - c.previousTick < s.blitOnMS ==> r == Defined(c, Notice(s, c))
    ensures r.Defined? ==> r.cursor.currentBeat >= c.currentBeat
    ensures r.Defined? && !paused ==>
      |Notice(s, c)| <= |r.events| && r.events[..|Notice(s, c)|] == Notice(s, c)
    ensures r.Defined? ==> forall k :: |Notice(s, c)| <= k < |r.events| ==> IsBlit(r.events[k])
  {
    if paused then Defined(c, [])
    else
      var notice := Notice(s, c);
      var delta := ticks - c.previousTick;
      if delta >= s.blitOnMS * 2 then
        var run := CatchUp(s, ticks, delta, 0, c.currentBeat, c.previousTick);
        if run.Undefined? then PastEnd
        else
          CatchUpEmitsBlits(s, ticks, delta, 0, c.currentBeat, c.previousTick);
          BlitsAfter(notice, run.events);
          Defined(Cursor(run.currentBeat, ticks + run.timeOffset), notice + run.events)
      else if delta >= s.blitOnMS then
        if !Readable(s, c.currentBeat) then PastEnd
        else
          var a := SendBlitEvent(s, c.currentBeat, CRem(ticks, s.blitOnMS + 50));
          Defined(Cursor(a.nextBeat + 1, ticks), notice + ToSeq(a.event))
      else Defined(c, notice)
  }

  // ---------------------------------------------------------------------------
  // A reference definition: a frame as a list of send attempts.
  // ---------------------------------------------------------------------------

  /** The offsets `first, first - step, first - 2*step, ...`, `n` of them. */
  function Offsets(first: int, step: int, n: nat): (o: seq<int>)
    ensures |o| == n
    decreases n
  {
    if n == 0 then [] else [first] + Offsets(first - step, step, n - 1)
  }

  /** The `j`-th offset is `first - j * step`. */
  lemma {:induction false} OffsetsAt(first: int, step: int, n: nat)
    ensures forall j :: 0 <= j < n ==> Offsets(first, step, n)[j] == first - j * step
    decreases n
  {
    if n > 0 {
      OffsetsAt(first - step, step, n - 1);
      var o := Offsets(first, step, n);
      forall j | 0 < j < n
        ensures o[j] == first - j * step
      {
        assert o[j] == Offsets(first - step, step, n - 1)[j - 1];
        MulStep(j - 1, step);
      }
    }
  }

  /** The result of a series of send attempts. */
  datatype Fired = Fired(currentBeat: nat, events: seq<Event>) | Overrun

  /**
    Sending one beat per offset, the cursor advancing by one after each send:
    an emitted beat moves the cursor by one, a skipped sentinel by two.
  */
  function Fire(s: Schedule, currentBeat: nat, offsets: seq<int>): (r: Fired)
    ensures r.Fired? ==> r.currentBeat + |r.events| == currentBeat + 2 * |offsets|
    ensures r.Fired? ==> |r.events| <= |offsets|
    ensures currentBeat + 2 * |offsets| <= |s.channel0| + 1 && currentBeat + 2 * |offsets| <= |s.channel1| + 1 ==> r.Fired?
    decreases |offsets|
  {
    if |offsets| == 0 then Fired(currentBeat, [])
    else if !Readable(s, currentBeat) then Overrun
    else
      var a := SendBlitEvent(s, currentBeat, offsets[0]);
      match Fire(s, a.nextBeat + 1, offsets[1..])
      case Overrun => Overrun
      case Fired(cb, evs) => Fired(cb, ToSeq(a.event) + evs)
  }

  /** Every event of a series of sends is a blit of a real beat, carrying one of the offsets. */
  lemma {:induction false} FireEmitsBlits(s: Schedule, currentBeat: nat, offsets: seq<int>)
    ensures var r := Fire(s, currentBeat, offsets);
            r.Fired? ==> forall k :: 0 <= k < |r.events| ==>
              IsBlit(r.events[k]) && r.events[k].timeOffset in offsets
    decreases |offsets|
  {
    if |offsets| > 0 && Readable(s, currentBeat) {
      var a := SendBlitEvent(s, currentBeat, offsets[0]);
      FireEmitsBlits(s, a.nextBeat + 1, offsets[1..]);
      var r := Fire(s, currentBeat, offsets);
      var rest := Fire(s, a.nextBeat + 1, offsets[1..]);
      if rest.Fired? {
        assert r.events == ToSeq(a.event) + rest.events;
        forall k | 0 <= k < |r.events|
          ensures IsBlit(r.events[k]) && r.events[k].timeOffset in offsets
        {
          if k >= |ToSeq(a.event)| {
            var m := k - |ToSeq(a.event)|;
            assert r.events[k] == rest.events[m];
            assert rest.events[m].timeOffset in offsets[1..];
          }
        }
      }
    }
  }

  /** One more round adds one more interval. */
  lemma MulStep(m: int, b: int)
    ensures (m + 1) * b == m * b + b
  {
  }

  /** A loop outcome and a series outcome describe the same sends, the loop ending at `timeOffset`. */
  predicate Agree(r: Run, f: Fired, timeOffset: int) {
    && (r.Undefined? <==> f.Overrun?)
    && (r.Run? ==> r.currentBeat == f.currentBeat && r.events == f.events && r.timeOffset == timeOffset)
  }

  /** One send of a series. */
  lemma FireStep(s: Schedule, currentBeat: nat, offsets: seq<int>)
    requires |offsets| > 0 && Readable(s, currentBeat)
    ensures var a := SendBlitEvent(s, currentBeat, offsets[0]);
            var rest := Fire(s, a.nextBeat + 1, offsets[1..]);
            Fire(s, currentBeat, offsets) ==
              if rest.Overrun? then Overrun else Fired(rest.currentBeat, ToSeq(a.event) + rest.events)
  {
  }

  /** `timeOffset` advanced by `step`, `n` times. */
  function Advanced(timeOffset: int, step: int, n: nat): int
    decreases n
  {
    if n == 0 then timeOffset else Advanced(timeOffset + step, step, n - 1)
  }

  /** Advancing `n` times adds `n` intervals. */
  lemma {:induction false} AdvancedIsProduct(timeOffset: int, step: int, n: nat)
    ensures Advanced(timeOffset, step, n) == timeOffset + n * step
    decreases n
  {
    if n > 0 {
      AdvancedIsProduct(timeOffset + step, step, n - 1);
      MulStep(n - 1, step);
    }
  }

  /** `n` sends with offsets `first, first - step, ...`, recursing on the count rather than a sequence. */
  function Series(s: Schedule, currentBeat: nat, first: int, step: int, n: nat): Fired
    decreases n
  {
    if n == 0 then Fired(currentBeat, [])
    else if !Readable(s, currentBeat) then Overrun
    else
      var a := SendBlitEvent(s, currentBeat, first);
      var rest := Series(s, a.nextBeat + 1, first - step, step, n - 1);
      if rest.Overrun? then Overrun else Fired(rest.currentBeat, ToSeq(a.event) + rest.events)
  }

  /** One send of a count-recursive series. */
  lemma SeriesStep(s: Schedule, currentBeat: nat, first: int, step: int, n: nat)
    requires n > 0 && Readable(s, currentBeat)
    ensures var a := SendBlitEvent(s, currentBeat, first);
            var rest := Series(s, a.nextBeat + 1, first - step, step, n - 1);
            Series(s, currentBeat, first, step, n) ==
              if rest.Overrun? then Overrun else Fired(rest.currentBeat, ToSeq(a.event) + rest.events)
  {
  }

  /** Dropping the first offset starts the offsets one interval lower. */
  lemma OffsetsTail(first: int, step: int, n: nat)
    requires n > 0
    ensures Offsets(first, step, n)[0] == first
    ensures Offsets(first, step, n)[1..] == Offsets(first - step, step, n - 1)
  {
    assert Offsets(first, step, n) == [first] + Offsets(first - step, step, n - 1);
  }

  /** The count-recursive series is the series over the offset sequence. */
  lemma {:induction false} SeriesIsFire(s: Schedule, currentBeat: nat, first: int, step: int, n: nat)
    ensures Series(s, currentBeat, first, step, n) == Fire(s, currentBeat, Offsets(first, step, n))
    decreases n
  {
    var offsets := Offsets(first, step, n);
    if n == 0 {
      assert offsets == [];
      assert Series(s, currentBeat, first, step, n) == Fire(s, currentBeat, offsets);
    } else if !Readable(s, currentBeat) {
      assert Fire(s, currentBeat, offsets) == Overrun;
      assert Series(s, currentBeat, first, step, n) == Fire(s, currentBeat, offsets);
    } else {
      var a := SendBlitEvent(s, currentBeat, first);
      OffsetsTail(first, step, n);
      var rest := Series(s, a.nextBeat + 1, first - step, step, n - 1);
      SeriesIsFire(s, a.nextBeat + 1, first - step, step, n - 1);
      var frest := Fire(s, a.nextBeat + 1, offsets[1..]);
      assert frest == rest;
      FireStep(s, currentBeat, offsets);
      assert Fire(s, currentBeat, offsets) ==
        if rest.Overrun? then Overrun else Fired(rest.currentBeat, ToSeq(a.event) + rest.events);
      SeriesStep(s, currentBeat, first, step, n);
    }
  }

  /** The catch-up loop from counter `i` is the series of its remaining iterations. */
  lemma {:induction false} CatchUpIsSeries(s: Schedule, ticks: int, delta: int, i: int, currentBeat: nat, timeOffset: int)
    requires s.blitOnMS > 0
    ensures var n := Iterations(delta - i, s.blitOnMS);
            Agree(CatchUp(s, ticks, delta, i, currentBeat, timeOffset),
                  Series(s, currentBeat, ticks - timeOffset, s.blitOnMS, n),
                  Advanced(timeOffset, s.blitOnMS, n))
    decreases delta - i
  {
    if i < delta {
      var B := s.blitOnMS;
      var n := Iterations(delta - i, B);
      assert n == 1 + Iterations(delta - (i + B), B);
      if Readable(s, currentBeat) {
        var a := SendBlitEvent(s, currentBeat, ticks - timeOffset);
        assert ticks - timeOffset - B == ticks - (timeOffset + B);
        CatchUpIsSeries(s, ticks, delta, i + B, a.nextBeat + 1, timeOffset + B);
      }
    }
  }

  /**
    The literal catch-up loop is the reference series of sends: one per
    remaining iteration, with offsets `ticks - timeOffset` falling by one
    interval per round, and it leaves `timeOffset` advanced by one interval per round.
  */
  lemma CatchUpIsFire(s: Schedule, ticks: int, delta: int, i: int, currentBeat: nat, timeOffset: int)
    requires s.blitOnMS > 0
    ensures var n := Iterations(delta - i, s.blitOnMS);
            Agree(CatchUp(s, ticks, delta, i, currentBeat, timeOffset),
                  Fire(s, currentBeat, Offsets(ticks - timeOffset, s.blitOnMS, n)),
                  timeOffset + n * s.blitOnMS)
  {
    var n := Iterations(delta - i, s.blitOnMS);
    CatchUpIsSeries(s, ticks, delta, i, currentBeat, timeOffset);
    SeriesIsFire(s, currentBeat, ticks - timeOffset, s.blitOnMS, n);
    AdvancedIsProduct(timeOffset, s.blitOnMS, n);
  }

  /**
    The catch-up branch: a gap `delta` of at least two intervals makes
    k = ceil(delta / blitOnMS) >= 2 send attempts, with offsets
    `ticks - (previousTick + j * blitOnMS)` for j = 0 .. k-1, after the finished
    notice; `previousTick` becomes `ticks + previousTick + k * blitOnMS`.
  */
  lemma CatchUpBranch(s: Schedule, c: Cursor, ticks: int)
    requires s.blitOnMS > 0
    requires ticks - c.previousTick >= 2 * s.blitOnMS
    ensures var delta := ticks - c.previousTick;
            var k := Iterations(delta, s.blitOnMS);
            && k >= 2
            && (k - 1) * s.blitOnMS < delta <= k * s.blitOnMS
    ensures var k := Iterations(ticks - c.previousTick, s.blitOnMS);
            var offsets := Offsets(ticks - c.previousTick, s.blitOnMS, k);
            && (forall j :: 0 <= j < k ==> offsets[j] == ticks - (c.previousTick + j * s.blitOnMS))
            && OnFrame(s, c, ticks, false) ==
               match Fire(s, c.currentBeat, offsets)
               case Overrun => PastEnd
               case Fired(cb, evs) =>
                 Defined(Cursor(cb, ticks + c.previousTick + k * s.blitOnMS), Notice(s, c) + evs)
  {
    var B := s.blitOnMS;
    var delta := ticks - c.previousTick;
    IterationsIsCeil(delta, B);
    OffsetsAt(delta, B, Iterations(delta, B));
    CatchUpIsFire(s, ticks, delta, 0, c.currentBeat, c.previousTick);
  }

  /**
    The normal branch: a gap of one interval (but not two) makes exactly one
    send attempt, with offset `ticks % (blitOnMS + 50)`, which lies in
    [0, blitOnMS + 50) for a non-negative reading; `previousTick` becomes `ticks`.
  */
  lemma NormalBranch(s: Schedule, c: Cursor, ticks: int)
    requires s.blitOnMS > 0
    requires s.blitOnMS <= ticks - c.previousTick < 2 * s.blitOnMS
    ensures ticks >= 0 ==> 0 <= CRem(ticks, s.blitOnMS + 50) < s.blitOnMS + 50
    ensures OnFrame(s, c, ticks, false) ==
            match Fire(s, c.currentBeat, [CRem(ticks, s.blitOnMS + 50)])
            case Overrun => PastEnd
            case Fired(cb, evs) => Defined(Cursor(cb, ticks), Notice(s, c) + evs)
  {
    var o := [CRem(ticks, s.blitOnMS + 50)];
    assert o[1..] == [];
  }

  /** The blits of consecutive real beats from `currentBeat` on, one per offset. */
  function Blits(s: Schedule, currentBeat: nat, offsets: seq<int>): (b: seq<Event>)
    requires AllBeats(s, currentBeat, currentBeat + |offsets|)
    ensures |b| == |offsets|
    ensures forall j :: 0 <= j < |offsets| ==>
      b[j] == CreateBlit(s.channel0[currentBeat + j], s.channel1[currentBeat + j], offsets[j])
    decreases |offsets|
  {
    if |offsets| == 0 then []
    else [CreateBlit(s.channel0[currentBeat], s.channel1[currentBeat], offsets[0])]
         + Blits(s, currentBeat + 1, offsets[1..])
  }

  /** The first blit of a run of real beats. */
  lemma BlitsStep(s: Schedule, currentBeat: nat, offsets: seq<int>)
    requires |offsets| > 0 && AllBeats(s, currentBeat, currentBeat + |offsets|)
    ensures Blits(s, currentBeat, offsets) ==
      [CreateBlit(s.channel0[currentBeat], s.channel1[currentBeat], offsets[0])] + Blits(s, currentBeat + 1, offsets[1..])
  {
  }

  /** Where no beat of the attempted range is a sentinel, every attempt emits, in order. */
  lemma {:induction false} FireAllBeats(s: Schedule, currentBeat: nat, offsets: seq<int>)
    requires AllBeats(s, currentBeat, currentBeat + |offsets|)
    ensures Fire(s, currentBeat, offsets) == Fired(currentBeat + |offsets|, Blits(s, currentBeat, offsets))
    decreases |offsets|
  {
    if |offsets| > 0 {
      var head := CreateBlit(s.channel0[currentBeat], s.channel1[currentBeat], offsets[0]);
      var a := SendBlitEvent(s, currentBeat, offsets[0]);
      assert a == Attempt(currentBeat, Some(head));
      FireAllBeats(s, currentBeat + 1, offsets[1..]);
      var rest := Blits(s, currentBeat + 1, offsets[1..]);
      assert Fire(s, currentBeat + 1, offsets[1..]) == Fired(currentBeat + |offsets|, rest);
      BlitsStep(s, currentBeat, offsets);
      FireStep(s, currentBeat, offsets);
    }
  }

  /** A sentinel in either channel at the cursor: the send emits nothing and the cursor moves by two. */
  lemma SentinelSkipsTwice(s: Schedule, c: Cursor, ticks: int)
    requires s.blitOnMS > 0
    requires s.blitOnMS <= ticks - c.previousTick < 2 * s.blitOnMS
    requires Readable(s, c.currentBeat)
    requires s.channel0[c.currentBeat] < 1.0 || s.channel1[c.currentBeat] < 1.0
    ensures OnFrame(s, c, ticks, false) == Defined(Cursor(c.currentBeat + 2, ticks), Notice(s, c))
  {
  }

  /**
    Past the end of channel 0, a defined frame pushes exactly `Finished` and no
    blit, and leaves the cursor where it was, so every later frame does the same.
  */
  lemma FinishedFrame(s: Schedule, c: Cursor, ticks: int)
    requires s.blitOnMS > 0
    requires c.currentBeat > |s.channel0|
    ensures OnFrame(s, c, ticks, false).Defined? ==> OnFrame(s, c, ticks, false) == Defined(c, [Finished])
  {
    var delta := ticks - c.previousTick;
    if delta >= 2 * s.blitOnMS {
      assert Iterations(delta, s.blitOnMS) > 0;
      CatchUpBranch(s, c, ticks);
    }
  }

  /** `Finished` is in a defined, unpaused frame's events exactly when the cursor is past channel 0. */
  lemma FinishedIffExhausted(s: Schedule, c: Cursor, ticks: int)
    requires s.blitOnMS > 0
    requires OnFrame(s, c, ticks, false).Defined?
    ensures Finished in OnFrame(s, c, ticks, false).events <==> c.currentBeat > |s.channel0|
  {
    var r := OnFrame(s, c, ticks, false);
    var n := Notice(s, c);
    if Finished in r.events {
      var k :| 0 <= k < |r.events| && r.events[k] == Finished;
      if k >= |n| {
        assert IsBlit(r.events[k]);
      }
    }
  }

  /**
    A due frame with the cursor exactly at the end of channel 0 reads
    `channel0[|channel0|]`, past the end: `Finished` is not yet pushed (it needs
    `currentBeat > |channel0|`), and the frame is undefined. A run of defined
    frames gets past the end only by skipping a sentinel at the last beat.
  */
  lemma EndReadsPastEnd(s: Schedule, c: Cursor, ticks: int)
    requires s.blitOnMS > 0
    requires c.currentBeat == |s.channel0|
    requires ticks - c.previousTick >= s.blitOnMS
    ensures Notice(s, c) == []
    ensures OnFrame(s, c, ticks, false) == PastEnd
  {
  }

  /**
    Example: channel 1 is never read at a sentinel of channel 0. With an empty
    channel 1, a sentinel at beat 0 is skipped and the cursor moves to beat 2.
  */
  lemma ExampleSentinelBeforeShortChannel()
    ensures OnFrame(Schedule([0.5], [], 500), Cursor(0, 0), 500, false) == Defined(Cursor(2, 500), [])
  {
    assert CRem(500, 550) == 500;
  }

  /**
    The catch-up branch sets `previousTick` to `ticks + previousTick + k * blitOnMS`,
    which is at least `2 * ticks`: the next blit is not due before the reading
    exceeds twice the one of the catch-up frame.
  */
  lemma CatchUpDelaysNextBeat(s: Schedule, c: Cursor, ticks: int, later: int)
    requires s.blitOnMS > 0
    requires ticks - c.previousTick >= 2 * s.blitOnMS
    requires OnFrame(s, c, ticks, false).Defined?
    requires later < 2 * ticks + s.blitOnMS
    ensures OnFrame(s, c, ticks, false).cursor.previousTick >= 2 * ticks
    ensures var c' := OnFrame(s, c, ticks, false).cursor;
            OnFrame(s, c', later, false) == Defined(c', Notice(s, c'))
  {
    CatchUpBranch(s, c, ticks);
  }

  /**
    Example of a stall: at 500 ms per blit, a gap of 1200 ms makes
    ceil(1200 / 500) = 3 sends, at offsets 1200, 700 and 200, and moves the
    cursor by 3 when none of those beats is a sentinel.
  */
  lemma ExampleCatchUp(s: Schedule, c: Cursor)
    requires s.blitOnMS == 500
    requires AllBeats(s, c.currentBeat, c.currentBeat + 3)
    ensures var b := c.currentBeat;
            OnFrame(s, c, c.previousTick + 1200, false) ==
            Defined(Cursor(b + 3, 2 * c.previousTick + 2700),
                    Notice(s, c) + [CreateBlit(s.channel0[b], s.channel1[b], 1200),
                                    CreateBlit(s.channel0[b + 1], s.channel1[b + 1], 700),
                                    CreateBlit(s.channel0[b + 2], s.channel1[b + 2], 200)])
  {
    var ticks := c.previousTick + 1200;
    ExampleIterations();
    ExampleFire(s, c.currentBeat);
    CatchUpBranch(s, c, ticks);
  }

  /** The three sends of the stall example, over three real beats. */
  lemma ExampleFire(s: Schedule, b: nat)
    requires AllBeats(s, b, b + 3)
    ensures Offsets(1200, 500, 3) == [1200, 700, 200]
    ensures Fire(s, b, Offsets(1200, 500, 3)) ==
            Fired(b + 3, [CreateBlit(s.channel0[b], s.channel1[b], 1200),
                          CreateBlit(s.channel0[b + 1], s.channel1[b + 1], 700),
                          CreateBlit(s.channel0[b + 2], s.channel1[b + 2], 200)])
  {
    var offsets := Offsets(1200, 500, 3);
    assert offsets == [1200, 700, 200];
    FireAllBeats(s, b, offsets);
    var blits := Blits(s, b, offsets);
    assert blits == [blits[0], blits[1], blits[2]];
  }

  /** A gap of 1200 ms at 500 ms per blit runs the catch-up loop three times. */
  lemma ExampleIterations()
    ensures Iterations(1200, 500) == 3
  {
    assert Iterations(200, 500) == 1 + Iterations(-300, 500);
  }

  /** Example: a gap of 300 ms at 500 ms per blit sends nothing and moves nothing. */
  lemma ExampleNotDue(s: Schedule, c: Cursor)
    requires s.blitOnMS == 500
    ensures OnFrame(s, c, c.previousTick + 300, false) == Defined(c, Notice(s, c))
  {
  }
}
