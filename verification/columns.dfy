/**
  The choice of note column for one beat (the column selection inside
  `AudioBeatGame::addBeatBlit`). Channel 0 feeds the two left columns,
  compared against its own threshold; channel 1 the two right ones.
*/
module Columns {
  import opened Options
  import opened Thresholds

  datatype Column = Column1 | Column2 | Column3 | Column4

  /** 0 for the columns of the first channel, 1 for those of the second. */
  function Lane(c: Column): nat {
    if c == Column1 || c == Column2 then 0 else 1
  }

  /** The "strong beat" column of its lane. */
  predicate Strong(c: Column) {
    c == Column2 || c == Column4
  }

  /** The column of a lane, weak or strong. */
  function ColumnOf(lane: nat, strong: bool): (c: Column)
    requires lane <= 1
    ensures Lane(c) == lane && Strong(c) == strong
  {
    if lane == 0 then (if strong then Column2 else Column1)
    else (if strong then Column4 else Column3)
  }

  /** A column is determined by its lane and strength. */
  lemma ColumnOfLaneAndStrength(c: Column)
    ensures ColumnOf(Lane(c), Strong(c)) == c
  {
  }

  /**
    Where a beat goes. Channels above 1 and strengths below 1 place nothing;
    otherwise channel 0 uses lane 0 and `threshold1`, every other channel lane 1
    and `threshold2`, and the beat is strong unless it is below the threshold.
  */
  function ColumnFor(channel: int, strength: real, threshold1: Threshold, threshold2: Threshold): (r: Option<Column>)
    ensures r.None? <==> channel > 1 || strength < 1.0
    ensures r.Some? ==> Lane(r.value) == (if channel == 0 then 0 else 1)
    ensures r.Some? ==> (Strong(r.value) <==> !Below(strength, if channel == 0 then threshold1 else threshold2))
  {
    if channel > 1 then None
    else if strength < 1.0 then None
    else if channel == 0 then
      (if Below(strength, threshold1) then Some(Column1) else Some(Column2))
    else
      (if Below(strength, threshold2) then Some(Column3) else Some(Column4))
  }

  /** A NaN threshold, left by a channel without beats, makes every beat of that lane strong. */
  lemma NaNThresholdIsAlwaysStrong(channel: int, strength: real, other: Threshold)
    requires 0 <= channel <= 1 && strength >= 1.0
    ensures channel == 0 ==> ColumnFor(channel, strength, NotANumber, other) == Some(Column2)
    ensures channel == 1 ==> ColumnFor(channel, strength, other, NotANumber) == Some(Column4)
  {
  }

  /**
    Example: with channel 0 strengths [0.5, 2.0, 3.0] the threshold is 2.5,
    so 2.0 is a weak beat and 3.0 a strong one, and the 0.5 sentinel is not placed.
  */
  lemma ExampleClassification(other: Threshold)
    ensures ColumnFor(0, 2.0, CalculateThreshold([0.5, 2.0, 3.0]), other) == Some(Column1)
    ensures ColumnFor(0, 3.0, CalculateThreshold([0.5, 2.0, 3.0]), other) == Some(Column2)
    ensures ColumnFor(0, 0.5, CalculateThreshold([0.5, 2.0, 3.0]), other) == None
  {
    ExampleThreshold();
  }
}
