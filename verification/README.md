# OnBeat beat scheduler in Dafny

OnBeat is a rhythm game. It analyses an audio file into two channels of
per-frame beat strengths. While the song plays, a rhythm scene sends the beats
at a fixed interval (`blitOnMS`) as `CREATE_BLIT` events on the SDL queue. The
game loop places each event as one note per channel. A note goes into a "weak"
or a "strong" column, split by a per-channel threshold. When the cursor runs
past the end of the song, the scene pushes `FINISHED_RHYTHM`: on every unpaused
frame with `currentBeat` greater than the length of channel 0. A frame that is due at
`currentBeat` equal to that length reads one beat past the end
(`Scheduler.EndReadsPastEnd`), so a well-defined run reaches the finish only by
skipping a sentinel at the last beat, which moves the cursor by two. The settings
file supplies a `"WxH"` resolution, input bindings and a skin path.

This project models that core as pure functions over immutable records:

- `Thresholds`: `calculateThreshold`, the mean of the strengths that are at least 1, or NaN when there are none.
- `BeatTimer`: the `Timer` stopwatch. The clock reading `SDL_GetTicks()` is an explicit `now` argument.
- `Columns`: the column choice of `addBeatBlit`.
- `Scheduler`: `RhythmScene::sendBlitEvent` and `RhythmScene::onFrame`.
  - A frame is a transition from a cursor (`currentBeat`, `previousTick`), a timer reading and a pause flag to a new cursor and the events pushed, in order.
  - The catch-up loop is modelled literally (`CatchUp`) and proved equal to a reference series of send attempts (`Fire` over `Offsets`).
- `Scenes`: the `RhythmScene` constructor, `startScene`, and a frame driven by the scene's own timer.
- `Game`: the `CREATE_BLIT` / `FINISHED_RHYTHM` dispatch of the event loop and `createNewBeatScene`'s thresholds. The scene map is reduced to its `"Rhythm Scene"` entry (absent, null or a scene), and the document to the list of placed notes.
- `Resolution`: `from_json`'s resolution split with `find`, `substr` and `std::stoi`. It includes the `size_t` wrap of `npos + 1` and the 32-bit `int` range.
- `Settings`: the input-binding loop and the skin path with backslashes replaced.

C++ undefined behaviour is modelled as follows:

- A beat read past the end of a channel makes the frame `PastEnd`. Nothing is claimed about that outcome. Channel 1 is read only when the beat of channel 0 is not a sentinel, as the `||` of the sentinel test stops early.
- `0.0 / 0.0` is the `NotANumber` threshold. Every `<` comparison against it is false.

A frame that finds a gap of 1200 ms at 500 ms per blit makes
ceil(1200 / 500) = 3 catch-up sends (`Scheduler.ExampleCatchUp`).

## Model

| member | source | states |
|---|---|---|
| Thresholds.CalculateThreshold | src/include/AudioBeatSDL/AudioBeatGame.cpp:43-54 | NaN exactly when no strength is at least 1. Otherwise the value times the qualifying count is the qualifying sum, and the value is at least 1. |
| Thresholds.ComputeThreshold | src/include/AudioBeatSDL/AudioBeatGame.cpp:43-54 | The one-pass loop accumulating `avg` and `size` returns the threshold. |
| Thresholds.SumAtLeastCount | src/include/AudioBeatSDL/AudioBeatGame.cpp:46-52 | The sum of the entries that are at least 1 is at least their count. |
| Thresholds.ThresholdAtMostMax | src/include/AudioBeatSDL/AudioBeatGame.cpp:43-54 | A mean threshold never exceeds an upper bound of the qualifying strengths. |
| Thresholds.CountZeroIffNoneQualifies | src/include/AudioBeatSDL/AudioBeatGame.cpp:46-52 | The count is zero iff no entry is at least 1. |
| Thresholds.Filter | src/include/AudioBeatSDL/AudioBeatGame.cpp:47-51 | Every kept entry is at least 1, and every entry at least 1 is kept as often as it occurs: the filtered multiset is the input's restricted to strengths at least 1. |
| Thresholds.FilterAgrees | src/include/AudioBeatSDL/AudioBeatGame.cpp:46-52 | The loop's sum and count are the sum and length of the filtered sequence. |
| Thresholds.ThresholdIsMeanOfFiltered | src/include/AudioBeatSDL/AudioBeatGame.cpp:43-54 | The threshold is the arithmetic mean of the entries at least 1 (NaN when there are none). Sentinels count in neither sum nor count. |
| Thresholds.FilterAllQualifying | src/include/AudioBeatSDL/AudioBeatGame.cpp:47-51 | Nothing is filtered out when every entry is at least 1. |
| Thresholds.ThresholdOfAllBeats | src/include/AudioBeatSDL/AudioBeatGame.cpp:43-54 | With no sentinel the threshold is the plain mean. |
| Thresholds.FilterIsInvisible | src/include/AudioBeatSDL/AudioBeatGame.cpp:43-54 | Removing the sentinels first leaves the threshold unchanged. |
| Thresholds.ExampleThreshold | src/include/AudioBeatSDL/AudioBeatGame.cpp:43-54 | [0.5, 2.0, 3.0] has threshold 2.5. |
| BeatTimer.NewTimer | src/include/AudioBeatSDL/AudioBeatGame.cpp:60-67 | A constructed timer is stopped, unpaused and reads 0 at every instant. |
| BeatTimer.Start | src/include/AudioBeatSDL/AudioBeatGame.cpp:69-79 | Started and unpaused from any state. It reads 0 at the start instant and `later - now` at every later reading. |
| BeatTimer.Stop | src/include/AudioBeatSDL/AudioBeatGame.cpp:81-88 | Stopped and unpaused, reads 0 at every instant, keeps the stored tick fields. |
| BeatTimer.Pause | src/include/AudioBeatSDL/AudioBeatGame.cpp:90-101 | Acts iff started and not paused, else is the identity. Keeps `paused ==> started` and the reading at `now`, then stays frozen. |
| BeatTimer.Unpause | src/include/AudioBeatSDL/AudioBeatGame.cpp:103-117 | Acts iff paused, else is the identity. Keeps the reading at `now`, then follows the clock. Keeps `paused ==> started` and clears `pausedTicks`. |
| BeatTimer.GetTicks | src/include/AudioBeatSDL/AudioBeatGame.cpp:119-139 | A stopped timer reads 0. A paused one reads the frozen `pausedTicks`. A running one reads the time elapsed since `startTicks`. |
| BeatTimer.StopIdempotent | src/include/AudioBeatSDL/AudioBeatGame.cpp:81-88 | Stopping twice is stopping once. |
| BeatTimer.PauseIdempotent | src/include/AudioBeatSDL/AudioBeatGame.cpp:90-101 | A second pause, at any instant, is a no-op. |
| BeatTimer.UnpauseIdempotent | src/include/AudioBeatSDL/AudioBeatGame.cpp:103-117 | A second unpause is a no-op. |
| BeatTimer.TicksFollowClock | src/include/AudioBeatSDL/AudioBeatGame.cpp:119-139 | A valid timer reads 0 when stopped and the frozen `pausedTicks` whatever `now` is when paused. Otherwise it advances by exactly the clock difference. |
| BeatTimer.PauseIsContinuous | src/include/AudioBeatSDL/AudioBeatGame.cpp:69-139 | Start at t0, pause at t1, resume at t2, read at t3 gives (t1 - t0) + (t3 - t2). |
| Columns.ColumnOf | src/include/AudioBeatSDL/AudioBeatGame.cpp:206-222 | The column built from a lane and a strength has that lane and strength. |
| Columns.ColumnOfLaneAndStrength | src/include/AudioBeatSDL/AudioBeatGame.cpp:206-222 | The four columns are exactly the lane/strength pairs. |
| Columns.ColumnFor | src/include/AudioBeatSDL/AudioBeatGame.cpp:197-222 | No column iff channel > 1 or strength < 1. Channel 0 takes the left lane and every other channel the right lane. Strong iff not below that lane's threshold. |
| Columns.NaNThresholdIsAlwaysStrong | src/include/AudioBeatSDL/AudioBeatGame.cpp:208-221 | With a NaN threshold every beat of that lane goes to the strong column. |
| Columns.ExampleClassification | src/include/AudioBeatSDL/AudioBeatGame.cpp:197-222 | Against threshold 2.5, strength 2.0 goes to Column1, 3.0 to Column2 and 0.5 nowhere. |
| Scheduler.Notice | src/include/AudioBeatSDL/AudioBeatGame.cpp:769-770 | The finished notice is `[Finished]` iff `currentBeat > |channel0|`, else empty. |
| Scheduler.SendBlitEvent | src/include/AudioBeatSDL/AudioBeatGame.cpp:738-761 | Defined whenever the beat of channel 0 exists and, unless it is a sentinel, the beat of channel 1 too. A sentinel in either channel pushes nothing and moves the cursor by one. Otherwise the event carries both strengths and the offset, and the cursor stays. |
| Scheduler.CRem | src/include/AudioBeatSDL/AudioBeatGame.cpp:789 | C++ `%`: `a == q * m + r`, with the remainder in [0, m) for a >= 0 and in (-m, 0] for a < 0. |
| Scheduler.Iterations | src/include/AudioBeatSDL/AudioBeatGame.cpp:778 | The loop runs zero times iff the gap is not positive, and at most once only for a gap of at most one interval. |
| Scheduler.IterationsIsCeil | src/include/AudioBeatSDL/AudioBeatGame.cpp:778 | The number of rounds k satisfies (k-1)·B < delta <= k·B, that is, ceil(delta / B). |
| Scheduler.CatchUp | src/include/AudioBeatSDL/AudioBeatGame.cpp:776-783 | The catch-up loop never moves the cursor back. |
| Scheduler.CatchUpEmitsBlits | src/include/AudioBeatSDL/AudioBeatGame.cpp:778-783 | Every event the loop pushes is a blit of a beat that is at least 1 in both channels. |
| Scheduler.OnFrame | src/include/AudioBeatSDL/AudioBeatGame.cpp:763-797 | Paused: no events, cursor unchanged. Gap under one interval: only the notice, cursor unchanged. `currentBeat` never decreases. Unpaused events start with the notice, and everything after it is a real blit. |
| Scheduler.Offsets | src/include/AudioBeatSDL/AudioBeatGame.cpp:776-781 | There are exactly n offsets. |
| Scheduler.OffsetsAt | src/include/AudioBeatSDL/AudioBeatGame.cpp:776-781 | The j-th offset is `first - j * step`. |
| Scheduler.Fire | src/include/AudioBeatSDL/AudioBeatGame.cpp:738-761 | After a series of sends, the cursor plus the number of events is the start plus twice the attempts. There are at most as many events as attempts. The series never overruns when both channels are long enough. |
| Scheduler.FireEmitsBlits | src/include/AudioBeatSDL/AudioBeatGame.cpp:738-761 | Every event of a series is a real blit carrying one of the offsets. |
| Scheduler.SeriesIsFire | src/include/AudioBeatSDL/AudioBeatGame.cpp:778-783 | The count-recursive series equals the series over the offset sequence. |
| Scheduler.CatchUpIsSeries | src/include/AudioBeatSDL/AudioBeatGame.cpp:776-783 | The literal loop agrees with the series of its remaining rounds: same overrun, cursor and events, with `timeOffset` advanced once per round. |
| Scheduler.CatchUpIsFire | src/include/AudioBeatSDL/AudioBeatGame.cpp:776-783 | The literal loop is the reference series over offsets `ticks - timeOffset - j·B`. It ends with `timeOffset + k·B`. |
| Scheduler.AdvancedIsProduct | src/include/AudioBeatSDL/AudioBeatGame.cpp:781 | Adding B in each of n rounds adds n·B. |
| Scheduler.CatchUpBranch | src/include/AudioBeatSDL/AudioBeatGame.cpp:775-785 | A gap of at least 2B gives k = ceil(delta/B) >= 2 attempts at offsets `ticks - (previousTick + j·B)`, after the notice. `previousTick` becomes `ticks + previousTick + k·B`. |
| Scheduler.NormalBranch | src/include/AudioBeatSDL/AudioBeatGame.cpp:787-793 | A gap in [B, 2B) gives exactly one attempt at offset `ticks % (B + 50)`, which lies in [0, B + 50) for ticks >= 0. `previousTick` becomes `ticks`. |
| Scheduler.Blits | src/include/AudioBeatSDL/AudioBeatGame.cpp:744-760 | Over real beats, the j-th event carries beat `currentBeat + j` of both channels and the j-th offset. |
| Scheduler.FireAllBeats | src/include/AudioBeatSDL/AudioBeatGame.cpp:738-761 | Over a range with no sentinel every attempt emits, in order, and the cursor moves by one per attempt. |
| Scheduler.SentinelSkipsTwice | src/include/AudioBeatSDL/AudioBeatGame.cpp:740-742 | A sentinel in the normal branch emits nothing and moves `currentBeat` by two. |
| Scheduler.FinishedFrame | src/include/AudioBeatSDL/AudioBeatGame.cpp:769-797 | Past the end of channel 0 a defined frame pushes only `Finished` and leaves the cursor as it was. |
| Scheduler.FinishedIffExhausted | src/include/AudioBeatSDL/AudioBeatGame.cpp:769-770 | `Finished` is among a defined frame's events iff `currentBeat > |channel0|`. |
| Scheduler.EndReadsPastEnd | src/include/AudioBeatSDL/AudioBeatGame.cpp:738-797 | A frame at `currentBeat` equal to the length of channel 0 pushes no finished notice, and when it is due it reads past the end. |
| Scheduler.ExampleSentinelBeforeShortChannel | src/include/AudioBeatSDL/AudioBeatGame.cpp:738-793 | A sentinel in channel 0 is skipped even when channel 1 has no beat there: `[0.5]` against an empty channel 1 moves the cursor from 0 to 2 and pushes nothing. |
| Scheduler.CatchUpDelaysNextBeat | src/include/AudioBeatSDL/AudioBeatGame.cpp:784 | After a catch-up, `previousTick >= 2·ticks`, so every frame with a reading below `2·ticks + B` sends nothing. |
| Scheduler.ExampleCatchUp | src/include/AudioBeatSDL/AudioBeatGame.cpp:775-785 | At B = 500 a 1200 ms gap makes three sends, at offsets 1200, 700 and 200. The cursor moves by 3 and `previousTick` becomes `2·previousTick + 2700`. |
| Scheduler.ExampleFire | src/include/AudioBeatSDL/AudioBeatGame.cpp:738-761 | Three sends at 1200, 700 and 200 over real beats give three blits in order. |
| Scheduler.ExampleIterations | src/include/AudioBeatSDL/AudioBeatGame.cpp:778 | A 1200 ms gap at 500 ms runs the loop 3 times. |
| Scheduler.ExampleNotDue | src/include/AudioBeatSDL/AudioBeatGame.cpp:787-796 | A 300 ms gap at 500 ms changes nothing. |
| Scenes.TruncToInt | src/include/AudioBeatSDL/AudioBeatGame.cpp:734 | `(int)` of a double truncates toward zero. |
| Scenes.NewRhythmScene | src/include/AudioBeatSDL/AudioBeatGame.cpp:729-736 | `blitOnMS` is the truncation of `blitTiming·1000 + 50`, and at least 50 for a non-negative timing. The beats are kept. |
| Scenes.StartScene | src/include/AudioBeatSDL/AudioBeatGame.cpp:799-802 | The scene is running with a started, unpaused timer reading `later - now`. Schedule and cursor are unchanged. |
| Scenes.Frame | src/include/AudioBeatSDL/AudioBeatGame.cpp:763-772 | A frame with a paused timer is a no-op. `currentBeat` never decreases. |
| Scenes.Advance | src/include/AudioBeatSDL/AudioBeatGame.cpp:763-797 | Only the cursor of the scene changes. |
| Scenes.QuietAfterStart | src/include/AudioBeatSDL/AudioBeatGame.cpp:729-802 | A freshly started scene sends nothing before one interval has passed. |
| Scenes.FirstBeat | src/include/AudioBeatSDL/AudioBeatGame.cpp:729-802 | The first frame in [B, 2B) after start sends beat 0 with offset `ticks % (B + 50)` and moves the cursor to 1. |
| Game.CreateNewBeatScene | src/include/AudioBeatSDL/AudioBeatGame.cpp:256-270 | Each threshold is computed from its own channel, and the `"Rhythm Scene"` entry holds the new scene. |
| Game.AddBeatBlit | src/include/AudioBeatSDL/AudioBeatGame.cpp:194-234 | One note iff channel <= 1 and strength >= 1, in the column of `ColumnFor`, with that strength and offset. |
| Game.HandleEvent | src/include/AudioBeatSDL/AudioBeatGame.cpp:506-519 | A blit places channel 0 against threshold 1, then channel 1 against threshold 2. It keeps an existing `"Rhythm Scene"` entry, and its `operator[]` lookup inserts a null entry when there is none. `Finished` removes the entry. Thresholds are unchanged. |
| Game.BlitPlacesTwoNotes | src/include/AudioBeatSDL/AudioBeatGame.cpp:506-514 | A real blit adds exactly two notes, left lane then right lane, each strong iff not below its own threshold. |
| Game.Drain | src/include/AudioBeatSDL/AudioBeatGame.cpp:506-519 | After the queue is drained, a scene is still registered iff one was and no `Finished` came, and then it is the same scene. A trailing `Finished` leaves no entry, a trailing blit leaves one. Earlier notes are kept. |
| Game.DrainPlacesTwoPerBlit | src/include/AudioBeatSDL/AudioBeatGame.cpp:506-514 | Real blits and `Finished` events place two notes per blit. |
| Game.FrameThenDrain | src/include/AudioBeatSDL/AudioBeatGame.cpp:506-519 | Consuming one defined frame of a registered scene places two notes per blit. It removes the entry iff the cursor was past the end of channel 0, and otherwise keeps the scene. |
| Game.ExampleBlitAfterFinished | src/include/AudioBeatSDL/AudioBeatGame.cpp:506-519 | `Finished` then a blit leaves a null `"Rhythm Scene"` entry. |
| Resolution.FindX | src/OnBeat/Config/Config.cpp:58 | `find('x')` is the first `'x'`, or `npos` exactly when there is none. |
| Resolution.Substr | src/OnBeat/Config/Config.cpp:58-59 | `substr` fails iff the position is past the end. Otherwise it is the slice from there, clipped to the length. |
| Resolution.SkipSpace | src/OnBeat/Config/Config.cpp:58-59 | `stoi` skips exactly the leading white space. |
| Resolution.DigitRun | src/OnBeat/Config/Config.cpp:58-59 | `stoi` reads the maximal run of leading digits. |
| Resolution.Stoi | src/OnBeat/Config/Config.cpp:58-59 | A successful `stoi` lies in the 32-bit `int` range. Its value and errors are stated by `StoiOfText` and `StoiWithoutDigits`. |
| Resolution.Convert | src/OnBeat/Config/Config.cpp:58-59 | `invalid_argument` exactly when no digit follows the sign, and an `Ok` value lies in the 32-bit `int` range. |
| Resolution.SkipSpaceOver | src/OnBeat/Config/Config.cpp:58-59 | All the leading white space is skipped, and nothing after it. |
| Resolution.DigitRunThenStop | src/OnBeat/Config/Config.cpp:58-59 | The digit run of digits followed by a non-digit is exactly those digits. |
| Resolution.ConvertText | src/OnBeat/Config/Config.cpp:58-59 | Digits followed by a non-digit convert to their value with the sign, or to `out_of_range` outside the 32-bit range. |
| Resolution.ReadSignedOfSign | src/OnBeat/Config/Config.cpp:58-59 | No sign, `+` and `-` each convert the digits behind them, negated only for `-`. |
| Resolution.StoiOfText | src/OnBeat/Config/Config.cpp:58-59 | White space, an optional sign, digits and a rest not starting with a digit: the signed value of the digits, or `out_of_range` when it is outside [-2^31, 2^31 - 1]. The rest is ignored. |
| Resolution.StoiWithoutDigits | src/OnBeat/Config/Config.cpp:58-59 | White space and an optional sign not followed by a digit give `invalid_argument`. |
| Resolution.ExampleStoiSigned | src/OnBeat/Config/Config.cpp:58-59 | `" -42px"` reads as -42. |
| Resolution.ExampleStoiBounds | src/OnBeat/Config/Config.cpp:58-59 | The digits of 2147483648 are `out_of_range`, and with a minus sign they are `INT_MIN`. |
| Resolution.WidthText | src/OnBeat/Config/Config.cpp:58 | The width text is the prefix before the first `'x'`, or the whole string without one. |
| Resolution.HeightText | src/OnBeat/Config/Config.cpp:59 | With an `'x'` the string is width text + "x" + height text. Without one, `npos + 1` wraps to 0 and the height text is the whole string. |
| Resolution.ParseResolution | src/OnBeat/Config/Config.cpp:57-59 | Succeeds iff both texts parse, with those values. A width error is reported first, then a height error. |
| Resolution.NatToString | src/OnBeat/Config/Config.cpp:57-59 | The decimal rendering is non-empty, all digits, with the number's value. |
| Resolution.StoiOfDecimal | src/OnBeat/Config/Config.cpp:58-59 | `stoi` reads back every in-range decimal rendering. |
| Resolution.StoiOfDigits | src/OnBeat/Config/Config.cpp:58-59 | An all-digit string in range is read as its value. |
| Resolution.ResolutionRoundTrip | src/OnBeat/Config/Config.cpp:57-59 | `"W" + "x" + "H"` in decimal parses back to (W, H). |
| Resolution.NoSeparatorIsSquare | src/OnBeat/Config/Config.cpp:57-59 | Without an `'x'` width and height are the same number. |
| Resolution.ExampleResolutions | src/OnBeat/Config/Config.cpp:57-59 | `"x600"` fails with `invalid_argument`, and `"7"` is 7 by 7. |
| Settings.ApplyBindings | src/OnBeat/Config/Config.cpp:25-36 | An entry is written iff its value names an enumerator, and then with that enumerator. Every other existing entry is unchanged, and no other key appears. |
| Settings.ReadBindings | src/OnBeat/Config/Config.cpp:25-36 | The loop over the items, in any order, has the same three properties as `ApplyBindings`. |
| Settings.ReplaceBackslashes | src/OnBeat/Config/Config.cpp:40 | Same length, every backslash becomes `'/'`, every other character is unchanged, no backslash remains. |
| Settings.ReplaceBackslashesIdempotent | src/OnBeat/Config/Config.cpp:40 | Replacing twice is replacing once, and a path without backslashes is unchanged. |
| Settings.SkinPath | src/OnBeat/Config/Config.cpp:38-40 | The skin path is the replaced working directory, then `/assets/user/skins/`, then the replaced skin name, with no backslash. |
| Settings.ExampleReplace | src/OnBeat/Config/Config.cpp:40 | `a\b` becomes `a/b`. |

## Left out

- The frame loop over the scene map (AudioBeatGame.cpp lines 445-447) dereferences a null `"Rhythm Scene"` entry that a late blit left behind: undefined behaviour, so the model stops at the `NullEntry` state (`Game.ExampleBlitAfterFinished`).
- SDL, OpenGL and RmlUi set-up, `runGame`'s polling loop, `loadNewDocument` and window sizing: I/O and UI plumbing over libraries that are not part of this model.
- `AudioPlayer`, FMOD and the audio analysis that produces the two channels: foreign library calls. The channels are inputs.
- `calculateOffsetHeight`, `updateBeats`, `calculateBlitVelocity` and the pixel position of a placed note: floating-point pixel arithmetic through `std::to_string`/`std::stod` and document reads.
- The `double` arithmetic of `blitOn`: frame size over sampling rate is a real `blitTiming`.
- Rounding of `double`s: the beat strengths, the threshold sums and means and `blitTiming` are exact reals. NaN strengths cannot occur; only the threshold of a channel without a qualifying strength is NaN.
- `SDL_GetTicks` is the explicit reading `now`/`ticks`. The clock is taken not to advance within one frame, although the catch-up loop re-reads it for every offset (AudioBeatGame.cpp line 780) and the normal branch re-reads it for its offset (line 789).
- The 32-bit unsigned `SDL_GetTicks` value and its wrap after about 49 days: ticks are unbounded integers.
- The `malloc`ed `void*` payloads of `CREATE_BLIT` and a failed `malloc`: an event carries its two strengths as values.
- Reads past the end of a channel in `sendBlitEvent` are undefined behaviour in C++. They make a frame `PastEnd`, and nothing is claimed about such frames. Only the reads the code makes count: channel 1 is not read when channel 0 holds a sentinel.
- A non-positive `blitOnMS`: the catch-up loop would not terminate. `OnFrame` requires `blitOnMS > 0`, which holds for every non-negative blit timing.
- AudioBeatGame.h is not part of this model. The initial `currentBeat` and `previousTick` of a new scene are taken as 0 and `running` as false.
- `Config.h` is not part of this model. The `Keys` enumeration is a type parameter with its name table, which is what `magic_enum::enum_cast` consults.
- Reading the settings file, nlohmann JSON, `std::filesystem::current_path` (the working directory is an input), `Skin::AppSkin`, the display, fullscreen and volume fields, and `to_json`, whose `char*` arithmetic at line 48 has no meaningful inverse.
- The `Input` value must be a JSON string (`std::string(value)` throws otherwise): the items are a map of strings.
- The `.c_str()` round trip before `stoi`, which cuts the text at a NUL character. `stoi` stops at the first non-digit anyway, so the result is the same.
- `Scheduler.CatchUp`: its own contract only says the cursor never moves back. The full behaviour of the loop is stated by `Scheduler.CatchUpIsFire` and `Scheduler.CatchUpBranch`.
- `Menu.cpp`, `Layer.h`, `App.h`, `OnBeat.h` and `main.js`: rendering, headers and document scripting.
