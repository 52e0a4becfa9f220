# Verified model of the SoundFont synthesizer's control side

This project models the control side of a SoundFont 2 synthesizer whose voices are rendered by an
FPGA: the firmware runtime that turns MIDI events into voice commands, the compact asset image it
plays from, the host's command scheduler, the completion protocol that gives voice slots back, the
queue between the two firmware cores, and a handful of fast computations that have a slow
counterpart. `dafny verify dfyconfig.toml` checks everything.

How the files divide the work:

* `CInt`, `Wrappers`, `Channels` - C integers (wrap-around, truncating division), options, channel
  state.
* `Modulation`, `Envelope`, `Scaling`, `ControlFold`, `FoldLimits`, `ControlEvents` - what a voice
  sounds like. Modulator lists are
  compiled into shared programs and their note-static sums are cached; n elapsed milliseconds are
  folded into one step; exponentials are scaled in fixed point. Each is compared with the plain
  per-term, per-tick semantics of the host's reference runtime. `FoldLimits` shows where folding
  must fail, `ControlEvents` which messages leave a voice out of date.
* `Lifecycle`, `Stealing`, `VoiceRuntime`, `ControlJob` - who sounds. `Lifecycle` states the rules on values:
  the partition of slots into free stack and active list, ages, note instances, pedals, the command
  stream, dirty marks. `Stealing` says which slots the layers of one note take from each other.
  `VoiceRuntime.Runtime` is the mutable runtime and keeps all of these at every
  return, sink failures in the middle of a chord included; its validity also says that the counted
  active voices equal the length of the active list. `ControlJob.SynthController` is the sliced
  control job, interleaved with events.
* `CommandQueue`, `CommandScheduler` - the asynchronous scheduler, as atomic steps under its lock.
* `Completion`, `CompletionFrames`, `IngressQueue` - step systems with wrapping 16-bit and 32-bit
  counters, and the completion frames as bytes.
* `LittleEndian`, `PresenceBits`, `ImageCrc`, `AssetFormat`, `AssetBuild`, `AssetView`, `AssetImage`,
  `ZoneCompaction`, `AssetCompiler` - the asset writer, the firmware's validation, and the round
  trip between them.
* `Crc`, `CommandFrames`, `SkipAhead`, `RegionBank` - table against bitwise checksums, host against
  firmware framing, skip-ahead against the frame-by-frame walk, the region cache against its backing.

Methods carry the loops and the state changes of the source and are proved against functions and
predicates on values; the lemmas then say what those functions mean. A command sink that may refuse
is a choice made inside `Emit`, which counts the refusals: a call reports a sink error exactly when a
command of its own was refused.

Some promises hold only under a condition, and the condition is stated with them:

* The firmware treats breath (controller 2) at zero as one, the host as zero. `SourcesAgree` says
  exactly when that matters; compiling and caching keep the firmware's sums in any case.
* The oscillator step computed by the firmware is always 2^32-1, because the multiplier it passes
  already exceeds the 64-bit guard (`LfoAlwaysSaturates`); no rounding is claimed there.
* Pitch rises with cents exactly for increments whose largest product fits 64 bits
  (`PitchMonotoneExactly`); every increment below 2^31 is one.
* Fixed-point scaling rounds right exactly while no doubled remainder leaves 64 bits (`ShiftUp`);
  divisors up to 2^31 never let one (`WideDivisorWraps` shows a wider one). It returns the exact
  value, rounded and clamped, exactly when the product fits 64 bits and the octave is below 63, or
  the value is at the top anyway (`ScaledIsExactly`). Below an octave of -2^32 the shift count is cut
  to 32 bits (`DeepOctave`, `CutOctave`).
* Folding control ticks equals single ticks for every voice of a channel exactly when no marked group
  has an offset on a depth generator, or modulation is off (`FoldSafeExactly`, `DepthOffsetBreaksFold`,
  `VolumeOffsetBreaksFold`). Against the host's own ticks pitch and gains each come out the same
  exactly when they were up to date beforehand (`FoldMeetsHost`).
* A message keeps voices up to date exactly as far as it marks the groups whose programs read it
  (`MessageSafeExactly`); a bend marks pitch alone, so a gain or filter program that reads the wheel
  goes stale (`StaleVoice`).
* The layers of a note take distinct slots exactly while enough voices are left to be stolen
  (`DistinctExactly`); otherwise a later layer takes the slot of an earlier one (`ThirdLayerReturns`).
* A note off whose release the sink refuses leaves a voice that only five things still remove: all
  sound off, a release of all voices, the cut of an exclusive class, stealing, and its own end. No
  later note off and no other controller does (`StrandedIsStuck`, `StuckStays`).
* A voice stolen by a layer whose start the sink then refuses goes on sounding in a slot that is free:
  it was told neither to release nor to stop. `PlaceLayer`, `StartLayer` and `CompleteVoice` say exactly
  which free slots are in that state (`GivenUp`, `TakenBack`).
* A control job advances each of its voices exactly once if and only if no slice of it that the sink
  refused reached one of them (`OnceExactly`); otherwise the retried slice advances them again
  (`RefusalRepeats`), and how far each has moved is stated exactly (`JobServes`). The firmware's own
  loop latches the first refusal and never retries, so every job it finishes meets the condition
  (`ControlLoop`).
* A controller reset during a control job restarts the revision that guards the dirty marks, so a
  mark can be lost (`ResetLosesMark`); `JobEnds` says exactly when.
* Generations repeat after 65535 uses of a slot; `PollFrees` says exactly what a poll frees, and
  `StaleRecordFreesSounding` and `StaleReached` what happens to a record left unread that long.
* An overflow of the completion log or a foreign epoch resets the session: nothing is read, and a new
  session starts with every slot free, or the FPGA stays offline (`ResetStartsOver`). What holds within
  a session holds across any number of them (`SessionsKeep`).
* A zone whose generators do not ascend is accepted but decodes amounts to other operators
  (`RanksArePlacesExactly`, `UnsortedSwaps`).
* Update coalescing covers exactly the voice numbers below 512; a wider one goes through the normal
  queue and can be overtaken by a start (`TagsExactly`).

## Model

| member | source | states |
|---|---|---|
| Modulation.CompileAndCachePreserveMeaning | mcu/msf2.c:870-970 | for every zone and whatever the channel does after a note starts, each sum read through the cached static prefix and the dynamic suffix is the channel offset plus the direct sum over the zone's original modulators for that destination, note-dependent ones excluded for 48 and 17, sources read as the firmware reads them |
| Modulation.CompileAndCacheMeetHost | host/mcu_sf2_asset_runtime.cpp:145-175 | it is also the host's direct sum over the zone's modulators wherever the host reads their sources alike |
| Modulation.ReadingsAgree | mcu/msf2.c:818-849 | every source of a list is read alike by firmware and host if and only if none is breath at zero through a curve that tells zero from one; then all sums agree |
| Modulation.SourcesAgree | mcu/msf2.c:818-849 | the firmware and the host read a controller source alike if and only if it is not breath (controller 2) at zero, or the source's curve takes 0 and 1 to the same value |
| Modulation.BreathCounterexample | mcu/msf2.c:818-849 | with breath at zero and a linear curve the two implementations give one term different values |
| Modulation.MultiplyRounds | mcu/msf2.c:851-855 | the fixed-point product is the nearest integer, ties away from zero, odd in both factors, with one as its unit |
| Modulation.KeyInjective | sim/harness/formats/mcu_sf2_asset.cpp:142-154 | the interning key separates programs: equal keys mean the same family and the same terms in the same order |
| Modulation.FilterKeepsSum | sim/harness/formats/mcu_sf2_asset.cpp:164-177 | dropping zero amounts and foreign destinations keeps the sum read for every destination of the family, breath at zero included |
| Modulation.PartitionSum | sim/harness/formats/mcu_sf2_asset.cpp:178-180 | splitting a program into static and dynamic terms splits its sum |
| Modulation.StaticTerm | mcu/msf2.c:64-74 | a term the compiler calls note-static has one value under every channel state |
| Modulation.CompiledSum | sim/harness/formats/mcu_sf2_asset.cpp:156-209 | static part evaluated at note start plus dynamic part evaluated later is the direct sum over the original modulators, breath at zero included |
| Modulation.CollectTerms | sim/harness/formats/mcu_sf2_asset.cpp:164-177 | the collecting loop keeps exactly the modulators of the family that can contribute, in order |
| Modulation.OrDependencies | sim/harness/formats/mcu_sf2_asset.cpp:195-195 | the dependency loop gives the union of the dependencies of all terms |
| Modulation.CountStatic | sim/harness/formats/mcu_sf2_asset.cpp:191-193 | the counting loop finds the length of the static prefix |
| Modulation.CompiledShape | sim/harness/formats/mcu_sf2_asset.cpp:164-195 | a compiled program is no longer than its modulators, its static terms come first, and each term stems from one of its modulators |
| Modulation.KeepOfPartition | sim/harness/formats/mcu_sf2_asset.cpp:178-180 | the stable partition neither loses, adds nor reorders terms of one kind |
| Modulation.Intern | sim/harness/formats/mcu_sf2_asset.cpp:181-201 | interning returns a program record whose slice of the term section is exactly the wanted body, keeps all earlier records and terms, and keeps the table sound |
| Modulation.CompileCandidate | sim/harness/formats/mcu_sf2_asset.cpp:160-206 | each family of a candidate names a program that holds that family's compiled body, or none when it is empty |
| Modulation.BuildModulation | sim/harness/formats/mcu_sf2_asset.cpp:156-209 | a successful build gives every candidate programs with its compiled bodies and every program stems from some candidate; an error is returned only when some candidate names a modulator outside the list, 32-bit index wrap included, so an empty candidate never fails |
| Modulation.Accumulate | mcu/msf2.c:870-909 | one traversal of a program adds to every destination of its family exactly that destination's sum |
| Modulation.CacheNoteStatic | mcu/msf2.c:938-970 | after a note starts the cache holds the static sum of every destination of every family |
| Modulation.DestinationSums | mcu/msf2.c:870-909 | the result is, destination by destination, the channel offset plus the cached static sum plus the present dynamic sum |
| Modulation.SlotsMatch | mcu/msf2.c:911-936 | the program slots a voice copies from the asset cover exactly the static and the dynamic terms of its candidate |
| Envelope.AdvanceElapsed | mcu/msf2.c:1337-1401 | advancing an envelope by n ticks at once gives the state of n single host ticks, for every stage, wait and duration, modulo 2^32 |
| Envelope.EnvTicksSplit | host/mcu_sf2_asset_runtime.cpp:267-300 | m + n envelope ticks are m ticks and then n ticks |
| Envelope.WaitRun | host/mcu_sf2_asset_runtime.cpp:267-300 | a run inside delay or hold only counts the wait down and changes stage exactly when it reaches zero |
| Envelope.TimedRun | host/mcu_sf2_asset_runtime.cpp:267-300 | a run inside attack or decay lands where one interpolation over all its ticks lands |
| Envelope.ReleaseRun | host/mcu_sf2_asset_runtime.cpp:267-300 | a run inside release lands where one interpolation over all its ticks lands |
| Envelope.LinearLevelBetween | mcu/msf2.c:1198-1210 | an interpolated level lies between its two ends, rising or falling |
| Envelope.LevelStaysInStage | host/mcu_sf2_asset_runtime.cpp:267-300 | over every number of ticks the level stays between the end levels of its stage, from the initial state on and into release |
| Envelope.LfoFoldExact | mcu/msf2.c:1403-1415 | folding n ticks of an oscillator gives the delay and phase of n single ticks, modulo 2^32 |
| Envelope.LfoSplitExact | mcu/msf2.c:1417-1461 | the n-1 folded ticks before publishing and the one after it make n single ticks |
| Envelope.LfoIsTriangle | mcu/msf2.c:1191-1196 | the oscillator is a triangle between minus one and one that starts rising at zero, moves by four a step and turns over after half a period |
| ControlFold.FoldEqualsSingles | mcu/msf2.c:1417-1461 | one advance by n ticks sends the same pitch and gains as n advances by one tick, for every voice and channel, as long as no group that is marked but not periodic has a non-zero offset on one of its depth generators (5, 6, 7 for pitch, 13 for gain) |
| ControlFold.SameSentExactly | mcu/msf2.c:1212-1250 | for one voice, fold and single advances send the same pitch and gains if and only if every marked group that is not periodic has the same value at the first and at the last tick |
| FoldLimits.FoldSafeExactly | mcu/msf2.c:988-1010 | for a channel, every exponent table whose neighbours lie at least 2^20 apart and every source curves, fold and single advances agree for every program, gain and filter function, every voice and every number of ticks if and only if modulation is off, or: pitch is unmarked or offsets 5, 6 and 7 are zero, and gain is unmarked or offset 13 is zero |
| FoldLimits.DepthOffsetBreaksFold | mcu/msf2.c:988-1010 | with modulation on and pitch marked, any non-zero offset on generator 5, 6 or 7 makes fold and single advances differ for some voice, whatever the source curves and the exponent table of such steps |
| FoldLimits.StepIsHeard | mcu/msf2.c:992-1010 | for every such table and every step of the depth there is a height, whole cents above any given one, from which the step changes the pitch |
| FoldLimits.VolumeOffsetBreaksFold | mcu/msf2.c:988-1010 | with modulation on and gain marked, so does any non-zero offset on generator 13, for some gain function |
| ControlFold.FoldMeetsHost | host/mcu_sf2_asset_runtime.cpp:267-312 | one folded advance leaves the pitch the host holds after n of its own ticks, with the host's own sums over the original modulators, if and only if the pitch was up to date, marked or moving, and likewise the gains, each by itself |
| ControlFold.FoldMeetsPlainPitch | mcu/msf2.c:1417-1461 | the same for pitch against n plain ticks, where no unpublished depth has an offset |
| ControlFold.FoldMeetsPlainGains | mcu/msf2.c:1417-1461 | the same for gains |
| ControlFold.HostTicksArePlain | host/mcu_sf2_asset_runtime.cpp:145-312 | the host's tick, which reads modulators directly and knows no offsets, is the plain tick with the firmware's sums wherever the two read sources alike and offsets are zero |
| ControlFold.FoldKeepsStep | mcu/msf2.c:1417-1461 | a voice in step with a twin that is ticked millisecond by millisecond stays in step, and sends the same pitch and gains, after one folded advance |
| ControlFold.SinglesSend | mcu/msf2.c:1932-1950 | n single advances, clearing dirty groups after the first, send for each group the value at the tick on which it was last published |
| ControlFold.PlainTicksEvaluate | mcu/msf2.c:1417-1461 | n plain ticks end with the pitch and gains of one evaluation at the time just before the last oscillator step |
| ControlFold.AdvanceKeepsSettled | mcu/msf2.c:1417-1461 | a group that is up to date before an advance, apart from what is marked, is up to date after it, filter group included |
| ControlFold.VoicePeriodicGroups | mcu/msf2.c:988-1010 | a group is periodic exactly when a moving envelope or oscillator can reach it through a depth or a program |
| ControlFold.ProgramHasDestination | mcu/msf2.c:972-986 | the scan finds a destination exactly when some term of the program has it |
| ControlFold.UnreachedSumIsZero | mcu/msf2.c:972-986 | a destination no term reaches has sum zero under every channel state with zero offset |
| ControlFold.RefreshVoice | mcu/msf2.c:1212-1335 | a refresh re-evaluates the requested groups and emits a command for exactly the values that changed, pitch then gain then filter |
| ControlFold.AdvanceVoice | mcu/msf2.c:1417-1461 | an elapsed advance moves envelopes and oscillators, refreshes the union of periodic and dirty groups, and paces the filter by the tick index |
| ControlFold.CleanChangesNothing | mcu/msf2.c:1468-1473 | clearing the dirty groups alters no evaluation |
| ControlEvents.StartSettles | mcu/msf2.c:1654-1677 | the pitch, gains and filter computed when a voice starts are those an immediate evaluation would give |
| ControlEvents.MessageKeepsSettled | mcu/msf2.c:1781-1897 | every message leaves each group up to date or marked, as long as no program of an unmarked group reads what the message changes |
| ControlEvents.MessageSafeExactly | mcu/msf2.c:1781-1897 | a kind of message keeps every voice up to date, whatever the programs of the given families read, if and only if it marks the groups of all those families: wheel and range mark pitch alone, some controllers nothing, the others everything |
| ControlEvents.StaleVoice | mcu/msf2.c:1870-1878 | for every kind of message and every group it does not mark there is a voice left stale by it, through a program of that group alone |
| Scaling.RatioScaledQ24 | mcu/msf2.c:97-151 | for every divisor but zero and every exponent whose shifts C defines, the octave-by-octave loop returns at most the exact scaled product clamped to its range, with a downward shift cut to 32 bits, and exactly that whenever no doubled residual leaves 64 bits, which no divisor up to 2^31 allows |
| Scaling.ScaleU32ByExp2Q24 | mcu/msf2.c:153-212 | the divisor-one form returns what the general form returns, for every multiplier and every exponent whose shifts C defines |
| Scaling.ScaledIsExactly | mcu/msf2.c:97-151 | the result is the exact rounded product, clamped to the minimum and 2^32-1, if and only if the product fits 64 bits and the octave is below 63, or the minimum is 2^32-1, or the exact value reaches 2^32-1 |
| Scaling.CodedIsScaled | mcu/msf2.c:137-148 | down to an octave of -2^32 the shift count is not cut |
| Scaling.DeepOctave | mcu/msf2.c:137-148 | from there on down the exact value rounds to zero, and the code returns the minimum if and only if the shift that is left over gives no more |
| Scaling.CutOctave | mcu/msf2.c:137-148 | an exponent with a cut shift: four scaled by 2^-(2^32+1) comes out as two |
| Scaling.SplitExponent | mcu/msf2.c:97-113 | the exponent splits into a whole octave rounded toward minus infinity and a non-negative fraction |
| Scaling.ProductOverflows | mcu/msf2.c:122-123 | the division guard is true exactly when the product leaves 64 bits |
| Scaling.RatioIsChord | mcu/msf2.c:110-121 | the interpolated ratio is the point of the chord between two neighbouring table entries, rounded to the nearest integer, between the two, and exact at an entry |
| Scaling.RatioPositive | mcu/msf2.c:110-121 | the ratio lies in [1, 2) in 32-bit fixed point |
| Scaling.WideDivisorWraps | mcu/msf2.c:126-141 | with a divisor above 2^31 a doubled remainder can leave 64 bits: a concrete product that should round up |
| Scaling.ShiftUp | mcu/msf2.c:126-138 | doubling quotient and remainder bit by bit reports saturation only when the exact value exceeds 32 bits; otherwise the result is the exact rounded value if and only if no doubled remainder leaves 64 bits, and too small if one does |
| Scaling.Finish | mcu/msf2.c:126-150 | rounding left and right shifts of the quotient give the exact value clamped to the minimum and 2^32-1, unless a doubled remainder has left 64 bits |
| Scaling.LfoAlwaysSaturates | mcu/msf2.c:757-761 | with the multiplier the oscillator code passes, every exponent saturates |
| Scaling.LfoStepFromCents | mcu/msf2.c:757-761 | the oscillator step is 2^32-1 for every 32-bit cents value |
| Scaling.LfoRateIsWrong | mcu/msf2.c:757-761 | at zero cents the exact step would be 536, so no rounding holds there |
| Scaling.PitchExponentExact | mcu/msf2.c:1012-1028 | the quotient and remainder split equals the truncated cents * 256 / 1200 |
| Scaling.RatioMonotone | mcu/msf2.c:114-121 | the interpolated ratio never falls within or across table cells |
| Scaling.ExactRises | mcu/msf2.c:153-212 | the exact scaled increment never falls as the exponent rises, across octave boundaries too |
| Scaling.PitchMonotone | mcu/msf2.c:1012-1028 | as cents rise the phase increment never falls, while the largest product fits 64 bits |
| Scaling.SmallBaseFits | mcu/msf2.c:1012-1028 | every base below 2^31 meets that bound |
| Scaling.PitchIdentity | mcu/msf2.c:1012-1028 | zero cents leave the increment unchanged |
| Scaling.OverflowFalls | mcu/msf2.c:182-197 | where the product can overflow, two neighbouring cents values give a falling increment |
| Scaling.PitchMonotoneExactly | mcu/msf2.c:153-212 | pitch is monotone for a base if and only if the base times the top ratio fits 64 bits |
| Scaling.ComputePhase | mcu/msf2.c:1012-1028 | the clamp, split and scale steps compute the specified increment for every 64-bit cents value |
| Lifecycle.PartitionMeaning | mcu/msf2.c:1103-1129 | the slot tables say that both lists are duplicate-free, every slot is on exactly one, and the free ones are those in the free stage |
| Lifecycle.VictimIsOldest | mcu/msf2.c:1163-1189 | before stamps wrap the chosen victim was born first among the listed voices of its stage |
| Lifecycle.VictimStep | mcu/msf2.c:1170-1181 | one comparison extends the choice of victim to one more listed voice |
| Lifecycle.ReclaimTables | mcu/msf2.c:1103-1115 | swapping the last listed voice into the gap and pushing the slot keeps partition, back-pointers, ages and ownership |
| Lifecycle.ActivateTables | mcu/msf2.c:1117-1124 | listing a started slot closes the hole and keeps every table |
| Lifecycle.AbandonTables | mcu/msf2.c:1126-1129 | returning an unpublished slot closes the hole and keeps every table |
| Lifecycle.PopTables | mcu/msf2.c:1163-1169 | popping the stack opens a hole at exactly the slot taken |
| Lifecycle.NewInstance | mcu/msf2.c:1589-1590 | a fresh instance number is carried by no sounding voice until numbers wrap |
| Lifecycle.TablesSilence | mcu/msf2.c:1131-1161 | a release or stop of the present generation keeps the stream naming each slot's owner and its silence |
| Lifecycle.StartSent | mcu/msf2.c:1700-1711 | a start makes its generation the slot's owner on the wire |
| Lifecycle.GivenUp | mcu/msf2.c:1163-1189 | a slot given up without a command keeps sounding unsilenced exactly if its voice was unreleased, or if it already was such a slot; no other slot changes in that |
| Lifecycle.TakenBack | mcu/msf2.c:1700-1714 | a new start in the slot ends that, for it alone |
| Lifecycle.Append | mcu/msf2.c:1086-1101 | one more command keeps the stream well tagged if and only if the stream was and the command is a start or names the last started generation of its slot |
| Lifecycle.SlicedStep | mcu/msf2.c:2001-2024 | one more eligible voice of a slice, served or refused, extends what the slice has done |
| Lifecycle.SweepEnds | mcu/msf2.c:1131-1161 | a walk along the active list reaches every occupied voice once |
| Lifecycle.ControlKeepsQuiet | mcu/msf2.c:1781-1844 | every controller message keeps every sounding voice justified by a key or a pedal |
| Lifecycle.LiftKeepsQuiet | mcu/msf2.c:1718-1760 | lifting any set of keys of one channel keeps every sounding voice justified |
| Lifecycle.ReleaseKeepsQuiet | mcu/msf2.c:2082-2103 | releasing any set of voices keeps the rest justified |
| Lifecycle.LayersKeepQuiet | mcu/msf2.c:1591-1714 | the layers of a new note are justified and disturb no other voice's justification |
| Lifecycle.LiftsFromScan | mcu/msf2.c:1718-1760 | what the scan found decides exactly which layers lift: those of the smallest instance of that key, all of one key while numbers have not wrapped |
| Lifecycle.HaltedLift | mcu/msf2.c:1718-1760 | a lift cut short by the sink leaves a voice with its key up and its stage unchanged |
| Lifecycle.StrandedIsStuck | mcu/msf2.c:1718-1760 | such a voice is justified by no key and no pedal, under any later channel state |
| Lifecycle.StuckStays | mcu/msf2.c:1718-1844 | no later note off reaches it, and of all controllers only all sound off does |
| Lifecycle.StoredFirst | mcu/msf2.c:1786-1843 | writing the controller value before obeying it changes no outcome |
| Lifecycle.EvolvesTransitive | mcu/msf2.c:1475-1487 | what events may do to a control job composes over any run of events |
| Lifecycle.EvolvesKeepsMarks | mcu/msf2.c:1475-1487 | no event loses a mark: whatever a sounding voice is owed stays marked on its channel |
| Lifecycle.MarkEvolves | mcu/msf2.c:1475-1479 | marking a channel is such an event |
| Lifecycle.ResetEvolves | mcu/msf2.c:2105-2123 | a controller reset is such an event, although it restarts the revision |
| Lifecycle.StartEvolves | mcu/msf2.c:1591-1714 | starting a voice in a slot is such an event: it owes nothing when built from the marked state |
| Lifecycle.FreeEvolves | mcu/msf2.c:1952-1962 | freeing a slot is such an event |
| VoiceRuntime.Runtime.constructor | mcu/msf2.c:1489-1517 | every slot starts free on the stack, no voice sounds, no mark is owed |
| VoiceRuntime.Runtime.Emit | mcu/msf2.c:1086-1101 | a command reaches the stream whole or not at all, and refusals are counted |
| VoiceRuntime.Runtime.Silence | mcu/msf2.c:1131-1161 | a voice is rewritten only if the sink took its release or stop; the tables stay sound either way |
| VoiceRuntime.Runtime.Sweep | mcu/msf2.c:2043-2055 | after a full sweep every occupied voice has been acted on once and the stream has grown by their commands in list order |
| VoiceRuntime.Runtime.ReclaimVoice | mcu/msf2.c:1103-1115 | an occupied slot goes to the top of the free stack, the last listed voice takes its place, other voices keep everything but their position; a free slot is left alone |
| VoiceRuntime.Runtime.FindVictim | mcu/msf2.c:1170-1181 | returns a listed voice that is the smallest-stamped released one, or the smallest-stamped of the first entry's stage when none is released |
| VoiceRuntime.Runtime.AllocateVoice | mcu/msf2.c:1163-1189 | pops the stack if it is not empty and changes no voice, otherwise frees exactly the victim |
| VoiceRuntime.Runtime.Activate | mcu/msf2.c:1117-1124 | appends the slot to the active list, stamps it, and keeps all tables |
| VoiceRuntime.Runtime.Abandon | mcu/msf2.c:1126-1129 | returns an unpublished slot to the stack, consuming a stamp |
| VoiceRuntime.Runtime.Publish | mcu/msf2.c:1624-1711 | a slot whose record or start command fails is back on the free stack; otherwise it is listed and its start is the stream's last command |
| VoiceRuntime.Runtime.PrepareLayer | mcu/msf2.c:1608-1623 | takes the stack's top or the victim and writes the layer's record there with the next generation and stamp; every other voice is kept |
| VoiceRuntime.Runtime.StartLayer | mcu/msf2.c:1591-1714 | takes the stack's top or the victim, and keeps partition, instance numbering and marks on every outcome, sink failure included |
| VoiceRuntime.Runtime.CutExclusive | mcu/msf2.c:1562-1588 | every sounding voice of the preset in an exclusive class of the new layers is released, no other is touched |
| VoiceRuntime.Runtime.ReleaseClass | mcu/msf2.c:1571-1588 | the walk of one layer releases every listed voice of its preset and exclusive class, and no other |
| VoiceRuntime.Runtime.NextInstance | mcu/msf2.c:1589-1590 | the new number belongs to no other key while numbers have not wrapped |
| VoiceRuntime.Runtime.StartLayers | mcu/msf2.c:1591-1714 | on success there is one new start per layer, in order, each written whole; the slots they took are pairwise distinct if and only if the layers number at most one more than the voices the first layer leaves to be stolen; every outcome keeps all tables and leaves no note hanging |
| VoiceRuntime.Runtime.PlaceLayer | mcu/msf2.c:1591-1714 | the layer takes the stack's top or the victim; on success the record, the start command, the stamp and the list place are those of a new voice; the free slots whose last start was never silenced are those of before, without this slot on success and with it when an unreleased voice was stolen for a start that failed |
| Stealing.NextSlot | mcu/msf2.c:1163-1189 | a layer gets a slot no earlier layer of the note holds if and only if there is room: a free slot, a released voice, or a voice of the stage of the list's head that is not one of the note's own |
| Stealing.RoomShrinks | mcu/msf2.c:1163-1189 | each such layer uses up exactly one place of that room |
| Stealing.FirstLayer | mcu/msf2.c:1163-1189 | after the first layer the room is what can be read off the tables before it |
| Stealing.ProgressStep | mcu/msf2.c:1591-1714 | layer by layer the slots stay distinct exactly while the room lasts |
| Stealing.DistinctExactly | mcu/msf2.c:1591-1714 | the slots of a note's layers are pairwise distinct if and only if the layers number at most one more than the room the first layer leaves |
| Stealing.EnoughVoices | mcu/msf2.c:1591-1714 | free slots, released voices and voices whose key is down together always give that room |
| Stealing.ThirdLayerReturns | mcu/msf2.c:1163-1189 | with one voice down and two held by the pedal a note of three layers takes slots 0, 2 and 0 again |
| Stealing.CrowdedHasRoomForTwo | mcu/msf2.c:1163-1189 | that table is sound and has room for two layers |
| VoiceRuntime.Runtime.NoteOn | mcu/msf2.c:1533-1716 | bad arguments and unmapped keys change nothing, each with its own status; velocity zero lifts the oldest instance as a note off does; otherwise exclusive conflicts are released and then every layer is started under the new instance, in distinct slots if and only if they number at most one more than the voices left to be stolen; unless the lift of velocity zero met a full sink, no note is left hanging |
| VoiceRuntime.Runtime.OldestInstance | mcu/msf2.c:1718-1760 | finds the smallest instance with its key down on that note |
| VoiceRuntime.Runtime.NoteOff | mcu/msf2.c:1718-1760 | on success exactly the held layers of the oldest unreleased instance move, each to the pedal-held or the released stage, and no note hangs; a refused release leaves one voice with its key up that still sounds |
| VoiceRuntime.Runtime.LiftInstance | mcu/msf2.c:1718-1760 | lifts every held layer of one instance and nothing else |
| VoiceRuntime.Runtime.ReleaseDeferred | mcu/msf2.c:1762-1779 | voices of the channel held by no pedal any more are released, no others |
| VoiceRuntime.Runtime.ControlChange | mcu/msf2.c:1781-1844 | on success voices and channel are those the pedal rules give for that controller, no note hangs, and marks are set |
| VoiceRuntime.Runtime.Sustain | mcu/msf2.c:1788-1803 | sustain moves exactly the voices whose key is up and whose hold depends on it |
| VoiceRuntime.Runtime.Sostenuto | mcu/msf2.c:1804-1830 | sostenuto catches the keys that are down when pressed and lets go of them when lifted |
| VoiceRuntime.Runtime.SetPitchBendRange | mcu/msf2.c:1846-1857 | more than 99 cents is refused unchanged; otherwise the range is stored and pitch marked |
| VoiceRuntime.Runtime.SetGeneratorOffset | mcu/msf2.c:1859-1868 | an unknown generator is refused unchanged; otherwise the offset is stored and all groups marked |
| VoiceRuntime.Runtime.PitchBend | mcu/msf2.c:1870-1878 | the bend is clamped to 14 bits, only pitch is marked, and every sounding voice of the channel is owed a pitch update |
| VoiceRuntime.Runtime.KeyPressure | mcu/msf2.c:1890-1897 | values above 127 are refused unchanged; otherwise the pressure of that key alone is stored and all groups marked |
| VoiceRuntime.Runtime.ChannelPressure | mcu/msf2.c:1880-1888 | values above 127 are refused unchanged; otherwise the pressure is stored and all groups marked |
| VoiceRuntime.Runtime.SetPeriodicEnabled | mcu/msf2.c:1964-1975 | a switch to the same value does nothing; otherwise every channel is marked whole |
| VoiceRuntime.Runtime.MarkDirty | mcu/msf2.c:1475-1479 | the groups are added, the revision moves on, and exactly the channel's voices are owed the groups |
| VoiceRuntime.Runtime.ResetChannel | mcu/msf2.c:1481-1487 | the channel returns to power-on values with every group marked |
| VoiceRuntime.Runtime.CompleteVoice | mcu/msf2.c:1952-1962 | an unknown slot or a free one is refused unchanged; otherwise exactly that slot is freed, with its generation kept |
| VoiceRuntime.Runtime.AllSoundOff | mcu/msf2.c:2043-2055 | every voice of the channel is told to stop, in list order, and no other |
| VoiceRuntime.Runtime.AllNotesOff | mcu/msf2.c:2057-2080 | every key down on the channel is lifted under the pedals |
| VoiceRuntime.Runtime.ReleaseAll | mcu/msf2.c:2082-2103 | no voice is left unreleased, released ones are untouched, and the stream holds their releases in list order |
| VoiceRuntime.Runtime.ResetControllers | mcu/msf2.c:2105-2123 | voices lose their pedal holds, the channel is as at power-on and fully marked |
| VoiceRuntime.Runtime.RefreshVoice | mcu/msf2.c:1212-1335 | the stream grows by one update for each requested group whose value has changed, pitch then gain then filter, and exactly the requested groups are no longer owed |
| VoiceRuntime.Runtime.AdvanceVoice | mcu/msf2.c:1417-1461 | the voice's envelope and oscillators move by exactly the elapsed ticks, the groups published are the dirty ones plus the periodic ones, the filter paced by the tick index, and no dirty group is owed any more; a refused update leaves them just before the final oscillator step; either way the voice counts as advanced once more |
| VoiceRuntime.Runtime.MoveVoice | mcu/msf2.c:1417-1442 | the envelope moves by the elapsed ticks and the oscillators by all but the last |
| VoiceRuntime.Runtime.FinishMove | mcu/msf2.c:1452-1461 | after the updates the oscillators make their last step |
| VoiceRuntime.Runtime.AdvanceNext | mcu/msf2.c:2013-2022 | the next voice of a slice is advanced, its updates follow on the stream, and the slice has done one more |
| VoiceRuntime.Runtime.CaptureSnapshot | mcu/msf2.c:1981-1999 | the snapshot remembers each voice's generation and eligibility and each channel's revision |
| VoiceRuntime.Runtime.AdvanceSlice | mcu/msf2.c:2001-2024 | bad bounds are refused; every voice of the slice that kept its generation and is not newly released is advanced exactly once, by exactly the elapsed ticks, and no other; the stream grows by exactly their updates; a refusal ends it with the voices before it served |
| VoiceRuntime.Runtime.CompleteControl | mcu/msf2.c:2026-2041 | a channel's groups are cleared exactly when its revision is the snapshot's, and the tick index moves on by the elapsed ticks |
| ControlJob.SynthController.Run | mcu/synth_controller.c:493-553 | over any interleaving of events and slices the tables stay sound; below 2^32 events every mark is kept on every channel that met no reset while a job was active; and if the sink refused nothing no note is left hanging and every finished job has advanced each of its voices exactly once |
| ControlJob.SynthController.Service | mcu/synth_controller.c:493-553 | a job starts exactly when the update period has passed; a finished one covers exactly the milliseconds since the last one, has advanced every surviving voice once and once more for each of its refused slices that reached it, and cleared only unchanged channels; an error is reported exactly when the sink refused a command, and such a call adds exactly one refused slice to the job; when the session is not ready it drops the job and changes no voice |
| ControlJob.SynthController.RunSlice | mcu/synth_controller.c:517-529 | a slice moves the cursor by sixteen voices or to the end; a refused one leaves it and is counted for exactly the slots it reached; only the time of voices moves |
| ControlJob.SynthController.StartJob | mcu/synth_controller.c:501-516 | a job starts from a snapshot of the present state |
| ControlJob.SynthController.FinishJob | mcu/synth_controller.c:529-553 | at the end every voice unreleased at the snapshot and still in its slot was advanced once, and once more for each refused slice that reached it; those still unreleased have moved by exactly that many times the elapsed ticks, their oscillators one tick less for each refusal of their own |
| ControlJob.SynthController.Step | mcu/synth_controller.c:493-553 | every single event keeps the controller's invariant, leaves no note hanging and no finished job with a voice advanced twice unless the sink refused a command, and lets a revision lie only on a channel that met a reset while a job was active or after 2^32 events |
| ControlJob.SynthController.ConsumeCompletion | mcu/synth_controller.c:142-184 | a record frees its slot exactly when the slot is occupied by the record's generation |
| ControlJob.JobMeetsEvent | mcu/synth_controller.c:493-553 | any event between two slices keeps the job's invariant |
| ControlJob.EventKeepsMarks | mcu/synth_controller.c:493-553 | channel by channel, an event loses no mark |
| ControlJob.SliceKeeps | mcu/msf2.c:2001-2024 | a slice, cut short or not, loses no mark, moves nothing but time, and leaves no note hanging |
| ControlJob.JobSlice | mcu/msf2.c:2001-2024 | a complete slice extends the advanced voices to its end: each of them once more, none before or behind them |
| ControlJob.JobSliceFailed | mcu/msf2.c:2001-2024 | a slice refused at a voice extends the job by one refusal: the slots from the cursor to that voice have been advanced once more, exactly, and the refused one lacks one oscillator tick |
| ControlJob.JobEnds | mcu/msf2.c:2026-2041 | channel by channel, clearing at the end keeps every owed mark if and only if no voice still owed an update sits on a channel whose revision equals the snapshot's although it was marked |
| ControlJob.AliasCause | mcu/msf2.c:2026-2041 | a revision can only look untouched after a reset or 2^32 marks |
| ControlJob.ResetLosesMark | mcu/msf2.c:2105-2123 | a reset during a job can lose a mark: a concrete state |
| ControlJob.JobServes | mcu/msf2.c:1981-2041 | each survivor of the snapshot was advanced exactly once plus once for each refused slice that reached it, and the motion of each still unreleased voice is exactly that of so many advances |
| ControlJob.OnceExactly | mcu/synth_controller.c:517-553 | a finished job advanced each of its voices exactly once, by exactly the elapsed ticks, if and only if no refused slice reached one that is still in its slot |
| ControlJob.RefusalRepeats | mcu/synth_controller.c:517-529 | of two voices the second is refused: the retried slice advances both a second time, the first by twice the elapsed ticks |
| ControlJob.JobDone | mcu/msf2.c:2026-2042 | clearing at the end keeps what the job has served, and the marks of every channel whose revision does not lie |
| ControlJob.SynthController.ControlLoop | mcu/main.c:1027-1080 | the loop stops at the first refused command, so every job it finishes has advanced each of its voices exactly once |
| CommandScheduler.Ring.Push | host/command_scheduler.cpp:85-93 | appends, or refuses when full |
| CommandScheduler.Ring.Pop | host/command_scheduler.cpp:95-103 | takes the oldest command |
| CommandScheduler.Ring.PushFront | host/command_scheduler.cpp:213-222 | puts a command back in front of the others |
| CommandScheduler.Ring.Steps | host/command_scheduler.cpp:85-103 | head plus count agrees with the tail through push, pop and push-back |
| CommandScheduler.AsyncScheduler.constructor | host/command_scheduler.cpp:40-45 | an empty scheduler satisfies every invariant |
| CommandScheduler.AsyncScheduler.EnqueueOne | host/command_scheduler.cpp:158-186 | the command joins its queue or slot, or is refused for a full queue; enqueued = emitted + coalesced + dropped + abandoned + pending + in flight, and generation order holds in every case |
| CommandScheduler.AsyncScheduler.InvalidateUpdates | host/command_scheduler.cpp:135-145 | exactly the updates waiting for the started or stopped voice are dropped and counted |
| CommandScheduler.AsyncScheduler.FillSlot | host/command_scheduler.cpp:166-176 | the slot holds the newest update and the replaced one is counted as coalesced |
| CommandScheduler.AsyncScheduler.WriteCommandWords | host/command_scheduler.cpp:118-133 | the accepted commands are a prefix of the words, the whole of them on success; a malformed rest, a full queue or a stopping scheduler is reported as such |
| CommandScheduler.AsyncScheduler.BeginBatch | host/command_scheduler.cpp:105-109 | a batch deepens unless stopping |
| CommandScheduler.AsyncScheduler.EndBatch | host/command_scheduler.cpp:111-116 | the depth falls but not below zero |
| CommandScheduler.AsyncScheduler.Shutdown | host/command_scheduler.cpp:255-266 | stopping ends all batches and loses nothing |
| CommandScheduler.AsyncScheduler.TakeNext | host/command_scheduler.cpp:196-211 | takes the oldest life-cycle command, else the oldest normal one, else the next filled slot from the cursor; nothing only if nothing waits |
| CommandScheduler.AsyncScheduler.TakeUpdate | host/command_scheduler.cpp:199-209 | the rotating scan takes the first filled slot at or after the cursor and moves past it |
| CommandScheduler.AsyncScheduler.ReturnCommand | host/command_scheduler.cpp:213-239 | push-back gives the queues and slots back as they were before the command was taken; the rotation stays where the take left it |
| CommandScheduler.AsyncScheduler.PackOne | host/command_scheduler.cpp:283-298 | a command is taken and either packed or put back; pending plus in flight is unchanged |
| CommandScheduler.AsyncScheduler.FillTransaction | host/command_scheduler.cpp:281-300 | the transaction is a nonempty run of whole commands of at most 63 words, as long as nothing more surely fits |
| CommandScheduler.AsyncScheduler.Pack | host/command_scheduler.cpp:268-300 | with commands waiting and no batch open a transaction is packed and pending falls by its size; otherwise nothing moves |
| CommandScheduler.AsyncScheduler.Attempt | host/command_scheduler.cpp:302-329 | the words sent are the whole transaction; a failure leaves it to be sent again unless stopping |
| CommandScheduler.AsyncScheduler.Finish | host/command_scheduler.cpp:325-348 | a transaction given up while stopping is counted as abandoned |
| CommandScheduler.AsyncScheduler.Drain | host/command_scheduler.cpp:268-349 | with quiet producers and a willing transport the loop ends with nothing pending, each transaction lowering the count, and every enqueued command accounted for |
| CommandQueue.ArrivalConsistent | host/command_scheduler.cpp:158-186 | an arrival keeps lane order, newest-update and generation order |
| CommandQueue.DepartureConsistent | host/command_scheduler.cpp:196-211 | a departure keeps lane order, newest-update and generation order |
| CommandQueue.DepartureGeneration | host/command_scheduler.cpp:196-211 | voice by voice below 512, when producers tag updates with the generation last enqueued, every update packed carries the generation of the last start packed before it |
| CommandQueue.DepartureLanes | host/command_scheduler.cpp:196-211 | what was packed from a queue followed by what waits in it is what arrived for it, in order |
| CommandQueue.ReturnConsistent | host/command_scheduler.cpp:213-239 | push-back keeps all of this and the pending count |
| CommandQueue.ReturnUndoesDeparture | host/command_scheduler.cpp:213-239 | returning a taken command gives back the queues and slots, only the cursor has moved |
| CommandQueue.ArrivalNewest | host/command_scheduler.cpp:166-176 | each filled slot holds the last update that arrived for it |
| CommandQueue.ArrivalGeneration | host/command_scheduler.cpp:158-186 | voice by voice below 512, arrivals keep every waiting update in the present generation, since a start drops the older ones |
| CommandQueue.TagsExactly | host/command_scheduler.cpp:118-211 | over every run of arrivals and departures, correctly tagged updates of a voice leave correctly tagged if and only if the voice number is below 512 |
| CommandQueue.Overtaking | host/command_scheduler.cpp:158-211 | for every wider voice a run in which a start overtakes an update of the generation before |
| CommandQueue.RunConsistent | host/command_scheduler.cpp:158-239 | lane order, newest-update and generation order hold after every run from an idle scheduler |
| CommandQueue.FilledUpdate | host/command_scheduler.cpp:135-145 | writing one slot changes the number of filled slots by its difference |
| CommandQueue.ReachedAround | host/command_scheduler.cpp:199-209 | the rotating scan visits every slot |
| Completion.ReadsInOrder | mcu/fpga_spi_transport.c:187-245 | over every run from the initial state of starts, steals, deliveries, endings and polls the records read are the log's prefix, each once and in order, across 16-bit wrap, the log never outgrows its memory, and what was read stays read |
| Completion.OccupiedExactly | mcu/synth_controller.c:142-184 | over every run from the initial state with timely polls and no overflow a slot is occupied if and only if its present start is waiting, sounding, or logged and not yet read: none is freed early, none is kept for ever |
| Completion.SessionsKeep | mcu/synth_controller.c:186-260 | over every run across sessions, with overflows, foreign epochs, restarts and recoveries, the records read in the present session are its log's prefix, each once and in order, and with timely polls a slot is occupied exactly while its present start is waiting, sounding, or logged and not yet read |
| Completion.TurnKeeps | mcu/synth_controller.c:186-260 | every such turn keeps the invariant of the session that is open, or leaves none |
| Completion.ResetStartsOver | mcu/synth_controller.c:580-590 | a poll that meets an overflow or a foreign epoch reads nothing and leaves the FPGA offline or in a fresh session of another epoch, every slot free |
| Completion.StepTracks | mcu/synth_controller.c:142-184 | every step keeps that |
| Completion.FreesOnlyFinished | mcu/synth_controller.c:555-597 | while fewer than 65535 slot uses separate a record from its reading, a poll frees a slot exactly when the batch holds its current use, so never one still rendering |
| Completion.StaleRecordFreesSounding | mcu/synth_controller.c:142-184 | with a record left unread for a whole cycle of generations a poll frees a slot that sounds |
| Completion.StaleReached | mcu/synth_controller.c:142-184 | the protocol reaches such a state: a first use is logged, the slot is taken 65535 times more before the next poll, and the last start sounds |
| Completion.PollFrees | mcu/synth_controller.c:142-184 | exactly which slots a poll frees: those with a record whose use differs by a multiple of 65535 |
| Completion.StepKeepsInv | mcu/synth_controller.c:555-597 | every step keeps the protocol's invariant |
| Completion.PollKeeps | mcu/synth_controller.c:555-597 | within a session a poll advances sequence and acknowledgement in step with what was read; one that meets an overflow ends the session without reading or freeing anything |
| Completion.ReadCompletions | mcu/fpga_spi_transport.c:187-245 | given whether its checksum matches, a response is taken exactly when it is well formed and follows the acknowledged sequence, and then yields its items |
| Completion.AnswerAccepted | mcu/fpga_spi_transport.c:205-245 | the FPGA's answer is always accepted and carries the next unread records |
| CompletionFrames.Receive | mcu/fpga_spi_transport.c:187-245 | the bytes of a response are taken exactly when their CRC-32 matches and every field check passes, and then yield the items they spell |
| CompletionFrames.BuildRequest | mcu/fpga_spi_transport.c:197-204 | the request carries the sequence number and the CRC-16 of its first three bytes, and nothing else |
| CompletionFrames.FrameParses | mcu/fpga_spi_transport.c:205-245 | reading the bytes of a response gives back the response, whatever was clocked in before it |
| CompletionFrames.AnswerArrives | mcu/fpga_spi_transport.c:205-245 | the FPGA's answer, sent as bytes, is always accepted and carries the next unread records |
| CompletionFrames.DamageIsRefused | mcu/fpga_spi_transport.c:205-208 | an accepted response with any one byte of payload or checksum changed is refused |
| CompletionFrames.Crc32Bytes | mcu/fpga_spi_transport.c:24-37 | the bit loop computes CRC-32/ISO-HDLC of the bytes |
| Completion.Answers | mcu/fpga_spi_transport.c:219-229 | the count computed from wrapping 16-bit sequences is the true number of unread records, at most one batch |
| Completion.WordsAreItems | mcu/fpga_spi_transport.c:230-243 | a word passes the item checks exactly when some valid item packs to it, and unpacking inverts packing |
| Completion.ConsumeItems | mcu/synth_controller.c:142-184 | the consuming loop frees exactly the slots whose generation an item carries |
| Completion.KeptExactly | mcu/synth_controller.c:142-184 | a slot stays occupied if and only if no item names its current generation |
| Completion.GenClosed | mcu/msf2.c:1610-1618 | the generation after k uses is ((k - 1) mod 65535) + 1: zero is skipped |
| Completion.GenerationsRepeat | mcu/msf2.c:1610-1618 | two uses of a slot share a generation exactly when they are a multiple of 65535 apart |
| IngressQueue.NothingLost | mcu/midi_ingress_queue.c:14-68 | popped and discarded packets followed by the queued ones are exactly those pushed, in order, and never more than 256 wait |
| IngressQueue.Interleave | mcu/midi_ingress_queue.c:14-68 | every schedule of the atomic steps of producer and consumer keeps this |
| IngressQueue.Queue.constructor | mcu/midi_ingress_queue.c:7-12 | the queue starts empty |
| IngressQueue.Queue.CheckDepth | mcu/midi_ingress_queue.c:15-24 | a push is refused exactly when 256 packets wait, across 32-bit counter wrap |
| IngressQueue.Queue.StorePacket | mcu/midi_ingress_queue.c:25-27 | the store never touches an unread slot |
| IngressQueue.Queue.PublishPush | mcu/midi_ingress_queue.c:28-28 | publishing adds exactly the packet begun |
| IngressQueue.Queue.CheckEmpty | mcu/midi_ingress_queue.c:38-42 | a pop finds the queue empty exactly when every pushed packet has met its fate |
| IngressQueue.Queue.FetchPacket | mcu/midi_ingress_queue.c:43-43 | the word fetched is the oldest unread packet |
| IngressQueue.Queue.PublishPop | mcu/midi_ingress_queue.c:44-49 | the packet handed out is the oldest unread one |
| IngressQueue.Queue.SnapWrite | mcu/midi_ingress_queue.c:62-65 | a discard sees the packets pushed so far |
| IngressQueue.Queue.PublishDiscard | mcu/midi_ingress_queue.c:66-67 | exactly the packets pushed before the snapshot are discarded, and counted, even if more were pushed since |
| IngressQueue.UnpackPacked | mcu/midi_ingress_queue.c:25-47 | a packet survives packing into a word |
| IngressQueue.SlotOf | mcu/midi_ingress_queue.c:27-43 | the slot index is the packet number modulo 256 also after the counters wrap |
| SkipAhead.Analyze | tools/analyze_sf2_access_span.py:531-582 | the segment loop reports the lines of every frame of the plain walk, run-length coded in nonempty segments, and the true read, same-line and cross-line counts, dwell lengths, jumps and largest jump, touched lines and first touches per frame |
| SkipAhead.TalliesCover | tools/analyze_sf2_access_span.py:545-582 | every frame lies in exactly one dwell, and every touched line is touched first exactly once |
| SkipAhead.SegmentCounts | tools/analyze_sf2_access_span.py:545-582 | frames that repeat the same lines add one dwell or lengthen the last, at most one jump, and no line after the first |
| SkipAhead.SecondIsNext | tools/analyze_sf2_access_span.py:407-416 | the second frame read is the one the stream comes to next when it moves a frame at a time, across the loop end too |
| SkipAhead.TouchedMeaning | tools/analyze_sf2_access_span.py:565-576 | a line counts as touched exactly when some frame reads from it |
| SkipAhead.SteadyLines | tools/analyze_sf2_access_span.py:444-475 | both endpoint lines are constant over the whole segment length |
| SkipAhead.SkipIsWalk | tools/analyze_sf2_access_span.py:477-485 | advancing a segment at once visits the same phases as stepping frame by frame, when the increment is at most the loop length |
| SkipAhead.SingleStep | tools/analyze_sf2_access_span.py:418-426 | one skipped frame is one step for every phase in the loop if and only if the increment is at most the loop length |
| SkipAhead.UntilIsFirst | tools/analyze_sf2_access_span.py:428-432 | the frame count is the first at which the threshold is reached |
| SkipAhead.OneWrap | tools/analyze_sf2_access_span.py:477-485 | a segment crosses the loop end at most once |
| SkipAhead.NothingReached | tools/analyze_sf2_access_span.py:444-475 | inside a segment neither the next line, its last frame nor the loop end is reached |
| SkipAhead.SteadyFrames | tools/analyze_sf2_access_span.py:434-442 | frames between two line boundaries keep both their line and the line of their successor |
| SkipAhead.WalkSegment | tools/analyze_sf2_access_span.py:531-582 | the plain walk over a segment is its lines repeated and then the walk from the skipped-to phase |
| SkipAhead.SegmentBounds | tools/analyze_sf2_access_span.py:444-475 | a segment is at least one frame and never passes the limit |
| SkipAhead.StepWraps | tools/analyze_sf2_access_span.py:418-426 | a step stays inside the loop when the increment is at most its length |
| Crc.TablesAgree | host/ch347_transport.cpp:127-175 | table-driven and bitwise CRC16 and CRC32 agree on every byte sequence and start value |
| Crc.TableStep16 | host/ch347_transport.cpp:130-144 | one table step is eight bit steps, for CRC16 |
| Crc.TableStep32 | sim/harness/formats/mcu_sf2_asset.cpp:66-78 | one table step is eight bit steps, for CRC32 |
| Crc.Linear16 | host/ch347_transport.cpp:156-175 | any number of CRC16 bit steps distributes over exclusive or |
| Crc.Linear32 | mcu/msf2.c:28-40 | any number of CRC32 bit steps distributes over exclusive or |
| Crc.StepsInjective16 | mcu/fpga_spi_transport.c:13-22 | distinct CRC16 registers stay distinct |
| Crc.StepsInjective32 | mcu/fpga_spi_transport.c:24-37 | distinct CRC32 registers stay distinct |
| Crc.StaysDifferent16 | mcu/fpga_spi_transport.c:13-22 | a difference in the register is never cancelled by equal bytes |
| Crc.WrongByteShows | mcu/fpga_spi_transport.c:13-22 | changing one byte of a message always changes its CRC16 |
| Crc.StaysDifferent32 | mcu/fpga_spi_transport.c:24-37 | a difference in the 32-bit register is never cancelled by equal bytes |
| Crc.WrongByteShows32 | mcu/fpga_spi_transport.c:24-37 | changing one byte of a message always changes its CRC32 |
| Crc.FeedBits16 | mcu/fpga_spi_transport.c:13-22 | the bit loop feeds one byte as specified |
| Crc.BuildTable16 | host/ch347_transport.cpp:130-141 | the loop builds the table of eight bit steps for every index |
| Crc.FeedTable16 | host/ch347_transport.cpp:142-144 | a lookup feeds one byte exactly as the bit loop would |
| Crc.FeedBits32 | mcu/msf2.c:28-40 | the bit loop feeds one byte as specified |
| Crc.BuildTable32 | sim/harness/formats/mcu_sf2_asset.cpp:67-76 | the loop builds the table of eight bit steps for every index |
| Crc.FeedTable32 | sim/harness/formats/mcu_sf2_asset.cpp:77-78 | a lookup feeds one byte exactly as the bit loop would |
| CommandFrames.SameFrames | host/ch347_transport.cpp:177-193 | for every transaction the host accepts, the host's and the firmware's encoders write identical frames |
| CommandFrames.HostIsStricter | host/ch347_transport.cpp:101-125 | the host accepts exactly the transactions the firmware accepts whose payloads are all within the limit |
| CommandFrames.HostValidate | host/ch347_transport.cpp:101-125 | accepts exactly nonempty transactions of at most 63 words that split into whole commands of at most 16 payload words |
| CommandFrames.McuValidate | mcu/fpga_spi_transport.c:103-113 | accepts exactly nonempty transactions of at most 63 words that split into whole commands |
| CommandFrames.HostChecksum | host/ch347_transport.cpp:127-154 | the checksum covers length and words, byte by byte |
| CommandFrames.HostEncode | host/ch347_transport.cpp:177-192 | the bytes pushed are the frame of the transaction |
| CommandFrames.McuEncode | mcu/fpga_spi_transport.c:95-132 | the bytes written in place are the frame of the transaction |
| RegionBank.Bank.RegionsForPreset | host/realtime_region_bank.cpp:76-108 | a hit returns the entry and changes only its use time; a miss evicts only unused entries, fills fresh slots with what the backing returns and records them; it fails only when nothing more can be evicted |
| RegionBank.Bank.ServesExactly | host/realtime_region_bank.cpp:76-108 | for arguments in range the slots returned hold exactly what the backing lookup gives for them |
| RegionBank.Bank.EvictOne | host/realtime_region_bank.cpp:29-54 | evicts the least recently used entry none of whose regions is in use, or nothing when there is none |
| RegionBank.Bank.FindVictim | host/realtime_region_bank.cpp:30-45 | returns none exactly when every entry is in use, else the least recently used idle one |
| RegionBank.Bank.EvictEntry | host/realtime_region_bank.cpp:45-53 | exactly the entry's slots are freed and blanked |
| RegionBank.Bank.ReleaseSlots | host/realtime_region_bank.cpp:46-50 | the loop unmarks and blanks exactly the entry's slots |
| RegionBank.Bank.Available | host/realtime_region_bank.cpp:58-60 | counts the free slots |
| RegionBank.Bank.MakeRoom | host/realtime_region_bank.cpp:61-63 | the eviction loop ends, with room exactly when enough slots are free or could be freed |
| RegionBank.Bank.TakeSlots | host/realtime_region_bank.cpp:64-73 | claims that many distinct free slots in ascending order |
| RegionBank.Bank.RoomForEntry | host/realtime_region_bank.cpp:88-93 | the entry limit is met by evicting, or every entry is in use |
| RegionBank.Bank.Prepare | host/realtime_region_bank.cpp:86-108 | a miss either installs the entry or fails with every remaining entry in use; entries in use survive unchanged |
| RegionBank.Bank.Build | host/realtime_region_bank.cpp:94-107 | the new entry owns exactly the claimed slots, which hold the backing's regions |
| RegionBank.Bank.Touch | host/realtime_region_bank.cpp:80-85 | a hit makes the entry the most recently used |
| RegionBank.KeyMeaning | host/realtime_region_bank.cpp:21-27 | two lookups share a key exactly when their masked fields agree; in range the key determines them |
| RegionBank.EverySlotOnce | host/realtime_region_bank.cpp:29-108 | every used slot belongs to exactly one entry and one position in it |
| RegionBank.EvictedOwned | host/realtime_region_bank.cpp:45-53 | eviction keeps slot ownership |
| RegionBank.EvictedAgrees | host/realtime_region_bank.cpp:45-53 | eviction keeps every other entry in agreement with the backing |
| AssetCompiler.BuildAsset | sim/harness/formats/mcu_sf2_asset.cpp:361-524 | an image that is built reads back as the given presets, samples, compacted zones and compiled programs, and for well-formed data it is accepted; every failure has its cause |
| AssetCompiler.AllDecode | mcu/msf2.c:508-525 | every candidate whose generators ascend decodes from the image to exactly its generators' amounts, zero elsewhere |
| AssetCompiler.CompiledAssetSound | sim/harness/formats/mcu_sf2_asset.cpp:361-524 | well-formed data always compiles to an asset that passes every check of the view |
| AssetCompiler.ProgramPasses | sim/harness/formats/mcu_sf2_asset.cpp:457-488 | every program the modulation compiler makes passes the view's header, destination, dependency and static-prefix checks |
| AssetCompiler.CompactZones | sim/harness/formats/mcu_sf2_asset.cpp:400-439 | every candidate becomes a zone whose amounts lie at its index; it stops only for an unbuildable candidate or too many amounts |
| AssetCompiler.ZoneDecodes | mcu/msf2.c:508-525 | one zone's decoded amounts are its candidate's |
| AssetImage.AcceptedExactly | mcu/msf2.c:360-474 | the image of an asset, its CRC-32 included, is accepted by the firmware view if and only if the asset is sound, and reads back unchanged either way |
| AssetImage.ImageReads | sim/harness/formats/mcu_sf2_asset.cpp:361-524 | every record of a built image reads back as the record written |
| AssetImage.HeaderReads | sim/harness/formats/mcu_sf2_asset.cpp:495-520 | the header and directory written satisfy the view's header checks |
| AssetImage.SectionsRead | sim/harness/formats/mcu_sf2_asset.cpp:512-520 | each directory entry read gives the count and offset of its section |
| AssetImage.CrcFieldOnly | mcu/msf2.c:28-40 | the checksum reads its own field as zero, so writing it does not disturb it |
| ImageCrc.FirmwareChecksum | mcu/msf2.c:28-40 | the firmware's bit loop computes CRC-32/ISO-HDLC of the image with its checksum field read as zero |
| ImageCrc.BuilderChecksum | sim/harness/formats/mcu_sf2_asset.cpp:346-359 | the builder's table loop computes the same value, and refuses images too short to hold the field |
| ImageCrc.ChecksumNotices | mcu/msf2.c:28-40 | a change of one byte leaves the checksum alone if and only if it lies in the checksum field |
| AssetView.DamageIsRefused | mcu/msf2.c:360-376 | an accepted image with any one byte changed is refused |
| AssetImage.RecordHolds | sim/harness/formats/mcu_sf2_asset.cpp:386-488 | record i of a section lies where the view looks for it |
| AssetView.ViewInit | mcu/msf2.c:360-474 | the whole validation, checksum loop included, returns the specified verdict for every byte string |
| AssetView.CheckSections | mcu/msf2.c:390-404 | the section loop accepts exactly known, aligned, in-bounds, ordered sections |
| AssetView.CheckPresets | mcu/msf2.c:405-414 | every preset's zones exist |
| AssetView.CheckZones | mcu/msf2.c:415-429 | every zone has ordered ranges, an existing sample, and as many amounts as presence bits |
| AssetView.CheckSamples | mcu/msf2.c:430-436 | every sample's window and loop lie inside the sample words |
| AssetView.CheckRefs | mcu/msf2.c:437-445 | every candidate names existing programs or none |
| AssetView.CheckProgram | mcu/msf2.c:446-472 | a program is accepted exactly when its terms exist, belong to its family, declare their true dependencies, and its static prefix is static |
| AssetView.CheckPrograms | mcu/msf2.c:446-472 | every program is |
| AssetView.LookupsInRange | mcu/msf2.c:320-358 | in an accepted image every later lookup is in range: zones of presets, samples of zones, terms of programs, and the amount of every present generator |
| AssetView.RecordFits | mcu/msf2.c:55-62 | every record of an accepted section lies inside the image |
| AssetView.OnesBefore | mcu/msf2.c:508-525 | the rank of a present operator is below the number of present operators |
| AssetView.DecodeGenerators | mcu/msf2.c:508-525 | each operator receives the amount at its rank, absent ones zero; an unknown zone is refused |
| AssetBuild.BuildImage | sim/harness/formats/mcu_sf2_asset.cpp:374-524 | the appended sections, patched header, directory and checksum are the image of the records, refused exactly when it would not fit 32 bits |
| AssetBuild.AppendSections | sim/harness/formats/mcu_sf2_asset.cpp:386-490 | each section starts aligned at the offset recorded for it |
| AssetBuild.WriteHeader | sim/harness/formats/mcu_sf2_asset.cpp:492-510 | the patches leave exactly the header words |
| AssetBuild.WriteDirectory | sim/harness/formats/mcu_sf2_asset.cpp:512-520 | the patches leave exactly the directory words |
| AssetBuild.WriteWord | sim/harness/formats/mcu_sf2_asset.cpp:48-50 | patching four bytes replaces exactly one word |
| AssetBuild.WriteHalves | sim/harness/formats/mcu_sf2_asset.cpp:43-46 | patching two halves replaces exactly one word by their pair |
| AssetBuild.AlignFour | sim/harness/formats/mcu_sf2_asset.cpp:303-305 | pads with zeros to the next multiple of four |
| ZoneCompaction.CompactZone | sim/harness/formats/mcu_sf2_asset.cpp:403-439 | a candidate is compacted exactly when its carried operators are known and distinct and its sample exists |
| ZoneCompaction.PresenceBitsAre | sim/harness/formats/mcu_sf2_asset.cpp:407-423 | a presence bit is set exactly for the operators carried |
| ZoneCompaction.PresenceOnes | sim/harness/formats/mcu_sf2_asset.cpp:407-429 | the number of presence bits is the number of amounts |
| ZoneCompaction.RankIsPlace | mcu/msf2.c:508-525 | in ascending order an operator's rank among the bits is its place among the amounts |
| ZoneCompaction.RanksArePlacesExactly | mcu/msf2.c:508-525 | all ranks are places if and only if the operators ascend |
| ZoneCompaction.DecodesToGenerators | mcu/msf2.c:508-525 | decoding a compacted zone gives each operator its generator's amount |
| ZoneCompaction.UnsortedSwaps | mcu/msf2.c:508-525 | out of order, one operator is given another's place: a concrete list |
| PresenceBits.PopCount | mcu/msf2.c:42-49 | the clearing loop counts the set bits |
| PresenceBits.ClearLowestOnes | mcu/msf2.c:42-49 | clearing the lowest set bit lowers the count by one |
| PresenceBits.SetBitMeaning | sim/harness/formats/mcu_sf2_asset.cpp:418-422 | setting a bit changes that bit alone |
| PresenceBits.OnesBelowAll | mcu/msf2.c:508-525 | ranks run up to the number of set bits |
| LittleEndian.WordsAt | sim/harness/formats/mcu_sf2_asset.cpp:57-64 | the bytes of a word list hold word k at offset 4k |
| LittleEndian.WordInside | mcu/msf2.c:15-26 | reading a word inside a larger image gives the word written |
| LittleEndian.PairInside | mcu/msf2.c:15-26 | reading two halves gives the pair written |
| AssetFormat.PresetInside | mcu/msf2.c:320-329 | decoding inverts encoding for presets |
| AssetFormat.ZoneInside | mcu/msf2.c:331-344 | decoding inverts encoding for zones |
| AssetFormat.SampleInside | mcu/msf2.c:346-358 | decoding inverts encoding for samples, signed correction included |
| AssetFormat.RefsInside | mcu/msf2.c:437-445 | decoding inverts encoding for candidate references |
| AssetFormat.ProgramInside | mcu/msf2.c:446-457 | decoding inverts encoding for program headers |
| AssetFormat.TermInside | mcu/msf2.c:458-472 | decoding inverts encoding for terms |
| AssetFormat.FlatAt | mcu/msf2.c:55-62 | in a section of equal strides record i lies at i times the stride |
| AssetFormat.SectionInBody | sim/harness/formats/mcu_sf2_asset.cpp:386-490 | each section lies whole at its offset in the body |

## Left out

Properties stated with less than the code has:

- ControlFold.FoldEqualsSingles: leaves out the filter group, which is refreshed only every fourth tick and so depends on where the ticks fall.
- FoldLimits.FoldSafeExactly: for generator offsets that fit 32 bits, and exponent tables whose neighbouring entries lie at least 2^20 apart, which the generated ones exceed tenfold; the failing gain voice has gains that tell every attenuation apart.
- FoldLimits.VolumeOffsetBreaksFold: with a gain function that tells every attenuation apart; the firmware's is not modelled, and rounds to fifteen bits.
- Scaling.RatioScaledQ24: not for negative octaves that are multiples of 2^32, where the source shifts a 64-bit word by 2^32-1, which C does not define.
- Scaling.ScaleU32ByExp2Q24: likewise.
- Modulation.CompileAndCachePreserveMeaning: the 64-bit intermediate sums of the source are unbounded here.
- Lifecycle.VictimIsOldest: only before 2^32 allocations, since stamps wrap.
- Lifecycle.LiftsFromScan: the scan uses 2^32-1 as "nothing found", so a note instance with that number is ignored by note-off; that all lifted layers are of one key is stated only while instance numbers have not wrapped.
- VoiceRuntime.Runtime.ControlChange: after a sink failure the controller value stays written without a dirty mark, as in the source; pedal and note rules are stated for successful calls.
- VoiceRuntime.Runtime.RefreshVoice: which of the requested values have changed is an argument here; `ControlFold.RefreshVoice` computes it.
- VoiceRuntime.Runtime.AdvanceVoice: likewise, with the groups to publish computed.
- VoiceRuntime.Runtime.NoteOn: preset lookup, zone selection and parameter materialisation are arguments.
- VoiceRuntime.Runtime.StartLayers: which slots repeat is stated while fewer than 2^32 voices have been started, since stamps wrap.
- VoiceRuntime.Runtime.Sweep: stands for every walk along the active list, with the action as argument.
- ControlJob.SynthController.ControlLoop: the debug console and what else can latch the same fault, the transport monitor and the command flush, are left out.
- CommandScheduler.AsyncScheduler.Attempt: how long a refused transaction is retried is the environment's choice; enqueue times are not kept.
- Completion.ReadsInOrder: within one session, and `Completion.SessionsKeep` across sessions; a lost poll is simply not taken.
- Completion.SessionsKeep: the words that open a session and the retries of a reset are its environment's: a reset either gets through, with a new epoch, or leaves the FPGA offline.
- Completion.ReadCompletions: whether the checksum matches is an argument here; `CompletionFrames.Receive` computes it.
- IngressQueue.Interleave: sequentially consistent atomics; the high-water and overflow counters are not kept.
- SkipAhead.SkipIsWalk: for increments up to the loop length, the range in which one step wraps at most once.
- RegionBank.Bank.ServesExactly: for arguments inside their masks; others share keys, as `KeyMeaning` states. The use counter is unbounded.
- AssetCompiler.BuildAsset: starts from the selected semantic lists; the selection checksum and source checksum are fields of the header given from outside.

Parts of the system without a model:

- SF2 parsing, preset selection and sample remapping, region preparation in floating point.
- `msf2_find_preset`, `msf2_collect_layers` and the host's own view class: linear searches over records shown to be in range.
- Note materialisation, generator defaults, biquad coefficients, pan and source-curve tables: tables and functions given as parameters.
- `msf2_runtime_advance_samples`: it counts samples into the same control ticks.
- Transport monitoring in the firmware controller: it ends a session or opens one, and when it does is the environment's choice.
- What a session reset does to MIDI policy and the command batch: both start afresh.
- Mutex and condition variable of the scheduler: critical sections are atomic steps.
- Diagnostic counters and timing statistics other than those the invariants name.
- The FPGA itself: an environment that logs one record per finished start and answers polls from its log.
- DMA, PIO, SPI, UART and USB drivers, audio output, the CH347 device, Vivado and register-map tools.
- `mcu/command_batch.c`, `mcu/spi_dma_queue.c`, `mcu/usb_audio_rate_match.c`, `mcu/midi_sysex_reset.c`, `mcu/transport_health_policy.c`: small and separate; they would add only easy members.
