/**
 Walking a sample stream through cache lines, frame by frame and in skips. Phases are 32-bit with
 eight fraction bits; a stream reads the frame under its phase and the next one.
 */
module SkipAhead {
  import opened CInt
  import opened Wrappers

  const FRAC: int := 256
  const FRAME_RANGE: int := 0x100_0000

  datatype LoopMode = NoLoop | Always | UntilRelease

  datatype Stream = Stream(baseAddr: nat, length: nat, loopStart: nat, loopEnd: nat, phaseInc: nat,
                           mode: LoopMode, releaseFrame: int)

  /** What the sample header loader establishes, and a stream that moves. */
  predicate Sound(st: Stream)
  {
    st.loopStart < st.loopEnd <= st.length < FRAME_RANGE && st.phaseInc > 0
  }

  function LoopLength(st: Stream): int { (st.loopEnd - st.loopStart) * FRAC }

  function LoopEnd(st: Stream): int { st.loopEnd * FRAC }

  /** Line of the frame `frame` of a stream. */
  function LineOf(st: Stream, frame: int, lineWords: nat): int
    requires lineWords > 0
  {
    (st.baseAddr + frame) / lineWords
  }

  datatype Lines = Lines(line0: int, line1: int)

  function SecondFrame(st: Stream, frame: int, looping: bool): int
  {
    if looping then (if frame + 1 >= st.loopEnd then st.loopStart else frame + 1)
    else if frame + 1 >= st.length then frame
    else frame + 1
  }

  /** The cache lines of both frames, unless the stream is over. */
  function EndpointLines(st: Stream, phase: U32, looping: bool, lineWords: nat): Option<Lines>
    requires lineWords > 0
  {
    var frame := (phase / FRAC) % FRAME_RANGE;
    if frame >= st.length then None
    else Some(Lines(LineOf(st, frame, lineWords), LineOf(st, SecondFrame(st, frame, looping), lineWords)))
  }

  function NextPhase(st: Stream, phase: U32, looping: bool): int
  {
    var sum := phase + st.phaseInc;
    if looping && sum >= LoopEnd(st) then sum - LoopLength(st) else ToU32(sum)
  }

  /** The second frame a stream reads is the one it comes to next when it moves a frame at a time; at
      the end of a stream that does not loop it is the last frame again. */
  lemma SecondIsNext(st: Stream, phase: U32, looping: bool)
    requires Sound(st) && st.phaseInc == FRAC && phase / FRAC < st.length && (looping ==> phase < LoopEnd(st))
    ensures SecondFrame(st, phase / FRAC, looping) ==
            if looping || phase / FRAC + 1 < st.length then NextPhase(st, phase, looping) / FRAC else phase / FRAC
  {
    DivBounds(phase, FRAC);
    DivUnique(phase + FRAC, FRAC, phase / FRAC + 1);
    if looping && phase + FRAC >= LoopEnd(st) {
      DivUnique(phase + FRAC - LoopLength(st), FRAC, st.loopStart);
    }
  }

  /** The phase after some frames, had it not wrapped. */
  function PhaseAt(st: Stream, phase: int, frames: nat): int { phase + st.phaseInc * frames }

  lemma PhaseSteps(st: Stream, phase: int, frames: nat)
    ensures PhaseAt(st, phase, 0) == phase && PhaseAt(st, phase, frames) >= phase
    ensures frames > 0 ==> PhaseAt(st, phase, frames) == PhaseAt(st, phase, frames - 1) + st.phaseInc
  {
    MulMonotone(0, frames, st.phaseInc);
    if frames > 0 {
      assert st.phaseInc * frames == st.phaseInc * (frames - 1) + st.phaseInc;
    }
  }

  function AdvanceBy(st: Stream, phase: int, frames: nat, looping: bool): U32
    requires Sound(st)
  {
    Wrapped(st, PhaseAt(st, phase, frames), looping)
  }

  function Wrapped(st: Stream, sum: int, looping: bool): U32
    requires Sound(st)
  {
    if looping && sum >= LoopEnd(st) then
      var wraps := (sum - LoopEnd(st)) / LoopLength(st) + 1;
      ToU32(sum - wraps * LoopLength(st))
    else ToU32(sum)
  }

  function FramesUntil(phase: int, phaseInc: nat, threshold: int): (n: int)
    requires phaseInc > 0
    ensures n >= 1
  {
    if threshold <= phase then 1
    else
      var n := (threshold - phase + phaseInc - 1) / phaseInc;
      if n > 1 then n else 1
  }

  /** The threshold is first reached after exactly that many steps. */
  lemma UntilIsFirst(phase: int, phaseInc: nat, threshold: int, k: nat)
    requires phaseInc > 0 && phase < threshold
    ensures k < FramesUntil(phase, phaseInc, threshold) <==> phase + phaseInc * k < threshold
  {
    var d := threshold - phase;
    var n := (d + phaseInc - 1) / phaseInc;
    DivBounds(d + phaseInc - 1, phaseInc);
    if k < n {
      MulMonotone(k, n - 1, phaseInc);
    } else {
      MulMonotone(n, k, phaseInc);
    }
  }

  /** The first frame of the line after the one `frame` lies in. */
  function NextLine(st: Stream, frame: int, lineWords: nat): int
    requires lineWords > 0
  {
    (LineOf(st, frame, lineWords) + 1) * lineWords - st.baseAddr
  }

  /** How many frames keep the endpoint lines of the first. */
  function SegmentLength(st: Stream, frame: int, phase: U32, looping: bool, lineWords: nat, endLimit: int): (n: int)
    requires Sound(st) && lineWords > 0
  {
    if EndpointLines(st, phase, looping, lineWords).None? then 0
    else
      var frame0 := (phase / FRAC) % FRAME_RANGE;
      var nextLine := NextLine(st, frame0, lineWords);
      var c0 := endLimit - frame;
      var c1 := if nextLine > frame0 then Min(c0, FramesUntil(phase, st.phaseInc, nextLine * FRAC)) else c0;
      var c2 := if nextLine - 1 > frame0 then Min(c1, FramesUntil(phase, st.phaseInc, (nextLine - 1) * FRAC)) else c1;
      var c3 :=
        if looping then
          var crossing := if st.loopEnd - 1 > frame0 then Min(c2, FramesUntil(phase, st.phaseInc, (st.loopEnd - 1) * FRAC)) else c2;
          Min(crossing, FramesUntil(phase, st.phaseInc, LoopEnd(st)))
        else Min(c2, FramesUntil(phase, st.phaseInc, st.length * FRAC));
      if c3 > 1 then c3 else 1
  }

  // ---- One step ---------------------------------------------------------------------------

  /** The phase of a looping stream stays before the loop end. */
  predicate InLoop(st: Stream, phase: int, looping: bool)
  {
    0 <= phase < TWO_32 && (looping ==> phase < LoopEnd(st))
  }

  /** One skip of one frame is one step, for every phase inside the loop, exactly when the stream
      moves no further than its loop is long. */
  lemma SingleStep(st: Stream)
    requires Sound(st)
    ensures st.phaseInc <= LoopLength(st) <==>
              forall phase | InLoop(st, phase, true) :: AdvanceBy(st, phase, 1, true) == NextPhase(st, phase, true)
  {
    if st.phaseInc <= LoopLength(st) {
      forall phase | InLoop(st, phase, true)
        ensures AdvanceBy(st, phase, 1, true) == NextPhase(st, phase, true)
      {
        OneWrap(st, phase, 1);
      }
    } else {
      var phase := LoopEnd(st) - 1;
      var over := st.phaseInc - 1;
      assert phase + st.phaseInc * 1 == LoopEnd(st) + over;
      DivMonotone(LoopLength(st), over, LoopLength(st));
      DivUnique(LoopLength(st), LoopLength(st), 1);
      var wraps := over / LoopLength(st) + 1;
      DivBounds(over, LoopLength(st));
      assert wraps * LoopLength(st) == over / LoopLength(st) * LoopLength(st) + LoopLength(st);
      MulMonotone(2, wraps, LoopLength(st));
      assert AdvanceBy(st, phase, 1, true) == LoopEnd(st) + over - wraps * LoopLength(st);
      assert InLoop(st, phase, true) && AdvanceBy(st, phase, 1, true) != NextPhase(st, phase, true);
    }
  }

  /** A skip that passes the loop end by less than one increment wraps once. */
  lemma OneWrap(st: Stream, phase: int, frames: nat)
    requires Sound(st) && st.phaseInc <= LoopLength(st) && frames > 0 && 0 <= phase
    requires PhaseAt(st, phase, frames - 1) < LoopEnd(st)
    ensures var sum := PhaseAt(st, phase, frames);
            AdvanceBy(st, phase, frames, true) == if sum >= LoopEnd(st) then sum - LoopLength(st) else sum
    ensures InLoop(st, AdvanceBy(st, phase, frames, true), true)
  {
    hide PhaseAt, Wrapped;
    PhaseSteps(st, phase, frames);
    WrappedOnce(st, PhaseAt(st, phase, frames));
  }

  lemma WrappedOnce(st: Stream, sum: int)
    requires Sound(st) && 0 <= sum < LoopEnd(st) + LoopLength(st)
    ensures Wrapped(st, sum, true) == if sum >= LoopEnd(st) then sum - LoopLength(st) else sum
    ensures InLoop(st, Wrapped(st, sum, true), true)
  {
    if sum >= LoopEnd(st) {
      WrapsOnce(sum - LoopEnd(st), LoopLength(st));
    }
  }

  lemma WrapsOnce(over: int, length: int)
    requires 0 <= over < length
    ensures (over / length + 1) * length == length
  {
    DivUnique(over, length, 0);
  }

  // ---- One segment ------------------------------------------------------------------------

  lemma SameLine(st: Stream, first: int, frame: int, lineWords: nat)
    requires lineWords > 0 && 0 <= first <= frame
    requires frame < NextLine(st, first, lineWords)
    ensures LineOf(st, frame, lineWords) == LineOf(st, first, lineWords)
  {
    DivBounds(st.baseAddr + first, lineWords);
    DivUnique(st.baseAddr + frame, lineWords, LineOf(st, first, lineWords));
  }

  /** A phase between here and the first time a threshold is reached. */
  predicate Before(phase: int, there: int, threshold: int)
  {
    phase / FRAC < threshold ==> there < threshold * FRAC
  }

  /** Inside a segment no threshold is reached. */
  lemma NothingReached(st: Stream, frame: int, phase: U32, looping: bool, lineWords: nat, endLimit: int, k: nat, there: int)
    requires Sound(st) && lineWords > 0 && EndpointLines(st, phase, looping, lineWords).Some?
    requires 0 < k < SegmentLength(st, frame, phase, looping, lineWords, endLimit)
    requires there == PhaseAt(st, phase, k)
    ensures var nextLine := NextLine(st, phase / FRAC, lineWords);
            && phase <= there && Before(phase, there, nextLine) && Before(phase, there, nextLine - 1)
            && if looping then Before(phase, there, st.loopEnd - 1) && Before(phase, there, st.loopEnd)
               else Before(phase, there, st.length)
  {
    hide FramesUntil;
    InFrame(phase);
    PhaseSteps(st, phase, k);
    var nextLine := NextLine(st, phase / FRAC, lineWords);
    Reaches(st, phase, k, there, nextLine);
    Reaches(st, phase, k, there, nextLine - 1);
    Reaches(st, phase, k, there, st.loopEnd - 1);
    Reaches(st, phase, k, there, st.loopEnd);
    Reaches(st, phase, k, there, st.length);
  }

  /** Inside a segment the phase neither wraps nor leaves its lines. */
  lemma SteadyLines(st: Stream, frame: int, phase: U32, looping: bool, lineWords: nat, endLimit: int, k: nat)
    requires Sound(st) && lineWords > 0 && InLoop(st, phase, looping)
    requires EndpointLines(st, phase, looping, lineWords).Some?
    requires k < SegmentLength(st, frame, phase, looping, lineWords, endLimit)
    ensures InLoop(st, PhaseAt(st, phase, k), looping)
    ensures EndpointLines(st, PhaseAt(st, phase, k), looping, lineWords) == EndpointLines(st, phase, looping, lineWords)
  {
    hide SegmentLength, PhaseAt;
    PhaseSteps(st, phase, k);
    if k > 0 {
      var there := PhaseAt(st, phase, k);
      NothingReached(st, frame, phase, looping, lineWords, endLimit, k, there);
      SteadyPhases(st, phase, there, looping, lineWords);
    }
  }

  lemma SteadyPhases(st: Stream, phase: U32, there: int, looping: bool, lineWords: nat)
    requires Sound(st) && lineWords > 0 && InLoop(st, phase, looping) && phase <= there
    requires EndpointLines(st, phase, looping, lineWords).Some?
    requires var nextLine := NextLine(st, phase / FRAC, lineWords);
             Before(phase, there, nextLine) && Before(phase, there, nextLine - 1)
    requires if looping then Before(phase, there, st.loopEnd - 1) && Before(phase, there, st.loopEnd)
             else Before(phase, there, st.length)
    ensures InLoop(st, there, looping)
    ensures EndpointLines(st, there, looping, lineWords) == EndpointLines(st, phase, looping, lineWords)
  {
    hide NextLine, LineOf;
    InFrame(phase);
    LineAhead(st, phase / FRAC, lineWords);
    InFrame(there);
    SteadyFrames(st, phase / FRAC, there / FRAC, looping, lineWords);
  }

  lemma LineAhead(st: Stream, frame: int, lineWords: nat)
    requires lineWords > 0
    ensures frame < NextLine(st, frame, lineWords)
  {
    DivBounds(st.baseAddr + frame, lineWords);
  }

  /** Frames between the same thresholds read the same lines. */
  lemma SteadyFrames(st: Stream, frame0: int, frameK: int, looping: bool, lineWords: nat)
    requires Sound(st) && lineWords > 0 && 0 <= frame0 <= frameK < st.length
    requires var nextLine := NextLine(st, frame0, lineWords);
             frameK < nextLine && (frame0 < nextLine - 1 ==> frameK < nextLine - 1)
    requires looping ==> frameK < st.loopEnd && (frame0 < st.loopEnd - 1 ==> frameK < st.loopEnd - 1)
    ensures LineOf(st, frameK, lineWords) == LineOf(st, frame0, lineWords)
    ensures LineOf(st, SecondFrame(st, frameK, looping), lineWords) == LineOf(st, SecondFrame(st, frame0, looping), lineWords)
  {
    hide LineOf;
    SameLine(st, frame0, frameK, lineWords);
    if frame0 < NextLine(st, frame0, lineWords) - 1 && frameK != frame0 {
      SameLine(st, frame0, frameK + 1, lineWords);
      SameLine(st, frame0, frame0 + 1, lineWords);
    }
  }

  lemma InFrame(phase: U32)
    ensures (phase / FRAC) % FRAME_RANGE == phase / FRAC
  {
  }

  /** Before a threshold's count is up, the phase is below the threshold. */
  lemma Reaches(st: Stream, phase: U32, k: nat, there: int, threshold: int)
    requires Sound(st) && there == PhaseAt(st, phase, k)
    ensures k < FramesUntil(phase, st.phaseInc, threshold * FRAC) ==> Before(phase, there, threshold)
  {
    if phase / FRAC < threshold {
      UntilIsFirst(phase, st.phaseInc, threshold * FRAC, k);
    }
  }

  /** So skipping over a segment ends where walking over it ends. */
  function WalkPhase(st: Stream, phase: int, frames: nat, looping: bool): int
    requires 0 <= phase < TWO_32
    decreases frames
  {
    if frames == 0 then phase
    else
      var before := WalkPhase(st, phase, frames - 1, looping);
      if 0 <= before < TWO_32 then NextPhase(st, before, looping) else before
  }

  lemma {:induction false} SkipIsWalk(st: Stream, frame: int, phase: U32, looping: bool, lineWords: nat, endLimit: int, k: nat)
    requires Sound(st) && lineWords > 0 && InLoop(st, phase, looping)
    requires looping ==> st.phaseInc <= LoopLength(st)
    requires EndpointLines(st, phase, looping, lineWords).Some?
    requires k <= SegmentLength(st, frame, phase, looping, lineWords, endLimit)
    ensures WalkPhase(st, phase, k, looping) == AdvanceBy(st, phase, k, looping)
    ensures InLoop(st, AdvanceBy(st, phase, k, looping), looping)
    ensures k < SegmentLength(st, frame, phase, looping, lineWords, endLimit) ==>
              AdvanceBy(st, phase, k, looping) == PhaseAt(st, phase, k)
  {
    hide SegmentLength, EndpointLines, PhaseAt, Wrapped, NextPhase, Sound, LoopLength;
    PhaseSteps(st, phase, k);
    if k > 0 {
      SkipIsWalk(st, frame, phase, looping, lineWords, endLimit, k - 1);
      SteadyLines(st, frame, phase, looping, lineWords, endLimit, k - 1);
      StepWraps(st, PhaseAt(st, phase, k - 1), looping);
    } else {
      Unwrapped(st, phase, looping);
    }
    if k < SegmentLength(st, frame, phase, looping, lineWords, endLimit) {
      SteadyLines(st, frame, phase, looping, lineWords, endLimit, k);
      Unwrapped(st, PhaseAt(st, phase, k), looping);
    }
  }

  lemma StepWraps(st: Stream, before: int, looping: bool)
    requires Sound(st) && InLoop(st, before, looping) && (looping ==> st.phaseInc <= LoopLength(st))
    ensures NextPhase(st, before, looping) == Wrapped(st, before + st.phaseInc, looping)
    ensures InLoop(st, Wrapped(st, before + st.phaseInc, looping), looping)
  {
    if looping {
      WrappedOnce(st, before + st.phaseInc);
    }
  }

  lemma Unwrapped(st: Stream, sum: int, looping: bool)
    requires Sound(st) && InLoop(st, sum, looping)
    ensures Wrapped(st, sum, looping) == sum
  {
  }

  // ---- A whole stream ---------------------------------------------------------------------

  predicate Looping(st: Stream, frame: int)
  {
    st.mode == Always || (st.mode == UntilRelease && frame < st.releaseFrame)
  }

  /** A looping stream moves no further per frame than its loop is long. */
  predicate Gentle(st: Stream)
  {
    Sound(st) && (st.mode != NoLoop ==> st.phaseInc <= LoopLength(st))
  }

  function EndLimit(st: Stream, frame: int, end: int): int
  {
    if Looping(st, frame) && st.mode == UntilRelease then Min(end, st.releaseFrame) else end
  }

  lemma NextStays(st: Stream, frame: int, phase: int)
    requires Gentle(st) && InLoop(st, phase, Looping(st, frame))
    ensures InLoop(st, NextPhase(st, phase, Looping(st, frame)), Looping(st, frame + 1))
  {
  }

  /** The lines of every frame, walked one by one. */
  function FrameLines(st: Stream, frame: int, end: int, phase: int, lineWords: nat): seq<Lines>
    requires Gentle(st) && lineWords > 0 && InLoop(st, phase, Looping(st, frame))
    decreases end - frame
  {
    var lines := EndpointLines(st, phase, Looping(st, frame), lineWords);
    if frame >= end || lines.None? then []
    else
      NextStays(st, frame, phase);
      [lines.value] + FrameLines(st, frame + 1, end, NextPhase(st, phase, Looping(st, frame)), lineWords)
  }

  datatype Segment = Segment(lines: Lines, count: nat)

  function Repeated(lines: Lines, count: nat): (r: seq<Lines>)
    ensures |r| == count
  {
    seq(count, _ => lines)
  }

  function Expand(segments: seq<Segment>): seq<Lines>
  {
    if segments == [] then []
    else
      var last := segments[|segments| - 1];
      Expand(segments[..|segments| - 1]) + Repeated(last.lines, last.count)
  }

  lemma SegmentBounds(st: Stream, frame: int, phase: U32, looping: bool, lineWords: nat, endLimit: int)
    requires Sound(st) && lineWords > 0 && frame < endLimit
    requires EndpointLines(st, phase, looping, lineWords).Some?
    ensures 1 <= SegmentLength(st, frame, phase, looping, lineWords, endLimit) <= endLimit - frame
  {
  }

  /** Part of a segment, walked: the same lines over and over. */
  lemma {:induction false} WalkSegment(st: Stream, frame: int, end: int, phase: U32, lineWords: nat, k: nat)
    requires Gentle(st) && lineWords > 0 && frame < end && InLoop(st, phase, Looping(st, frame))
    requires EndpointLines(st, phase, Looping(st, frame), lineWords).Some?
    requires k <= SegmentLength(st, frame, phase, Looping(st, frame), lineWords, EndLimit(st, frame, end))
    ensures InLoop(st, AdvanceBy(st, phase, k, Looping(st, frame)), Looping(st, frame + k))
    ensures FrameLines(st, frame, end, phase, lineWords) ==
              Repeated(EndpointLines(st, phase, Looping(st, frame), lineWords).value, k)
              + FrameLines(st, frame + k, end, AdvanceBy(st, phase, k, Looping(st, frame)), lineWords)
  {
    hide SegmentLength, EndpointLines, AdvanceBy, NextPhase;
    var looping, limit := Looping(st, frame), EndLimit(st, frame, end);
    var lines := EndpointLines(st, phase, looping, lineWords).value;
    SegmentBounds(st, frame, phase, looping, lineWords, limit);
    SkipIsWalk(st, frame, phase, looping, lineWords, limit, k);
    if k == 0 {
      assert Repeated(lines, 0) == [];
    } else {
      var j := k - 1;
      WalkSegment(st, frame, end, phase, lineWords, j);
      SkipIsWalk(st, frame, phase, looping, lineWords, limit, j);
      SteadyLines(st, frame, phase, looping, lineWords, limit, j);
      var there := AdvanceBy(st, phase, j, looping);
      assert Looping(st, frame + j) == looping;
      assert FrameLines(st, frame + j, end, there, lineWords) ==
             [lines] + FrameLines(st, frame + k, end, NextPhase(st, there, looping), lineWords);
      assert Repeated(lines, k) == Repeated(lines, j) + [lines];
    }
  }

  /** Frames whose two reads share a line. */
  function SameLineFrames(ls: seq<Lines>): nat
  {
    if ls == [] then 0
    else SameLineFrames(ls[..|ls| - 1]) + if ls[|ls| - 1].line0 == ls[|ls| - 1].line1 then 1 else 0
  }

  lemma {:induction false} SameLineRepeated(ls: seq<Lines>, lines: Lines, count: nat)
    ensures SameLineFrames(ls + Repeated(lines, count)) == SameLineFrames(ls) + if lines.line0 == lines.line1 then count else 0
  {
    if count == 0 {
      assert ls + Repeated(lines, 0) == ls;
    } else {
      var all, fewer := ls + Repeated(lines, count), ls + Repeated(lines, count - 1);
      assert all[..|all| - 1] == fewer && all[|all| - 1] == lines;
      SameLineRepeated(ls, lines, count - 1);
    }
  }

  // ---- What is counted along the way ------------------------------------------------------

  /** How long the first read stays on one line, run after run. */
  function Dwells(ls: seq<Lines>): (r: seq<nat>)
    ensures r == [] <==> ls == []
  {
    if ls == [] then []
    else
      var n := |ls| - 1;
      var front := Dwells(ls[..n]);
      if n > 0 && ls[n].line0 == ls[n - 1].line0 then Longer(front, 1) else front + [1]
  }

  /** The last run, some frames longer. */
  function Longer(runs: seq<nat>, k: nat): (r: seq<nat>)
    requires runs != []
    ensures r != []
  {
    runs[..|runs| - 1] + [runs[|runs| - 1] + k]
  }

  function Distance(a: int, b: int): nat { if a < b then b - a else a - b }

  /** Frames whose first read is on another line than the frame before. */
  function Jumps(ls: seq<Lines>): nat
  {
    var n := |ls| - 1;
    if n < 1 then 0 else Jumps(ls[..n]) + if ls[n].line0 == ls[n - 1].line0 then 0 else 1
  }

  function Larger(a: nat, b: nat): nat { if a < b then b else a }

  function LargestJump(ls: seq<Lines>): nat
  {
    var n := |ls| - 1;
    if n < 1 then 0 else Larger(LargestJump(ls[..n]), Distance(ls[n].line0, ls[n - 1].line0))
  }

  /** The lines that some frame reads from. */
  function Touched(ls: seq<Lines>): set<int>
  {
    if ls == [] then {}
    else Touched(ls[..|ls| - 1]) + {ls[|ls| - 1].line0, ls[|ls| - 1].line1}
  }

  lemma {:induction false} TouchedMeaning(ls: seq<Lines>, line: int)
    ensures line in Touched(ls) <==> exists i :: 0 <= i < |ls| && (ls[i].line0 == line || ls[i].line1 == line)
  {
    if ls != [] {
      var n := |ls| - 1;
      TouchedMeaning(ls[..n], line);
      assert forall i | 0 <= i < n :: ls[..n][i] == ls[i];
      if i :| 0 <= i < |ls| && (ls[i].line0 == line || ls[i].line1 == line) {
        assert i < n ==> ls[..n][i] == ls[i];
      }
    }
  }

  function NewLines(seen: set<int>, lines: Lines): nat
  {
    (if lines.line0 in seen then 0 else 1) + (if lines.line1 == lines.line0 || lines.line1 in seen then 0 else 1)
  }

  /** How many lines each frame touches first. */
  function Fills(ls: seq<Lines>): (r: seq<nat>)
    ensures |r| == |ls|
  {
    if ls == [] then []
    else
      var n := |ls| - 1;
      Fills(ls[..n]) + [NewLines(Touched(ls[..n]), ls[n])]
  }

  function Sum(ns: seq<nat>): nat
  {
    if ns == [] then 0 else Sum(ns[..|ns| - 1]) + ns[|ns| - 1]
  }

  lemma SumSnoc(ns: seq<nat>, n: nat)
    ensures Sum(ns + [n]) == Sum(ns) + n
  {
    assert (ns + [n])[..|ns|] == ns;
  }

  /** Every frame lies in one run, and every touched line is filled once. */
  lemma {:induction false} TalliesCover(ls: seq<Lines>)
    ensures Sum(Dwells(ls)) == |ls| && Sum(Fills(ls)) == |Touched(ls)|
  {
    hide Touched;
    if ls == [] {
      NothingTouched();
    } else {
      var n := |ls| - 1;
      var runs, seen := Dwells(ls[..n]), Touched(ls[..n]);
      TalliesCover(ls[..n]);
      TouchedSnoc(ls[..n], ls[n]);
      assert ls == ls[..n] + [ls[n]];
      SumSnoc(Fills(ls[..n]), NewLines(seen, ls[n]));
      SumSnoc(runs, 1);
      if n > 0 {
        SumSnoc(runs[..|runs| - 1], runs[|runs| - 1]);
        SumSnoc(runs[..|runs| - 1], runs[|runs| - 1] + 1);
        assert runs == runs[..|runs| - 1] + [runs[|runs| - 1]];
      }
    }
  }

  lemma NothingTouched()
    ensures Touched([]) == {}
  {
  }

  lemma TouchedSnoc(ls: seq<Lines>, lines: Lines)
    ensures Touched(ls + [lines]) == Touched(ls) + {lines.line0, lines.line1}
    ensures |Touched(ls + [lines])| == |Touched(ls)| + NewLines(Touched(ls), lines)
  {
    assert (ls + [lines])[..|ls|] == ls;
    OneMore(Touched(ls), lines.line0);
    OneMore(Touched(ls) + {lines.line0}, lines.line1);
    assert Touched(ls) + {lines.line0} + {lines.line1} == Touched(ls) + {lines.line0, lines.line1};
  }

  lemma OneMore(seen: set<int>, line: int)
    ensures |seen + {line}| == |seen| + if line in seen then 0 else 1
  {
    if line in seen {
      assert seen + {line} == seen;
    } else {
      assert (seen + {line}) - {line} == seen;
    }
  }

  /** What the analysis has counted over some frames; the run that is still going on is kept apart. */
  datatype Tally = Tally(dwells: seq<nat>, dwell: nat, previous: Option<int>, jumps: nat, largestJump: nat,
                         seen: set<int>, fills: seq<nat>)

  ghost predicate Tallied(t: Tally, ls: seq<Lines>)
  {
    && Dwells(ls) == (if t.dwell == 0 then t.dwells else t.dwells + [t.dwell])
    && t.previous == (if ls == [] then None else Some(ls[|ls| - 1].line0))
    && (ls == [] ==> t.dwells == []) && (ls == [] <==> t.dwell == 0)
    && t.jumps == Jumps(ls) && t.largestJump == LargestJump(ls)
    && t.seen == Touched(ls) && t.fills == Fills(ls)
  }

  function Nothing(): Tally { Tally([], 0, None, 0, 0, {}, []) }

  lemma NothingTallied()
    ensures Tallied(Nothing(), [])
  {
  }

  /** Counts a whole segment at once. */
  method AddSegment(t: Tally, ghost ls: seq<Lines>, lines: Lines, count: nat) returns (r: Tally)
    requires Tallied(t, ls) && count > 0
    ensures Tallied(r, ls + Repeated(lines, count))
  {
    hide Touched, Fills, Jumps, LargestJump, Dwells;
    SegmentCounts(ls, lines, count);
    var dwells, dwell, jumps, largestJump, seen, new_ := t.dwells, t.dwell, t.jumps, t.largestJump, t.seen, 0;
    if t.previous.None? {
      dwell := count;
    } else {
      var jump := Distance(lines.line0, t.previous.value);
      if jump != 0 {
        jumps := jumps + 1;
        largestJump := Larger(largestJump, jump);
      }
      if lines.line0 == t.previous.value {
        dwell := dwell + count;
      } else {
        dwells := dwells + [dwell];
        dwell := count;
      }
    }
    if lines.line0 !in seen {
      seen := seen + {lines.line0};
      new_ := new_ + 1;
    }
    if lines.line1 != lines.line0 && lines.line1 !in seen {
      seen := seen + {lines.line1};
      new_ := new_ + 1;
    }
    r := Tally(dwells, dwell, Some(lines.line0), jumps, largestJump, seen, t.fills + [new_] + Zeros(count - 1));
  }

  function Zeros(n: nat): (r: seq<nat>)
    ensures |r| == n
  {
    seq(n, _ => 0)
  }

  /** Frames that repeat the same lines add one run, at most one jump, and no line after the first. */
  ghost predicate Counts(ls: seq<Lines>, lines: Lines, count: nat, longer: seq<Lines>)
    requires count > 0
  {
    var stays := ls != [] && ls[|ls| - 1].line0 == lines.line0;
    && longer != [] && longer[|longer| - 1] == lines
    && Dwells(longer) == (if stays then Longer(Dwells(ls), count) else Dwells(ls) + [count])
    && Jumps(longer) == Jumps(ls) + (if ls == [] || stays then 0 else 1)
    && LargestJump(longer) == Larger(LargestJump(ls), if ls == [] then 0 else Distance(lines.line0, ls[|ls| - 1].line0))
    && Touched(longer) == Touched(ls) + {lines.line0, lines.line1}
    && Fills(longer) == Fills(ls) + [NewLines(Touched(ls), lines)] + Zeros(count - 1)
  }

  lemma {:induction false} SegmentCounts(ls: seq<Lines>, lines: Lines, count: nat)
    requires count > 0
    ensures Counts(ls, lines, count, ls + Repeated(lines, count))
    decreases count
  {
    hide Counts;
    if count == 1 {
      assert Repeated(lines, 1) == [lines];
      FirstCounts(ls, lines);
    } else {
      var front := ls + Repeated(lines, count - 1);
      SegmentCounts(ls, lines, count - 1);
      MoreCounts(ls, lines, count - 1, front);
      assert front + [lines] == ls + Repeated(lines, count);
    }
  }

  lemma FirstCounts(ls: seq<Lines>, lines: Lines)
    ensures Counts(ls, lines, 1, ls + [lines])
  {
    hide Touched;
    assert (ls + [lines])[..|ls|] == ls;
    TouchedSnoc(ls, lines);
    assert Zeros(0) == [];
  }

  lemma MoreCounts(ls: seq<Lines>, lines: Lines, count: nat, front: seq<Lines>)
    requires count > 0 && Counts(ls, lines, count, front)
    ensures Counts(ls, lines, count + 1, front + [lines])
  {
    hide Touched, Dwells, Jumps, LargestJump, Fills, Longer;
    SameFrameCounts(front, lines);
    TouchedSnoc(front, lines);
    var runs := Dwells(ls);
    LastLonger(runs, count);
    assert Touched(front) + {lines.line0, lines.line1} == Touched(front);
    assert NewLines(Touched(front), lines) == 0;
    assert Fills(front) + [0] == Fills(ls) + [NewLines(Touched(ls), lines)] + (Zeros(count - 1) + [0]);
    assert Zeros(count) == Zeros(count - 1) + [0];
  }

  lemma LastLonger(runs: seq<nat>, count: nat)
    ensures runs != [] ==> Longer(Longer(runs, count), 1) == Longer(runs, count + 1)
    ensures Longer(runs + [count], 1) == runs + [count + 1]
  {
  }

  lemma SameFrameCounts(front: seq<Lines>, lines: Lines)
    requires front != [] && front[|front| - 1] == lines
    ensures var longer := front + [lines];
            && Dwells(longer) == Longer(Dwells(front), 1) && Jumps(longer) == Jumps(front)
            && LargestJump(longer) == LargestJump(front)
            && Fills(longer) == Fills(front) + [NewLines(Touched(front), lines)]
  {
    hide Touched;
    var longer := front + [lines];
    assert longer[..|front|] == front && longer[|front| - 1] == lines;
  }

  lemma ExpandSnoc(segments: seq<Segment>, s: Segment)
    ensures Expand(segments + [s]) == Expand(segments) + Repeated(s.lines, s.count)
  {
    assert (segments + [s])[..|segments|] == segments;
  }

  lemma WalkOver(st: Stream, frame: int, end: int, phase: U32, lineWords: nat)
    requires Gentle(st) && lineWords > 0 && InLoop(st, phase, Looping(st, frame))
    requires frame >= end || EndpointLines(st, phase, Looping(st, frame), lineWords).None?
    ensures FrameLines(st, frame, end, phase, lineWords) == []
  {
  }

  /** The skipping analysis sees the lines the frame-by-frame walk sees, each frame once, and counts
      reads, shared lines, runs, jumps and first touches as the walk would. */
  method Analyze(st: Stream, start: int, end: int, lineWords: nat)
    returns (segments: seq<Segment>, endpointReads: nat, sameLine: nat, crossLine: nat, tally: Tally)
    requires Gentle(st) && lineWords > 0
    ensures var walk := FrameLines(st, start, end, 0, lineWords);
            && Expand(segments) == walk && (forall i | 0 <= i < |segments| :: segments[i].count > 0)
            && endpointReads == 2 * |walk| && sameLine == SameLineFrames(walk) && crossLine == |walk| - sameLine
            && tally.dwells == Dwells(walk) && tally.jumps == Jumps(walk) && tally.largestJump == LargestJump(walk)
            && tally.seen == Touched(walk) && tally.fills == Fills(walk)
  {
    hide SegmentLength, EndpointLines, AdvanceBy, NextPhase, FrameLines, Expand, Repeated, SameLineFrames, InLoop, Gentle, EndLimit;
    hide Tallied, Touched, Fills, Jumps, LargestJump, Dwells;
    var frame, phase := start, 0;
    segments, endpointReads, sameLine, crossLine, tally := [], 0, 0, 0, Nothing();
    StartsInLoop(st, start);
    NothingTallied();
    while frame < end
      invariant 0 <= phase < TWO_32 && InLoop(st, phase, Looping(st, frame))
      invariant FrameLines(st, start, end, 0, lineWords) == Expand(segments) + FrameLines(st, frame, end, phase, lineWords)
      invariant endpointReads == 2 * |Expand(segments)|
      invariant sameLine == SameLineFrames(Expand(segments)) && crossLine == |Expand(segments)| - sameLine
      invariant forall i | 0 <= i < |segments| :: segments[i].count > 0
      invariant Tallied(tally, Expand(segments))
      decreases end - frame
    {
      var looping := Looping(st, frame);
      var endLimit := EndLimit(st, frame, end);
      var lines := EndpointLines(st, phase, looping, lineWords);
      if lines.None? {
        break;
      }
      LimitAhead(st, frame, end);
      SegmentBounds(st, frame, phase, looping, lineWords, endLimit);
      var framesThis := SegmentLength(st, frame, phase, looping, lineWords, endLimit);
      WalkSegment(st, frame, end, phase, lineWords, framesThis);
      SameLineRepeated(Expand(segments), lines.value, framesThis);
      ExpandSnoc(segments, Segment(lines.value, framesThis));
      endpointReads := endpointReads + 2 * framesThis;
      if lines.value.line0 == lines.value.line1 {
        sameLine := sameLine + framesThis;
      } else {
        crossLine := crossLine + framesThis;
      }
      tally := AddSegment(tally, Expand(segments), lines.value, framesThis);
      segments := segments + [Segment(lines.value, framesThis)];
      phase := AdvanceBy(st, phase, framesThis, looping);
      frame := frame + framesThis;
    }
    WalkOver(st, frame, end, phase, lineWords);
    tally := CloseRun(tally, Expand(segments));
  }

  /** Ends the run that was still going on. */
  method CloseRun(t: Tally, ghost ls: seq<Lines>) returns (r: Tally)
    requires Tallied(t, ls)
    ensures r == t.(dwells := Dwells(ls), dwell := 0)
    ensures t.jumps == Jumps(ls) && t.largestJump == LargestJump(ls) && t.seen == Touched(ls) && t.fills == Fills(ls)
  {
    r := if t.dwell != 0 then t.(dwells := t.dwells + [t.dwell], dwell := 0) else t;
  }

  lemma StartsInLoop(st: Stream, start: int)
    requires Gentle(st)
    ensures Sound(st) && InLoop(st, 0, Looping(st, start)) && Expand([]) == [] && SameLineFrames([]) == 0
  {
  }

  lemma LimitAhead(st: Stream, frame: int, end: int)
    requires frame < end
    ensures frame < EndLimit(st, frame, end) <= end
  {
  }
}
