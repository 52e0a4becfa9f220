/**
 The sliced control job of the synthesizer controller: a snapshot of voices and channel revisions,
 slices of sixteen voices between which MIDI events run, and a final clearing of dirty marks.
 */
module ControlJob {
  import opened CInt
  import opened Channels
  import opened Lifecycle
  import opened VoiceRuntime
  import Stealing

  const UPDATE_PERIOD_MS: int := 5
  const VOICE_SLICE: int := 16

  // ---- What holds while a job runs --------------------------------------------------------

  /** The voice that was in slot `v` when the job started is still there. */
  ghost predicate Survives(o: Picture, p: Picture, v: int)
    requires Sized(o) && Sized(p) && |o.voices| == |p.voices| && 0 <= v < |p.voices|
  {
    o.starts[v] == p.starts[v] && p.voices[v].stage != Free && Unreleased(o.voices[v])
  }

  /** What refused slices of a job have done, slot by slot: how many of them reached the slot, and how
      many of those ended there. */
  datatype Refusals = Refusals(reached: seq<nat>, own: seq<nat>)

  function NoRefusals(n: nat): Refusals { Refusals(seq(n, _ => 0), seq(n, _ => 0)) }

  /** One more slice, refused at slot `last`. */
  function OneRefusal(r: Refusals, cursor: int, last: int): Refusals
  {
    Refusals(seq(|r.reached|, v requires 0 <= v < |r.reached| => r.reached[v] + if cursor <= v <= last then 1 else 0),
             seq(|r.own|, v requires 0 <= v < |r.own| => r.own[v] + if v == last then 1 else 0))
  }

  /** A slice of at most sixteen slots was refused at one of them. */
  ghost predicate RefusedOnceMore(before: Refusals, after: Refusals, cursor: int)
  {
    exists last :: cursor <= last < cursor + VOICE_SLICE && after == OneRefusal(before, cursor, last)
  }

  /** How often the job has advanced a slot so far. */
  function Passes(r: Refusals, cursor: int, v: int): nat
    requires 0 <= v < |r.reached|
  {
    r.reached[v] + if v < cursor then 1 else 0
  }

  /** The ticks its oscillators have made: one fewer for each time the slot was refused itself. */
  function LfoTime(passes: nat, elapsed: nat, own: nat): nat
  {
    if own <= passes * elapsed then passes * elapsed - own else 0
  }

  lemma OnePassMore(passes: nat, elapsed: nat, own: nat)
    requires own <= passes && elapsed >= 1
    ensures (passes + 1) * elapsed == passes * elapsed + elapsed
    ensures LfoTime(passes + 1, elapsed, own) == LfoTime(passes, elapsed, own) + elapsed
    ensures LfoTime(passes + 1, elapsed, own + 1) == LfoTime(passes, elapsed, own) + elapsed - 1
  {
    assert passes * elapsed >= passes;
  }

  /** Where the motion of a slot is after so many passes. */
  function MotionAfter(m: Motion, passes: nat, elapsed: nat, own: nat): Motion
  {
    Ahead(m, passes * elapsed, LfoTime(passes, elapsed, own))
  }

  lemma MotionAfterPass(m: Motion, passes: nat, elapsed: nat, own: nat)
    requires own <= passes && elapsed >= 1
    ensures Moved(MotionAfter(m, passes, elapsed, own), elapsed) == MotionAfter(m, passes + 1, elapsed, own)
    ensures MovedToSend(MotionAfter(m, passes, elapsed, own), elapsed) == MotionAfter(m, passes + 1, elapsed, own + 1)
    ensures MotionAfter(m, 0, elapsed, 0) == m && MotionAfter(m, 1, elapsed, 0) == Moved(m, elapsed)
  {
    hide Ahead, Moved, MovedToSend;
    OnePassMore(passes, elapsed, own);
    MovedAhead(m, passes * elapsed, LfoTime(passes, elapsed, own), elapsed);
  }

  /** One slot between the snapshot `o` and now. The job's slots have been advanced once for each
      refused slice that reached them, and once more below the cursor; those below owe nothing their
      channel had marked, unless it has been marked again. */
  ghost predicate SlotInJob(o: Picture, p: Picture, cursor: int, elapsed: U32, r: Refusals, v: int)
    requires Sized(o) && Sized(p) && |o.voices| == |p.voices| == |r.reached| == |r.own| && 0 <= v < |p.voices|
  {
    var x, x0 := p.voices[v], o.voices[v];
    var c, passes := x.channel, Passes(r, cursor, v);
    && o.starts[v] <= p.starts[v] && o.advances[v] <= p.advances[v]
    && (o.starts[v] == p.starts[v] ==>
          && x.generation == x0.generation
          && (x.stage != Free ==> x0.stage != Free && x.channel == x0.channel)
          && (Unreleased(x) ==> Unreleased(x0)))
    && (Unreleased(x) && o.marks[c] == p.marks[c] ==>
          if o.starts[v] != p.starts[v] then p.stale[v] == {}
          else v < cursor ==> p.stale[v] !! p.channels[c].dirtyGroups)
    && r.own[v] <= r.reached[v]
    && p.advances[v] <= o.advances[v] + passes
    && (Survives(o, p, v) ==> p.advances[v] == o.advances[v] + passes)
    && (o.starts[v] == p.starts[v] && Unreleased(x) ==> x.motion == MotionAfter(x0.motion, passes, elapsed, r.own[v]))
  }

  ghost predicate JobInv(o: Picture, p: Picture, cursor: int, elapsed: U32, r: Refusals)
  {
    && Sized(o) && Sized(p) && |o.voices| == |p.voices| == |r.reached| == |r.own| && 0 <= cursor <= |o.voices| && elapsed >= 1
    && (forall c: ChannelIndex :: ChannelEvolves(o, p, c))
    && (forall v | 0 <= v < |o.voices| :: SlotInJob(o, p, cursor, elapsed, r, v))
  }

  lemma JobStarts(p: Picture, elapsed: U32)
    requires Sized(p) && elapsed >= 1
    ensures JobInv(p, p, 0, elapsed, NoRefusals(|p.voices|))
  {
    hide MotionAfter;
    forall v | 0 <= v < |p.voices|
      ensures SlotInJob(p, p, 0, elapsed, NoRefusals(|p.voices|), v)
    {
      MotionAfterPass(p.voices[v].motion, 0, elapsed, 0);
    }
  }

  /** With nothing sounding, the job may skip to its end. */
  lemma EmptyJob(p: Picture, elapsed: U32)
    requires Sized(p) && elapsed >= 1 && forall v | 0 <= v < |p.voices| :: p.voices[v].stage == Free
    ensures JobInv(p, p, |p.voices|, elapsed, NoRefusals(|p.voices|))
  {
  }

  lemma JobBegins(p: Picture, elapsed: U32, cursor: int)
    requires Sized(p) && elapsed >= 1 && (cursor == 0 || (cursor == |p.voices| && AllFree(p.voices)))
    ensures JobInv(p, p, cursor, elapsed, NoRefusals(|p.voices|))
  {
    hide JobInv;
    if cursor == 0 {
      JobStarts(p, elapsed);
    } else {
      EmptyJob(p, elapsed);
    }
  }

  /** Any MIDI event or completion may happen between two slices. */
  lemma JobMeetsEvent(o: Picture, p: Picture, q: Picture, cursor: int, elapsed: U32, r: Refusals)
    requires JobInv(o, p, cursor, elapsed, r) && Evolves(p, q)
    ensures JobInv(o, q, cursor, elapsed, r)
  {
    forall c: ChannelIndex
      ensures ChannelEvolves(o, q, c)
    {
      ChannelEvolvesTransitive(o, p, q, c);
    }
    forall v | 0 <= v < |o.voices|
      ensures SlotInJob(o, q, cursor, elapsed, r, v)
    {
      var c := q.voices[v].channel;
      assert SlotInJob(o, p, cursor, elapsed, r, v) && VoiceEvolves(p, q, v);
      assert ChannelEvolves(o, p, c) && ChannelEvolves(p, q, c);
    }
  }

  /** A slice that ran to its end moves the cursor. */
  lemma JobSlice(o: Picture, p: Picture, q: Picture, snaps: seq<Snap>, revisions: seq<U32>,
                 cursor: int, count: nat, elapsed: U32, r: Refusals)
    requires JobInv(o, p, cursor, elapsed, r) && Remembers(o, snaps, revisions)
    requires Sliced(p, q, snaps, cursor, count, elapsed, false) && cursor + count <= |o.voices|
    ensures JobInv(o, q, cursor + count, elapsed, r)
  {
    hide Moved, MovedToSend, MotionAfter;
    var next := cursor + count;
    forall c: ChannelIndex
      ensures ChannelEvolves(o, q, c)
    {
      assert ChannelEvolves(o, p, c);
    }
    forall v | 0 <= v < |o.voices|
      ensures SlotInJob(o, q, next, elapsed, r, v)
    {
      assert SlotInJob(o, p, cursor, elapsed, r, v) && SlotSliced(p, q, snaps, cursor, count, elapsed, false, v);
      SlotEligible(o, p, cursor, elapsed, r, snaps, revisions, v);
      MotionAfterPass(o.voices[v].motion, Passes(r, cursor, v), elapsed, r.own[v]);
    }
  }

  /** What the job still answers for, it still advances. */
  lemma SlotEligible(o: Picture, p: Picture, cursor: int, elapsed: U32, r: Refusals, snaps: seq<Snap>, revisions: seq<U32>, v: int)
    requires JobInv(o, p, cursor, elapsed, r) && Remembers(o, snaps, revisions) && 0 <= v < |o.voices|
    ensures Survives(o, p, v) || (o.starts[v] == p.starts[v] && Unreleased(p.voices[v])) ==> Eligible(snaps[v], p.voices[v])
  {
    assert SlotInJob(o, p, cursor, elapsed, r, v);
  }

  /** A slice that met a full sink leaves the cursor; its first voices will be advanced again. */
  lemma JobSliceFailed(o: Picture, p: Picture, q: Picture, snaps: seq<Snap>, revisions: seq<U32>,
                       cursor: int, done: nat, elapsed: U32, r: Refusals)
    requires JobInv(o, p, cursor, elapsed, r) && Remembers(o, snaps, revisions)
    requires Sliced(p, q, snaps, cursor, done, elapsed, true) && cursor + done < |o.voices|
    ensures JobInv(o, q, cursor, elapsed, OneRefusal(r, cursor, cursor + done))
  {
    hide Moved, MovedToSend, MotionAfter;
    var r' := OneRefusal(r, cursor, cursor + done);
    forall c: ChannelIndex
      ensures ChannelEvolves(o, q, c)
    {
      assert ChannelEvolves(o, p, c);
    }
    forall v | 0 <= v < |o.voices|
      ensures SlotInJob(o, q, cursor, elapsed, r', v)
    {
      assert SlotInJob(o, p, cursor, elapsed, r, v) && SlotSliced(p, q, snaps, cursor, done, elapsed, true, v);
      SlotEligible(o, p, cursor, elapsed, r, snaps, revisions, v);
      MotionAfterPass(o.voices[v].motion, Passes(r, cursor, v), elapsed, r.own[v]);
    }
  }

  // ---- The end of a job -------------------------------------------------------------------

  /** The revision looks untouched although the channel was marked during the job. */
  ghost predicate Alias(o: Picture, p: Picture, c: ChannelIndex)
    requires Sized(o) && Sized(p)
  {
    o.marks[c] < p.marks[c] && p.channels[c].dirtyRevision == o.channels[c].dirtyRevision
  }

  /** Only a controller reset during the job, or four thousand million marks, can cause that. */
  lemma AliasCause(o: Picture, p: Picture, c: ChannelIndex)
    requires Sized(o) && Sized(p) && ChannelEvolves(o, p, c) && Alias(o, p, c)
    ensures o.resets[c] < p.resets[c] || p.marks[c] - o.marks[c] >= TWO_32
  {
    NeverBack(o.channels[c].dirtyRevision, p.marks[c] - o.marks[c]);
  }

  lemma NeverBack(revision: U32, d: nat)
    ensures 0 < d < TWO_32 ==> ToU32(revision + d) != revision
  {
    if 0 < d < TWO_32 {
      assert (revision + d) % TWO_32 == if revision + d < TWO_32 then revision + d else revision + d - TWO_32;
    }
  }

  /** Clearing at the end of a job loses a mark exactly when a revision lies for a channel on which
      some sounding voice still has updates owed to it. */
  lemma JobEnds(o: Picture, p: Picture, q: Picture, elapsed: U32, r: Refusals, revisions: seq<U32>, snaps: seq<Snap>)
    requires JobInv(o, p, |o.voices|, elapsed, r) && Remembers(o, snaps, revisions)
    requires q == p.(channels := Cleared(p.channels, revisions))
    ensures forall c: ChannelIndex | NoneLostOn(p, c) ::
              NoneLostOn(q, c) <==>
              forall v | 0 <= v < |p.voices| && Unreleased(p.voices[v]) && p.voices[v].channel == c ::
                Alias(o, p, c) ==> p.stale[v] == {}
  {
    forall c: ChannelIndex, v | NoneLostOn(p, c) && 0 <= v < |q.voices| && Unreleased(q.voices[v]) && q.voices[v].channel == c
      ensures q.stale[v] <= q.channels[c].dirtyGroups <==> (Alias(o, p, c) ==> p.stale[v] == {})
    {
      assert SlotInJob(o, p, |o.voices|, elapsed, r, v) && ChannelEvolves(o, p, c);
      if p.channels[c].dirtyRevision == revisions[c] && !Alias(o, p, c) {
        assert p.stale[v] == p.stale[v] * p.channels[c].dirtyGroups == {};
      }
    }
  }

  /** A revision can lie: a reset restarts it at one, so a job that remembers one and meets a reset
      forgets that the channel's voices are still to be refreshed. */
  lemma ResetLosesMark(p: Picture)
    requires Sized(p) && |p.voices| == 1 && p.voices[0] == SILENT.(stage := Active)
    requires p.stale == [{}] && p.channels[0] == PowerOn().(dirtyRevision := 1) && NoLostMark(p)
    ensures var marked := p.(channels := p.channels[0 := Marked(PowerOn(), ALL_GROUPS)],
                             stale := StaleAfterMark(p.voices, p.stale, 0, ALL_GROUPS),
                             marks := p.marks[0 := p.marks[0] + 1], resets := p.resets[0 := p.resets[0] + 1]);
            && Evolves(p, marked) && NoLostMark(marked) && Alias(p, marked, 0)
            && !NoLostMark(marked.(channels := Cleared(marked.channels, seq(CHANNEL_COUNT, c requires 0 <= c < CHANNEL_COUNT => p.channels[c].dirtyRevision))))
  {
    var marked := p.(channels := p.channels[0 := Marked(PowerOn(), ALL_GROUPS)],
                     stale := StaleAfterMark(p.voices, p.stale, 0, ALL_GROUPS),
                     marks := p.marks[0 := p.marks[0] + 1], resets := p.resets[0 := p.resets[0] + 1]);
    ResetEvolves(p, marked, 0);
    EvolvesKeepsMarks(p, marked);
    var cleared := marked.(channels := Cleared(marked.channels, seq(CHANNEL_COUNT, c requires 0 <= c < CHANNEL_COUNT => p.channels[c].dirtyRevision)));
    assert Gain in cleared.stale[0] && cleared.channels[0].dirtyGroups == {};
  }

  lemma ClearedAliases(o: Picture, p: Picture, q: Picture, elapsed: U32, r: Refusals, revisions: seq<U32>)
    requires JobInv(o, p, |o.voices|, elapsed, r) && |revisions| == CHANNEL_COUNT
    requires q == p.(channels := Cleared(p.channels, revisions))
    ensures forall c: ChannelIndex :: Alias(o, q, c) <==> Alias(o, p, c)
    ensures forall c: ChannelIndex | Alias(o, p, c) :: Disturbed(o, p.marks, p.resets, c)
  {
    forall c: ChannelIndex | Alias(o, p, c)
      ensures Disturbed(o, p.marks, p.resets, c)
    {
      AliasCause(o, p, c);
    }
  }

  /** What a finished job has done: every voice that was unreleased at the snapshot and still holds
      its slot was advanced once, and once more for each refused slice that reached it. If it is still
      unreleased its envelope has moved by the elapsed ticks each time, and its oscillators too, less
      one tick for each time its own update was refused. */
  ghost predicate Served(o: Picture, p: Picture, elapsed: U32, r: Refusals)
  {
    && Sized(o) && Sized(p) && |o.voices| == |p.voices| == |r.reached| == |r.own|
    && forall v | 0 <= v < |o.voices| ::
         && r.own[v] <= r.reached[v] && (o.starts[v] == p.starts[v] && Unreleased(p.voices[v]) ==> Unreleased(o.voices[v]))
         && o.advances[v] <= p.advances[v] <= o.advances[v] + 1 + r.reached[v]
         && (Survives(o, p, v) ==> p.advances[v] == o.advances[v] + 1 + r.reached[v])
         && (o.starts[v] == p.starts[v] && Unreleased(p.voices[v]) ==>
               p.voices[v].motion == MotionAfter(o.voices[v].motion, 1 + r.reached[v], elapsed, r.own[v]))
  }

  lemma JobServes(o: Picture, p: Picture, elapsed: U32, r: Refusals)
    requires JobInv(o, p, |o.voices|, elapsed, r)
    ensures Served(o, p, elapsed, r)
  {
    hide MotionAfter;
    forall v | 0 <= v < |o.voices|
      ensures SlotInJob(o, p, |o.voices|, elapsed, r, v) && Passes(r, |o.voices|, v) == 1 + r.reached[v]
    {
    }
  }

  lemma SameServed(o: Picture, p: Picture, q: Picture, elapsed: U32, r: Refusals)
    requires Served(o, p, elapsed, r) && Sized(q) && q == p.(channels := q.channels)
    ensures Served(o, q, elapsed, r)
  {
    hide MotionAfter;
  }

  /** Every voice the job answers for was advanced once, by exactly the elapsed ticks. */
  ghost predicate Once(o: Picture, p: Picture, elapsed: U32)
  {
    && Sized(o) && Sized(p) && |o.voices| == |p.voices|
    && forall v | 0 <= v < |o.voices| ::
         && (Survives(o, p, v) ==> p.advances[v] == o.advances[v] + 1)
         && (o.starts[v] == p.starts[v] && Unreleased(p.voices[v]) ==> p.voices[v].motion == Moved(o.voices[v].motion, elapsed))
  }

  /** That is so if and only if no refused slice reached one of them. */
  lemma OnceExactly(o: Picture, p: Picture, elapsed: U32, r: Refusals)
    requires Served(o, p, elapsed, r) && elapsed >= 1
    ensures Once(o, p, elapsed) <==> forall v | 0 <= v < |o.voices| && Survives(o, p, v) :: r.reached[v] == 0
  {
    hide Moved, MotionAfter;
    forall v | 0 <= v < |o.voices|
      ensures MotionAfter(o.voices[v].motion, 1, elapsed, 0) == Moved(o.voices[v].motion, elapsed)
    {
      MotionAfterPass(o.voices[v].motion, 0, elapsed, 0);
    }
    if Once(o, p, elapsed) {
      forall v | 0 <= v < |o.voices| && Survives(o, p, v)
        ensures r.reached[v] == 0
      {
      }
    }
  }

  lemma CleanJobOnce(o: Picture, p: Picture, elapsed: U32, n: nat)
    requires Served(o, p, elapsed, NoRefusals(n)) && elapsed >= 1
    ensures Once(o, p, elapsed)
  {
    hide MotionAfter, Moved;
    OnceExactly(o, p, elapsed, NoRefusals(n));
  }

  /** A refusal does reach voices: of two, the second is refused its update, and the retried slice
      advances both again. */
  lemma RefusalRepeats(o: Picture, snaps: seq<Snap>, revisions: seq<U32>, elapsed: U32) returns (p: Picture, q: Picture)
    requires Sized(o) && |o.voices| == 2 && Unreleased(o.voices[0]) && Unreleased(o.voices[1])
    requires Remembers(o, snaps, revisions) && elapsed >= 1
    ensures Sliced(o, p, snaps, 0, 1, elapsed, true) && Sliced(p, q, snaps, 0, 2, elapsed, false)
    ensures q.advances == [o.advances[0] + 2, o.advances[1] + 2]
    ensures q.voices[0].motion == Moved(Moved(o.voices[0].motion, elapsed), elapsed) == Moved(o.voices[0].motion, 2 * elapsed)
    ensures q.voices[1].motion == Moved(MovedToSend(o.voices[1].motion, elapsed), elapsed)
    ensures Served(o, q, elapsed, OneRefusal(NoRefusals(2), 0, 1)) && !Once(o, q, elapsed)
  {
    hide Moved, MovedToSend, MotionAfter;
    var x, y := o.voices[0], o.voices[1];
    var x1, y1 := x.(motion := Moved(x.motion, elapsed)), y.(motion := MovedToSend(y.motion, elapsed));
    p := o.(voices := [x1, y1], stale := [{}, {}], advances := [o.advances[0] + 1, o.advances[1] + 1]);
    q := p.(voices := [x1.(motion := Moved(x1.motion, elapsed)), y1.(motion := Moved(y1.motion, elapsed))],
            advances := [o.advances[0] + 2, o.advances[1] + 2]);
    MovedAhead(x.motion, elapsed, elapsed, elapsed);
    MovedAhead(x.motion, elapsed, elapsed, 2 * elapsed);
    MotionAfterPass(x.motion, 0, elapsed, 0);
    MotionAfterPass(x.motion, 1, elapsed, 0);
    MotionAfterPass(y.motion, 0, elapsed, 0);
    MotionAfterPass(y.motion, 1, elapsed, 1);
    assert Survives(o, q, 0);
  }

  lemma JobBounds(o: Picture, p: Picture, cursor: int, elapsed: U32, r: Refusals, snaps: seq<Snap>, revisions: seq<U32>)
    requires JobInv(o, p, cursor, elapsed, r) && Remembers(o, snaps, revisions)
    ensures 0 <= cursor <= |o.voices| && |snaps| == |o.voices| == |p.voices| && |revisions| == CHANNEL_COUNT
    ensures Sized(o) && Sized(p) && elapsed >= 1
  {
  }

  /** No dirty mark of one channel is lost. */
  ghost predicate NoneLostOn(p: Picture, c: ChannelIndex)
    requires Sized(p)
  {
    forall v | 0 <= v < |p.voices| && Unreleased(p.voices[v]) && p.voices[v].channel == c ::
      p.stale[v] <= p.channels[c].dirtyGroups
  }

  /** Sending updates only shrinks what is owed; pedals and keys are left alone. */
  lemma SliceKeeps(p: Picture, q: Picture, snaps: seq<Snap>, first: int, done: nat, elapsed: U32, refused: bool)
    requires Sliced(p, q, snaps, first, done, elapsed, refused)
    ensures Sized(q) && q.channels == p.channels && (forall c: ChannelIndex :: NoneLostOn(p, c) ==> NoneLostOn(q, c))
    ensures NoHangingNotes(p.voices, p.channels) ==> NoHangingNotes(q.voices, q.channels)
    ensures forall v | 0 <= v < |p.voices| :: q.voices[v] == p.voices[v].(motion := q.voices[v].motion)
  {
    hide Moved, MovedToSend;
    forall v | 0 <= v < |p.voices|
      ensures q.voices[v] == p.voices[v].(motion := q.voices[v].motion) && q.stale[v] <= p.stale[v]
    {
      assert SlotSliced(p, q, snaps, first, done, elapsed, refused, v);
    }
  }

  /** An event loses no mark of any channel. */
  lemma EventKeepsMarks(p: Picture, q: Picture)
    requires Evolves(p, q)
    ensures forall c: ChannelIndex :: NoneLostOn(p, c) ==> NoneLostOn(q, c)
  {
    forall c: ChannelIndex, v | NoneLostOn(p, c) && 0 <= v < |q.voices| && Unreleased(q.voices[v]) && q.voices[v].channel == c
      ensures q.stale[v] <= q.channels[c].dirtyGroups
    {
      assert VoiceEvolves(p, q, v) && ChannelEvolves(p, q, c);
    }
  }

  lemma ClearingKeepsQuiet(vs: seq<Voice>, cs: seq<Channel>, revisions: seq<U32>)
    requires |cs| == |revisions| == CHANNEL_COUNT && NoHangingNotes(vs, cs)
    ensures NoHangingNotes(vs, Cleared(cs, revisions))
  {
  }

  /** All that clearing at the end of a job does. */
  lemma JobDone(o: Picture, p: Picture, q: Picture, elapsed: U32, r: Refusals, revisions: seq<U32>, snaps: seq<Snap>)
    requires JobInv(o, p, |o.voices|, elapsed, r) && Remembers(o, snaps, revisions)
    requires q == p.(channels := Cleared(p.channels, revisions))
    ensures Sized(o) && Sized(p) && Sized(q) && Served(o, q, elapsed, r)
    ensures r == NoRefusals(|o.voices|) ==> Once(o, q, elapsed)
    ensures forall c: ChannelIndex :: Alias(o, q, c) <==> Alias(o, p, c)
    ensures forall c: ChannelIndex | Alias(o, p, c) :: Disturbed(o, p.marks, p.resets, c)
    ensures forall c: ChannelIndex | NoneLostOn(p, c) && !Alias(o, p, c) :: NoneLostOn(q, c)
    ensures NoHangingNotes(p.voices, p.channels) ==> NoHangingNotes(q.voices, q.channels)
  {
    hide JobInv, Served, Once, NoHangingNotes, Alias, Disturbed;
    JobBounds(o, p, |o.voices|, elapsed, r, snaps, revisions);
    JobServes(o, p, elapsed, r);
    SameServed(o, p, q, elapsed, r);
    ClearedAliases(o, p, q, elapsed, r, revisions);
    JobEnds(o, p, q, elapsed, r, revisions, snaps);
    if NoHangingNotes(p.voices, p.channels) {
      ClearingKeepsQuiet(p.voices, p.channels, revisions);
    }
    if r == NoRefusals(|o.voices|) {
      CleanJobOnce(o, q, elapsed, |o.voices|);
    }
  }

  // ---- The controller ---------------------------------------------------------------------

  /** Everything that can happen to the controller. A tick brings along which voice values turn out
      to have changed. */
  datatype Event =
    | PlayNote(ch: ChannelIndex, lookup: Lookup, note: int, velocity: int)
    | LiftNote(ch: ChannelIndex, note: int)
    | Controller(ch: ChannelIndex, number: nat, value: nat)
    | Bend(ch: ChannelIndex, bend: int)
    | BendRange(ch: ChannelIndex, semitones: U8, cents: U8)
    | Offset(ch: ChannelIndex, generator: nat, valueQ16: int)
    | Pressure(ch: ChannelIndex, key: nat, pressure: nat)
    | Aftertouch(ch: ChannelIndex, pressure: nat)
    | Periodic(on: bool)
    | LiftAll
    | Finished(slot: nat, generation: U16, reason: nat)
    | Tick(ready: bool, millisecond: U32, changed: int -> set<Group>)

  predicate IsReset(e: Event) { e.Controller? && e.number == 121 }

  /** The channel a reset clears. */
  function ResetBy(e: Event): set<ChannelIndex> { if IsReset(e) then {e.ch} else {} }

  /** Counters that grow by at most one. */
  ghost predicate OneMore(before: seq<nat>, after: seq<nat>)
  {
    |before| == |after| == CHANNEL_COUNT && forall c: ChannelIndex :: before[c] <= after[c] <= before[c] + 1
  }

  /** Counters that stay as they are, apart from those of `where`. */
  ghost predicate Same(before: seq<nat>, after: seq<nat>, where: set<ChannelIndex>)
  {
    |before| == |after| == CHANNEL_COUNT && forall c: ChannelIndex | c !in where :: after[c] == before[c]
  }

  /** The channel was reset since the snapshot, or marked 2^32 times. */
  ghost predicate Disturbed(o: Picture, marks: seq<nat>, resets: seq<nat>, c: ChannelIndex)
  {
    Sized(o) && |marks| == |resets| == CHANNEL_COUNT && (o.resets[c] < resets[c] || marks[c] - o.marks[c] >= TWO_32)
  }

  class SynthController {
    const runtime: Runtime
    var active: bool
    var cursor: int
    var elapsed: U32
    var target: U32
    var lastControl: U32
    var snaps: seq<Snap>
    var revisions: seq<U32>

    /** The picture at the snapshot, what refused slices of the job have done, whether every finished
        job has advanced each of its voices once, the channels whose revision lied at the end of some
        job, the channels that met a reset while a job was active, and how many events there have
        been. */
    ghost var origin: Picture
    ghost var refused: Refusals
    ghost var once: bool
    ghost var aliased: set<ChannelIndex>
    ghost var interrupted: set<ChannelIndex>
    ghost var events: nat

    ghost predicate Valid()
      reads this, runtime, runtime.voices, runtime.freeStack, runtime.activeIndices, runtime.channels
    {
      && runtime.Valid()
      && (active ==> Sized(origin) && |origin.voices| == runtime.capacity
                     && JobInv(origin, runtime.View(), cursor, elapsed, refused)
                     && Remembers(origin, snaps, revisions) && elapsed != 0
                     && elapsed == ToU32(target - lastControl))
      && (forall c: ChannelIndex | c !in aliased :: NoneLostOn(runtime.View(), c))
    }

    /** A job in progress has met a reset only on channels noted as interrupted, and every mark was
        an event. */
    ghost predicate Accounted()
      reads this, runtime
    {
      && |runtime.marks| == |runtime.resets| == CHANNEL_COUNT
      && (forall c: ChannelIndex :: runtime.marks[c] <= events)
      && (active ==> Sized(origin) && forall c: ChannelIndex | c !in interrupted :: origin.resets[c] == runtime.resets[c])
    }

    /** No slice of the job in progress has been refused. */
    ghost predicate Clean()
      reads this, runtime
    {
      active ==> runtime.capacity >= 0 && refused == NoRefusals(runtime.capacity)
    }

    constructor (runtime: Runtime, millisecond: U32)
      requires runtime.Valid() && NoLostMark(runtime.View()) && forall c: ChannelIndex :: runtime.marks[c] == 0
      ensures Valid() && Accounted() && this.runtime == runtime && !active && lastControl == millisecond
      ensures aliased == interrupted == {} && once && Clean()
    {
      this.runtime := runtime;
      active, cursor, elapsed, target, lastControl, snaps, revisions := false, 0, 0, 0, millisecond, [], [];
      origin, refused, once, aliased, interrupted, events := runtime.View(), NoRefusals(0), true, {}, {}, 0;
    }

    /** After an event has run, the job goes on. */
    ghost method Resume(before: Picture)
      requires runtime.Valid() && Evolves(before, runtime.View())
      requires active ==> Sized(origin) && |origin.voices| == runtime.capacity
                          && JobInv(origin, before, cursor, elapsed, refused)
                          && Remembers(origin, snaps, revisions) && elapsed != 0
                          && elapsed == ToU32(target - lastControl)
      requires forall c: ChannelIndex | c !in aliased :: NoneLostOn(before, c)
      ensures Valid()
    {
      hide JobInv, NoneLostOn, Remembers, Runtime.Valid, Evolves;
      if active {
        JobMeetsEvent(origin, before, runtime.View(), cursor, elapsed, refused);
      }
      EventKeepsMarks(before, runtime.View());
    }

    /** Takes the snapshot of a new job. */
    method StartJob(millisecond: U32, elapsedTicks: U32)
      requires Valid() && !active && elapsedTicks != 0 && elapsedTicks == ToU32(millisecond - lastControl)
      modifies this`active, this`cursor, this`elapsed, this`target, this`snaps, this`revisions
      modifies this`origin, this`refused
      ensures Valid() && active && Clean()
      ensures origin == runtime.View() && target == millisecond && elapsed == elapsedTicks
    {
      hide Tables, JobInv, NoneLostOn, Remembers, Runtime.Valid, AllFree, ToU32;
      ghost var p := runtime.View();
      var someSnaps, someRevisions := runtime.CaptureSnapshot();
      var first := if runtime.activeCount == 0 then runtime.capacity else 0;
      JobBegins(p, elapsedTicks, first);
      assert forall c: ChannelIndex | c !in aliased :: NoneLostOn(p, c);
      Begin(p, someSnaps, someRevisions, first, millisecond, elapsedTicks);
    }

    /** Fills in the job's record. */
    method Begin(ghost p: Picture, someSnaps: seq<Snap>, someRevisions: seq<U32>, first: int, millisecond: U32, elapsedTicks: U32)
      requires runtime.capacity >= 0
      modifies this`active, this`cursor, this`elapsed, this`target, this`snaps, this`revisions, this`origin, this`refused
      ensures active && cursor == first && elapsed == elapsedTicks && target == millisecond
      ensures snaps == someSnaps && revisions == someRevisions && origin == p
      ensures refused == NoRefusals(runtime.capacity)
    {
      snaps, revisions, cursor, target, elapsed, active := someSnaps, someRevisions, first, millisecond, elapsedTicks, true;
      origin, refused := p, NoRefusals(runtime.capacity);
    }

    /** Advances the next sixteen voices. A refused command leaves the cursor where it is. */
    method RunSlice(changed: int -> set<Group>) returns (ok: bool)
      requires Valid() && active
      modifies this`cursor, this`refused, runtime`wire, runtime`refusals, runtime`stale, runtime`advances, runtime.voices
      ensures Valid() && (old(runtime.Quiet()) ==> runtime.Quiet())
      ensures ok ==> cursor == Min(old(cursor) + VOICE_SLICE, runtime.capacity) && refused == old(refused)
      ensures !ok ==> cursor == old(cursor) && RefusedOnceMore(old(refused), refused, cursor)
      ensures runtime.refusals == old(runtime.refusals) + if ok then 0 else 1
      ensures forall v | 0 <= v < runtime.capacity ::
                runtime.voices[v] == old(runtime.voices[v]).(motion := runtime.voices[v].motion)
    {
      hide Tables, JobInv, NoneLostOn, Remembers, Sliced, SliceUpdates, NoHangingNotes, Runtime.Valid;
      ghost var before := runtime.View();
      JobBounds(origin, before, cursor, elapsed, refused, snaps, revisions);
      var count := Min(runtime.capacity - cursor, VOICE_SLICE);
      if count == 0 {
        return true;
      }
      var status;
      ghost var done;
      status, done := runtime.AdvanceSlice(snaps, cursor, count, elapsed, changed);
      ok := status == Ok;
      SliceKeeps(before, runtime.View(), snaps, cursor, done, elapsed, !ok);
      if ok {
        JobSlice(origin, before, runtime.View(), snaps, revisions, cursor, count, elapsed, refused);
        cursor := cursor + count;
      } else {
        JobSliceFailed(origin, before, runtime.View(), snaps, revisions, cursor, done, elapsed, refused);
        refused := OneRefusal(refused, cursor, cursor + done);
      }
    }

    /** Clears the marks that the finished job has served. */
    method FinishJob()
      requires Valid() && active && cursor == runtime.capacity
      modifies this`active, this`lastControl, this`aliased, this`once, runtime`tickIndex, runtime.channels
      ensures Valid() && !active && lastControl == target && |revisions| == CHANNEL_COUNT
      ensures runtime.channels[..] == Cleared(old(runtime.channels[..]), revisions)
      ensures runtime.tickIndex == ToU32(old(runtime.tickIndex) + elapsed)
      ensures Served(origin, runtime.View(), elapsed, refused) && (old(runtime.Quiet()) ==> runtime.Quiet())
      ensures once == (old(once) && Once(origin, runtime.View(), elapsed)) && (old(Clean()) && old(once) ==> once)
      ensures aliased == old(aliased) + set c: ChannelIndex | Alias(origin, runtime.View(), c)
      ensures forall c: ChannelIndex | c in aliased && c !in old(aliased) :: Disturbed(origin, runtime.marks, runtime.resets, c)
    {
      hide Tables, JobInv, NoneLostOn, Remembers, Cleared, NoHangingNotes, Runtime.Valid, Served, Once, Alias, Disturbed, ToU32;
      ghost var before := runtime.View();
      JobBounds(origin, before, cursor, elapsed, refused, snaps, revisions);
      runtime.CompleteControl(elapsed, revisions);
      JobDone(origin, before, runtime.View(), elapsed, refused, revisions, snaps);
      active, lastControl := false, target;
      aliased := aliased + set c: ChannelIndex | Alias(origin, before, c);
      once := once && Once(origin, runtime.View(), elapsed);
    }

    /** Without a session there is nothing to advance. */
    method DropJob(millisecond: U32)
      modifies this`active, this`lastControl
      ensures !active && lastControl == millisecond
    {
      active, lastControl := false, millisecond;
    }

    /** One call of the control service. */
    method Service(ready: bool, millisecond: U32, changed: int -> set<Group>) returns (status: Status, ghost finished: bool)
      requires Valid()
      modifies this`active, this`cursor, this`elapsed, this`target, this`lastControl, this`snaps, this`revisions
      modifies this`origin, this`refused, this`once, this`aliased
      modifies runtime`wire, runtime`refusals, runtime`stale, runtime`advances, runtime`tickIndex, runtime.voices, runtime.channels
      ensures Valid() && status in {Ok, SinkError} && (old(runtime.Quiet()) ==> runtime.Quiet())
      ensures !ready ==> !active && runtime.View() == old(runtime.View()) && lastControl == millisecond
      ensures finished ==>
                && status == Ok && !active && lastControl == target && |revisions| == CHANNEL_COUNT
                && runtime.channels[..] == Cleared(old(runtime.channels[..]), revisions)
                && runtime.tickIndex == ToU32(old(runtime.tickIndex) + elapsed)
                && Served(origin, runtime.View(), elapsed, refused)
                && once == (old(once) && Once(origin, runtime.View(), elapsed))
                && elapsed == ToU32(lastControl - old(lastControl))
                && aliased == old(aliased) + set c: ChannelIndex | Alias(origin, runtime.View(), c)
      ensures forall c: ChannelIndex | c in aliased && c !in old(aliased) :: Disturbed(origin, runtime.marks, runtime.resets, c)
      ensures runtime.refusals == old(runtime.refusals) + if status == SinkError then 1 else 0
      ensures ready && !old(active) ==>
                if ToU32(millisecond - old(lastControl)) < UPDATE_PERIOD_MS then
                  !active && !finished && status == Ok && lastControl == old(lastControl) && runtime.View() == old(runtime.View())
                else (active || finished) && target == millisecond
      ensures !finished ==> runtime.channels[..] == old(runtime.channels[..]) && aliased == old(aliased) && once == old(once)
      ensures (old(Clean()) && old(once) ==> once) && (old(Clean()) && status == Ok ==> Clean())
      ensures active || finished ==>
                var before := if old(active) then old(refused) else NoRefusals(runtime.capacity);
                if status == Ok then refused == before else RefusedOnceMore(before, refused, cursor)
      ensures active || finished ==>
                if old(active) then origin == old(origin) else origin == old(runtime.View())
      ensures old(active) && ready ==> origin == old(origin) && (status == SinkError || finished || cursor == old(cursor) + VOICE_SLICE)
    {
      hide Tables, JobInv, NoneLostOn, Remembers, Cleared, Served, Once, RefusedOnceMore, NoRefusals, NoHangingNotes, Runtime.Valid;
      finished := false;
      if !ready {
        DropJob(millisecond);
        return Ok, false;
      }
      if !active {
        var elapsedTicks := ToU32(millisecond - lastControl);
        if elapsedTicks < UPDATE_PERIOD_MS {
          return Ok, false;
        }
        StartJob(millisecond, elapsedTicks);
      }
      var ok := RunSlice(changed);
      if !ok {
        return SinkError, false;
      }
      if cursor == runtime.capacity {
        FinishJob();
        finished := true;
      }
      status := Ok;
    }

    /** A completion record frees its voice only if the slot is still in the generation it names. */
    method ConsumeCompletion(slot: nat, generation: U16, reason: nat) returns (ok: bool)
      requires Valid()
      modifies runtime`freeCount, runtime`activeCount, runtime`activeVoicesStat, runtime`freePos
      modifies runtime.voices, runtime.freeStack, runtime.activeIndices
      ensures Valid() && (old(runtime.Quiet()) ==> runtime.Quiet())
      ensures ok <==> reason < 3 && slot < runtime.capacity
      ensures var freed := ok && old(runtime.voices[slot]).stage != Free && old(runtime.voices[slot]).generation == generation;
              && (freed ==> runtime.voices[slot].stage == Free && KeepsElsewhere(old(runtime.voices[..]), runtime.voices[..], slot))
              && (!freed ==> runtime.View() == old(runtime.View()))
    {
      hide Tables, JobInv, NoneLostOn, Remembers, Evolves, KeepsElsewhere, NoHangingNotes;
      if reason >= 3 || slot >= runtime.capacity {
        return false;
      }
      ok := true;
      if runtime.voices[slot].stage == Free || runtime.voices[slot].generation != generation {
        return;
      }
      ghost var before := runtime.View();
      var status := runtime.CompleteVoice(slot);
      Resume(before);
    }

    /** Keys between two slices. */
    method Play(e: Event) returns (ok: bool)
      requires Valid() && (e.PlayNote? || e.LiftNote? || e.LiftAll?)
      modifies runtime, runtime.voices, runtime.freeStack, runtime.activeIndices
      ensures Valid() && runtime.marks == old(runtime.marks) && runtime.resets == old(runtime.resets)
      ensures runtime.refusals == old(runtime.refusals) + if ok then 0 else 1
      ensures runtime.refusals == old(runtime.refusals) && old(runtime.Quiet()) ==> runtime.Quiet()
    {
      hide Tables, JobInv, NoneLostOn, Remembers, Evolves, KeepsElsewhere, NoHangingNotes, StaleAfterMark, Layered, Stealing.SlotsTold, LiftsOldest, LeavesStuck;
      ghost var before := runtime.View();
      match e {
        case PlayNote(ch, lookup, note, velocity) =>
          var status, _, _ := runtime.NoteOn(ch, lookup, note, velocity);
          ok := status != SinkError;
        case LiftNote(ch, note) =>
          var status := runtime.NoteOff(ch, note);
          ok := status != SinkError;
        case LiftAll =>
          var status := runtime.ReleaseAll();
          ok := status != SinkError;
      }
      Resume(before);
    }

    /** A controller message between two slices. */
    method Control(ch: ChannelIndex, number: nat, value: nat) returns (ok: bool)
      requires Valid()
      modifies runtime`wire, runtime`refusals, runtime`stale, runtime`marks, runtime`resets, runtime.voices, runtime.channels
      ensures Valid() && runtime.refusals == old(runtime.refusals) + if ok then 0 else 1
      ensures OneMore(old(runtime.marks), runtime.marks)
      ensures Same(old(runtime.resets), runtime.resets, if number == 121 then {ch} else {})
      ensures runtime.refusals == old(runtime.refusals) && old(runtime.Quiet()) ==> runtime.Quiet()
    {
      hide Tables, JobInv, NoneLostOn, Remembers, Evolves, NoHangingNotes, ControlVoices, AfterControl;
      ghost var before := runtime.View();
      var status := runtime.ControlChange(ch, number, value);
      ok := status != SinkError;
      Resume(before);
    }

    /** A switch of the periodic updates between two slices. */
    method Switch(on: bool)
      requires Valid()
      modifies runtime`stale, runtime`marks, runtime`periodicEnabled, runtime.channels
      ensures Valid() && OneMore(old(runtime.marks), runtime.marks) && (old(runtime.Quiet()) ==> runtime.Quiet())
    {
      hide Tables, JobInv, NoneLostOn, Remembers, Evolves, NoHangingNotes;
      ghost var before := runtime.View();
      runtime.SetPeriodicEnabled(on);
      Resume(before);
    }

    /** Bends, pressures, bend ranges and generator offsets between two slices. */
    method Adjust(e: Event)
      requires Valid() && (e.Bend? || e.BendRange? || e.Offset? || e.Pressure? || e.Aftertouch?)
      modifies runtime`stale, runtime`marks, runtime.channels
      ensures Valid() && OneMore(old(runtime.marks), runtime.marks) && (old(runtime.Quiet()) ==> runtime.Quiet())
    {
      hide Tables, JobInv, NoneLostOn, Remembers, Evolves, NoHangingNotes, StaleAfterMark, Marked;
      ghost var before := runtime.View();
      match e {
        case Bend(ch, bend) =>
          runtime.PitchBend(ch, bend);
        case BendRange(ch, semitones, cents) =>
          var _ := runtime.SetPitchBendRange(ch, semitones, cents);
        case Offset(ch, generator, valueQ16) =>
          var _ := runtime.SetGeneratorOffset(ch, generator, valueQ16);
        case Pressure(ch, key, pressure) =>
          var _ := runtime.KeyPressure(ch, key, pressure);
        case Aftertouch(ch, pressure) =>
          var _ := runtime.ChannelPressure(ch, pressure);
      }
      Resume(before);
    }

    /** Anything but a tick. */
    method Happen(e: Event) returns (ok: bool)
      requires Valid() && !e.Tick?
      modifies runtime, runtime.voices, runtime.freeStack, runtime.activeIndices, runtime.channels
      ensures Valid() && runtime.refusals == old(runtime.refusals) + if ok then 0 else 1
      ensures OneMore(old(runtime.marks), runtime.marks) && Same(old(runtime.resets), runtime.resets, ResetBy(e))
      ensures runtime.refusals == old(runtime.refusals) && old(runtime.Quiet()) ==> runtime.Quiet()
    {
      hide Tables, JobInv, NoneLostOn, Remembers, KeepsElsewhere, NoHangingNotes;
      ok := true;
      if e.Finished? {
        var _ := ConsumeCompletion(e.slot, e.generation, e.reason);
      } else if e.PlayNote? || e.LiftNote? || e.LiftAll? {
        ok := Play(e);
      } else if e.Controller? {
        ok := Control(e.ch, e.number, e.value);
      } else if e.Periodic? {
        Switch(e.on);
      } else {
        Adjust(e);
      }
    }

    /** One event of any kind. A reset that meets a job in progress is noted. */
    method Step(e: Event) returns (ok: bool)
      requires Valid() && Accounted()
      modifies this, runtime, runtime.voices, runtime.freeStack, runtime.activeIndices, runtime.channels
      ensures Valid() && Accounted() && events == old(events) + 1
      ensures interrupted == old(interrupted) + if old(active) then ResetBy(e) else {}
      ensures old(aliased) <= aliased
      ensures events < TWO_32 ==> aliased - old(aliased) <= interrupted
      ensures runtime.refusals == old(runtime.refusals) + if ok then 0 else 1
      ensures runtime.refusals == old(runtime.refusals) && old(runtime.Quiet()) ==> runtime.Quiet()
      ensures (old(Clean()) && old(once) ==> once) && (old(Clean()) && ok ==> Clean())
    {
      hide Runtime.Valid, JobInv, NoneLostOn, Remembers, Served, Once, Cleared, NoHangingNotes;
      ghost var running := active;
      if e.Tick? {
        var status, _ := Service(e.ready, e.millisecond, e.changed);
        ok := status == Ok;
      } else {
        ok := Happen(e);
      }
      interrupted := interrupted + if running then ResetBy(e) else {};
      events := events + 1;
    }

    /** Whatever happens, in whatever order, the tables stay in order. Over fewer than 2^32 events, no
        job forgets a mark of a channel that met no reset while a job was active; and as long as the
        sink takes every command, no note is left hanging and every job advances each of its voices
        once. */
    method Run(run: seq<Event>)
      requires Valid() && Accounted()
      modifies this, runtime, runtime.voices, runtime.freeStack, runtime.activeIndices, runtime.channels
      ensures Valid() && Accounted() && events == old(events) + |run|
      ensures events < TWO_32 && old(aliased) <= old(interrupted) ==>
                aliased <= interrupted && forall c: ChannelIndex | c !in interrupted :: NoneLostOn(runtime.View(), c)
      ensures runtime.refusals == old(runtime.refusals) && old(runtime.Quiet()) ==> runtime.Quiet()
      ensures runtime.refusals == old(runtime.refusals) && old(Clean()) && old(once) ==> once
    {
      hide Tables, JobInv, NoneLostOn, Remembers, NoHangingNotes;
      for i := 0 to |run|
        invariant Valid() && Accounted() && events == old(events) + i
        invariant events < TWO_32 && old(aliased) <= old(interrupted) ==> aliased <= interrupted
        invariant runtime.refusals >= old(runtime.refusals)
        invariant runtime.refusals == old(runtime.refusals) && old(runtime.Quiet()) ==> runtime.Quiet()
        invariant runtime.refusals == old(runtime.refusals) && old(Clean()) && old(once) ==> Clean() && once
      {
        var _ := Step(run[i]);
      }
    }

    /** The control loop: the first refused command latches a fault, and nothing runs any more. So
        every job it ever finishes has advanced each of its voices once. */
    method ControlLoop(run: seq<Event>) returns (fault: bool)
      requires Valid() && Accounted() && Clean()
      modifies this, runtime, runtime.voices, runtime.freeStack, runtime.activeIndices, runtime.channels
      ensures Valid() && Accounted() && (old(once) ==> once)
      ensures runtime.refusals == old(runtime.refusals) + if fault then 1 else 0
      ensures !fault ==> events == old(events) + |run| && (old(runtime.Quiet()) ==> runtime.Quiet())
    {
      hide Tables, JobInv, NoneLostOn, Remembers, NoHangingNotes;
      fault := false;
      for i := 0 to |run|
        invariant Valid() && Accounted() && (old(once) ==> once) && (!fault ==> Clean())
        invariant runtime.refusals == old(runtime.refusals) + if fault then 1 else 0
        invariant !fault ==> events == old(events) + i && (old(runtime.Quiet()) ==> runtime.Quiet())
      {
        if !fault {
          var ok := Step(run[i]);
          fault := !ok;
        }
      }
    }
  }
}
