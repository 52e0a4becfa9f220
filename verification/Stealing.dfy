/**
 How many layers of one note find slots of their own. When no slot is free, a layer steals the
 oldest released voice, or else the oldest voice in the stage of the first listed one; the stolen
 place in the list goes to the voice listed last, which may be a layer of the same note.
 */
module Stealing {
  import opened CInt
  import opened Lifecycle
  import opened Wrappers

  /** One layer starts in slot `v`: the top of the free stack, or the slot of the victim, whose
      place the last listed voice takes. The new voice is listed last. */
  ghost predicate Starts(vs: seq<Voice>, l: Ledger, vs': seq<Voice>, l': Ledger, v: int)
  {
    && Tables(vs, l, {}) && Tables(vs', l', {})
    && 0 <= v < |vs| && KeepsElsewhere(vs, vs', v) && vs'[v].stage == Active
    && l'.births == l.births + 1 && |l.bornAt| == |vs| && l'.bornAt == l.bornAt[v := l.births + 1]
    && if |l.free| > 0 then
         && v == l.free[|l.free| - 1] && l'.free == l.free[..|l.free| - 1] && l'.active == l.active + [v]
       else
         && (forall i | 0 <= i < |l.active| :: 0 <= l.active[i] < |vs|)
         && IsVictim(vs, l.active, v) && 0 <= vs[v].activePosition < |l.active|
         && l'.free == [] && l'.active == Without(l.active, vs[v].activePosition) + [v]
  }

  /** A list after the entry at `position` has given its place to the last one. */
  function Without(list: seq<int>, position: int): seq<int>
    requires 0 <= position < |list|
  {
    list[position := list[|list| - 1]][..|list| - 1]
  }

  /** Voices in a stage, leaving out the layers of the note itself. */
  ghost function InStage(vs: seq<Voice>, own: set<int>, stage: Stage): set<int>
  {
    set u | 0 <= u < |vs| && u !in own && vs[u].stage == stage
  }

  /** The pedal-held voices that are stolen while a pedal-held voice heads the list: those no
      younger than it. */
  ghost function HeldUpToHead(vs: seq<Voice>, l: Ledger, own: set<int>): set<int>
    requires |l.bornAt| == |vs| && forall i | 0 <= i < |l.active| :: 0 <= l.active[i] < |vs|
  {
    if l.active == [] || l.active[0] in own || vs[l.active[0]].stage != SustainHeld then {}
    else set u | u in InStage(vs, own, SustainHeld) && l.bornAt[u] <= l.bornAt[l.active[0]]
  }

  /** How many more layers find a slot that is not the note's own. */
  ghost function Room(vs: seq<Voice>, l: Ledger, own: set<int>): nat
    requires |l.bornAt| == |vs| && forall i | 0 <= i < |l.active| :: 0 <= l.active[i] < |vs|
  {
    |l.free| + |InStage(vs, own, Released)| + |InStage(vs, own, Active)| + |HeldUpToHead(vs, l, own)|
  }

  /** The note's layers so far: sounding, younger than everyone else, and one of them listed last. */
  ghost predicate Own(vs: seq<Voice>, l: Ledger, own: set<int>)
  {
    && |l.bornAt| == |vs| && l.active != [] && l.active[|l.active| - 1] in own
    && forall f | f in own :: 0 <= f < |vs| && vs[f].stage == Active
         && forall u | 0 <= u < |vs| && u !in own && vs[u].stage != Free :: l.bornAt[u] < l.bornAt[f]
  }

  lemma Places(vs: seq<Voice>, l: Ledger)
    requires Tables(vs, l, {})
    ensures |l.bornAt| == |vs|
    ensures forall i | 0 <= i < |l.active| :: 0 <= l.active[i] < |vs| && vs[l.active[i]].stage != Free && vs[l.active[i]].activePosition == i
    ensures forall u | 0 <= u < |vs| && vs[u].stage != Free :: u in l.active && 0 <= vs[u].activePosition < |l.active| && l.active[vs[u].activePosition] == u
    ensures l.births < TWO_32 ==> forall u | 0 <= u < |vs| && vs[u].stage != Free :: vs[u].allocationStamp == l.bornAt[u]
    ensures forall u, v | 0 <= u < |vs| && 0 <= v < |vs| && vs[u].stage != Free && vs[v].stage != Free && u != v ::
              l.bornAt[u] != l.bornAt[v]
    ensures forall i | 0 <= i < |l.free| :: 0 <= l.free[i] < |vs| && vs[l.free[i]].stage == Free
    ensures |vs| > 0 && l.free == [] ==> l.active != []
  {
    hide Instances, Owners, WellTagged;
  }

  /** Whose slot the next layer takes. */
  lemma NextSlot(vs: seq<Voice>, l: Ledger, vs': seq<Voice>, l': Ledger, v: int, own: set<int>)
    requires Starts(vs, l, vs', l', v) && Own(vs, l, own) && l'.births < TWO_32
    ensures forall i | 0 <= i < |l.active| :: 0 <= l.active[i] < |vs|
    ensures v !in own <==> Room(vs, l, own) > 0
  {
    hide Tables;
    Places(vs, l);
    hide IsVictim;
    var r, a, h := InStage(vs, own, Released), InStage(vs, own, Active), HeldUpToHead(vs, l, own);
    if |l.free| == 0 {
      VictimFacts(vs, l, v);
      var head := l.active[0];
      assert head in own ==> vs[head].stage == Active;
      if x :| x in r {
        assert vs[v].stage == Released by { ReleasedFirst(vs, l, v, x); }
      } else {
        assert vs[head].stage == Released ==> head in r;
        if vs[head].stage == SustainHeld {
          assert head in h;
        } else {
          assert h == {};
          if x :| x in a {
            assert v !in own;
          } else {
            assert v !in own ==> v in r || v in a;
          }
        }
      }
    } else {
      assert vs[v].stage == Free;
    }
  }

  lemma ReleasedFirst(vs: seq<Voice>, l: Ledger, v: int, x: int)
    requires Tables(vs, l, {}) && 0 <= x < |vs| && vs[x].stage == Released
    requires forall i | 0 <= i < |l.active| :: 0 <= l.active[i] < |vs|
    requires IsVictim(vs, l.active, v)
    ensures 0 <= v < |vs| && vs[v].stage == Released
  {
    hide Tables;
    Places(vs, l);
    assert x in l.active;
  }

  /** A slot of someone else's leaves room for one layer less. */
  lemma RoomShrinks(vs: seq<Voice>, l: Ledger, vs': seq<Voice>, l': Ledger, v: int, own: set<int>)
    requires Starts(vs, l, vs', l', v) && Own(vs, l, own) && l'.births < TWO_32 && v !in own
    ensures Own(vs', l', own + {v})
    ensures forall i | 0 <= i < |l.active| :: 0 <= l.active[i] < |vs|
    ensures forall i | 0 <= i < |l'.active| :: 0 <= l'.active[i] < |vs'|
    ensures Room(vs', l', own + {v}) == Room(vs, l, own) - 1
  {
    hide Tables, IsVictim, Own, HeldUpToHead, InStage;
    Places(vs, l);
    Places(vs', l');
    OwnGrows(vs, l, vs', l', v, own);
    StagesShrink(vs, vs', v, own);
    HeldShrinks(vs, l, vs', l', v, own);
    TakenFrom(vs, l, vs', l', v, own);
  }

  /** The slot counts in exactly one part of the room. */
  lemma TakenFrom(vs: seq<Voice>, l: Ledger, vs': seq<Voice>, l': Ledger, v: int, own: set<int>)
    requires Starts(vs, l, vs', l', v) && Own(vs, l, own) && l'.births < TWO_32 && v !in own
    ensures forall i | 0 <= i < |l.active| :: 0 <= l.active[i] < |vs|
    ensures var one := (b: bool) => if b then 1 else 0;
            one(|l.free| > 0) + one(v in InStage(vs, own, Released)) + one(v in InStage(vs, own, Active))
            + one(v in HeldUpToHead(vs, l, own)) == 1
  {
    hide Tables, IsVictim;
    Places(vs, l);
    Places(vs', l');
    HeldShrinks(vs, l, vs', l', v, own);
    if |l.free| == 0 {
      VictimFacts(vs, l, v);
    } else {
      assert vs[v].stage == Free;
    }
  }

  lemma OwnGrows(vs: seq<Voice>, l: Ledger, vs': seq<Voice>, l': Ledger, v: int, own: set<int>)
    requires Starts(vs, l, vs', l', v) && Own(vs, l, own) && l'.births < TWO_32 && v !in own
    ensures Own(vs', l', own + {v})
  {
    hide Tables;
    Places(vs, l);
    OldBirths(vs, l);
    forall f | f in own + {v}
      ensures 0 <= f < |vs'| && vs'[f].stage == Active
      ensures forall u | 0 <= u < |vs'| && u !in own + {v} && vs'[u].stage != Free :: l'.bornAt[u] < l'.bornAt[f]
    {
      assert f != v ==> KeepsVoiceElsewhere(vs[f], vs'[f]);
      forall u | 0 <= u < |vs'| && u !in own + {v} && vs'[u].stage != Free
        ensures l'.bornAt[u] < l'.bornAt[f]
      {
        assert KeepsVoiceElsewhere(vs[u], vs'[u]);
      }
    }
  }

  lemma OldBirths(vs: seq<Voice>, l: Ledger)
    requires Tables(vs, l, {})
    ensures |l.bornAt| == |vs| && forall u | 0 <= u < |vs| && vs[u].stage != Free :: l.bornAt[u] <= l.births
  {
    hide Instances, Owners, WellTagged, Partition;
  }

  lemma StagesShrink(vs: seq<Voice>, vs': seq<Voice>, v: int, own: set<int>)
    requires 0 <= v < |vs| && KeepsElsewhere(vs, vs', v)
    ensures forall stage :: InStage(vs', own + {v}, stage) == InStage(vs, own, stage) - {v}
  {
    forall stage
      ensures InStage(vs', own + {v}, stage) == InStage(vs, own, stage) - {v}
    {
      forall u | 0 <= u < |vs| && u != v
        ensures vs'[u].stage == vs[u].stage
      {
        assert KeepsVoiceElsewhere(vs[u], vs'[u]);
      }
    }
  }

  lemma HeldShrinks(vs: seq<Voice>, l: Ledger, vs': seq<Voice>, l': Ledger, v: int, own: set<int>)
    requires Starts(vs, l, vs', l', v) && Own(vs, l, own) && l'.births < TWO_32 && v !in own
    requires forall i | 0 <= i < |l.active| :: 0 <= l.active[i] < |vs|
    requires forall i | 0 <= i < |l'.active| :: 0 <= l'.active[i] < |vs'|
    requires |l'.bornAt| == |vs'|
    ensures HeldUpToHead(vs', l', own + {v}) == HeldUpToHead(vs, l, own) - {v}
    ensures |l.free| == 0 && vs[v].stage == SustainHeld ==> v in HeldUpToHead(vs, l, own)
  {
    hide Tables, IsVictim;
    Places(vs, l);
    StagesShrink(vs, vs', v, own);
    var head := l.active[0];
    if |l.free| > 0 {
      assert l'.active[0] == head && head != v;
      assert KeepsVoiceElsewhere(vs[head], vs'[head]);
    } else {
      VictimFacts(vs, l, v);
      if head == v {
        assert vs[v].activePosition == 0;
        assert l'.active[0] in own + {v};
        assert HeldUpToHead(vs, l, own) <= {v};
      } else {
        assert vs[v].activePosition != 0;
        assert l'.active[0] == head && KeepsVoiceElsewhere(vs[head], vs'[head]);
      }
    }
  }

  lemma VictimFacts(vs: seq<Voice>, l: Ledger, v: int)
    requires Tables(vs, l, {}) && l.births < TWO_32
    requires forall i | 0 <= i < |l.active| :: 0 <= l.active[i] < |vs|
    requires IsVictim(vs, l.active, v)
    ensures 0 <= v < |vs| && vs[v].stage != Free && |l.bornAt| == |vs|
    ensures forall u | 0 <= u < |vs| && vs[u].stage == vs[v].stage :: l.bornAt[v] <= l.bornAt[u]
    ensures vs[v].stage != Released ==> l.active != [] && vs[l.active[0]].stage == vs[v].stage
  {
    hide Tables;
    Places(vs, l);
    forall u | 0 <= u < |vs| && vs[u].stage == vs[v].stage
      ensures l.bornAt[v] <= l.bornAt[u]
    {
      assert u in l.active;
    }
  }

  // ---- The first layer --------------------------------------------------------------------

  /** How many layers after the first find slots of their own, told from the state before the note:
      the free, released and key-down voices the first layer leaves, and, when a pedal-held voice
      heads the list then, the pedal-held voices no younger than it. */
  ghost function Spare(vs: seq<Voice>, l: Ledger, first: int): nat
    requires |l.bornAt| == |vs| && forall i | 0 <= i < |l.active| :: 0 <= l.active[i] < |vs|
  {
    var head := HeadAfter(l, first);
    |l.free| - (if |l.free| > 0 then 1 else 0)
    + |InStage(vs, {first}, Released)| + |InStage(vs, {first}, Active)|
    + if head == [] || vs[head[0]].stage != SustainHeld then 0
      else |set u | u in InStage(vs, {first}, SustainHeld) && l.bornAt[u] <= l.bornAt[head[0]]|
  }

  /** The voice that heads the list once the first layer has started, unless it is that layer. */
  ghost function HeadAfter(l: Ledger, first: int): (head: seq<int>)
    ensures |head| <= 1 && forall u <- head :: u in l.active
  {
    if l.active == [] then []
    else if |l.free| > 0 || l.active[0] != first then [l.active[0]]
    else if |l.active| == 1 then []
    else [l.active[|l.active| - 1]]
  }

  lemma FirstLayer(vs: seq<Voice>, l: Ledger, vs': seq<Voice>, l': Ledger, v: int)
    requires Starts(vs, l, vs', l', v) && l'.births < TWO_32
    ensures |l.bornAt| == |vs| && forall i | 0 <= i < |l.active| :: 0 <= l.active[i] < |vs|
    ensures forall i | 0 <= i < |l'.active| :: 0 <= l'.active[i] < |vs'|
    ensures Own(vs', l', {v}) && Room(vs', l', {v}) == Spare(vs, l, v)
  {
    hide Tables, IsVictim, InStage, HeldUpToHead, HeadAfter;
    Places(vs, l);
    Places(vs', l');
    FirstOwn(vs, l, vs', l', v);
    StagesAfterFirst(vs, vs', v);
    HeldAfterFirst(vs, l, vs', l', v);
  }

  lemma FirstOwn(vs: seq<Voice>, l: Ledger, vs': seq<Voice>, l': Ledger, v: int)
    requires Starts(vs, l, vs', l', v)
    ensures Own(vs', l', {v})
  {
    hide Tables, IsVictim;
    Places(vs', l');
    OldBirths(vs, l);
    FirstHead(vs, l, vs', l', v);
    forall u | 0 <= u < |vs'| && u != v && vs'[u].stage != Free
      ensures l'.bornAt[u] < l'.bornAt[v]
    {
      assert KeepsVoiceElsewhere(vs[u], vs'[u]);
    }
  }

  lemma StagesAfterFirst(vs: seq<Voice>, vs': seq<Voice>, v: int)
    requires 0 <= v < |vs| && KeepsElsewhere(vs, vs', v)
    ensures forall stage :: InStage(vs', {v}, stage) == InStage(vs, {v}, stage)
  {
    forall stage
      ensures InStage(vs', {v}, stage) == InStage(vs, {v}, stage)
    {
      forall u | 0 <= u < |vs| && u != v
        ensures vs'[u].stage == vs[u].stage
      {
        assert KeepsVoiceElsewhere(vs[u], vs'[u]);
      }
    }
  }

  lemma HeldAfterFirst(vs: seq<Voice>, l: Ledger, vs': seq<Voice>, l': Ledger, v: int)
    requires Starts(vs, l, vs', l', v)
    ensures |l.bornAt| == |vs| && |l'.bornAt| == |vs'|
    ensures forall i | 0 <= i < |l.active| :: 0 <= l.active[i] < |vs|
    ensures forall i | 0 <= i < |l'.active| :: 0 <= l'.active[i] < |vs'|
    ensures var head := HeadAfter(l, v);
            HeldUpToHead(vs', l', {v}) ==
            if head == [] || vs[head[0]].stage != SustainHeld then {}
            else set u | u in InStage(vs, {v}, SustainHeld) && l.bornAt[u] <= l.bornAt[head[0]]
  {
    hide Tables, IsVictim;
    Places(vs, l);
    Places(vs', l');
    FirstHead(vs, l, vs', l', v);
    StagesAfterFirst(vs, vs', v);
    var head := HeadAfter(l, v);
    if head != [] {
      assert KeepsVoiceElsewhere(vs[head[0]], vs'[head[0]]);
    }
  }

  lemma FirstHead(vs: seq<Voice>, l: Ledger, vs': seq<Voice>, l': Ledger, v: int)
    requires Starts(vs, l, vs', l', v)
    ensures l'.active != [] && l'.active[|l'.active| - 1] == v
    ensures if HeadAfter(l, v) == [] then l'.active[0] == v else l'.active[0] == HeadAfter(l, v)[0] != v
  {
    hide Tables, IsVictim;
    Places(vs, l);
    if |l.free| > 0 {
      assert v !in l.active;
    } else {
      assert l.active[vs[v].activePosition] == v by { VictimListed(vs, l.active, v); }
    }
  }

  // ---- A whole note -----------------------------------------------------------------------

  ghost predicate NoRepeats(slots: seq<int>)
  {
    forall i, j | 0 <= i < j < |slots| :: slots[i] != slots[j]
  }

  /** Where a note stands after `k` layers of which the first left room for `spare` more: while the
      room lasts, every slot is new; after that some slot has been used twice. */
  ghost predicate Standing(vs: seq<Voice>, l: Ledger, slots: seq<int>, spare: nat)
  {
    && Tables(vs, l, {}) && |slots| >= 1
    && if |slots| - 1 <= spare then
         && NoRepeats(slots) && Own(vs, l, set v | v in slots)
         && (forall i | 0 <= i < |l.active| :: 0 <= l.active[i] < |vs|)
         && Room(vs, l, set v | v in slots) == spare - (|slots| - 1)
       else !NoRepeats(slots)
  }

  lemma StandingFirst(vs: seq<Voice>, l: Ledger, vs': seq<Voice>, l': Ledger, v: int)
    requires Starts(vs, l, vs', l', v) && l'.births < TWO_32
    ensures |l.bornAt| == |vs| && forall i | 0 <= i < |l.active| :: 0 <= l.active[i] < |vs|
    ensures Standing(vs', l', [v], Spare(vs, l, v))
  {
    hide Tables, Own, Room, Spare;
    FirstLayer(vs, l, vs', l', v);
    assert (set u | u in [v]) == {v};
  }

  lemma StandingNext(vs: seq<Voice>, l: Ledger, vs': seq<Voice>, l': Ledger, v: int, slots: seq<int>, spare: nat)
    requires Starts(vs, l, vs', l', v) && l'.births < TWO_32 && Standing(vs, l, slots, spare)
    ensures Standing(vs', l', slots + [v], spare)
  {
    hide Tables, Own, Room;
    var next, own := slots + [v], set u | u in slots;
    assert forall i | 0 <= i < |slots| :: next[i] == slots[i];
    if |slots| - 1 <= spare {
      NextSlot(vs, l, vs', l', v, own);
      if v !in own {
        RoomShrinks(vs, l, vs', l', v, own);
        assert (set u | u in next) == own + {v};
      } else {
        var i :| 0 <= i < |slots| && slots[i] == v;
        assert next[i] == next[|slots|];
      }
    } else {
      var i, j :| 0 <= i < j < |slots| && slots[i] == slots[j];
      assert next[i] == next[j];
    }
  }

  lemma StandingMeans(vs: seq<Voice>, l: Ledger, slots: seq<int>, spare: nat)
    requires Standing(vs, l, slots, spare)
    ensures NoRepeats(slots) <==> |slots| <= 1 + spare
  {
  }

  /** Where the first layer goes: the top of the free stack, else some listed voice. */
  ghost predicate FirstSlot(l: Ledger, first: int)
  {
    if |l.free| > 0 then first == l.free[|l.free| - 1] else first in l.active
  }

  lemma FirstIs(vs: seq<Voice>, l: Ledger, vs': seq<Voice>, l': Ledger, v: int)
    requires Starts(vs, l, vs', l', v)
    ensures FirstSlot(l, v)
  {
  }

  /** A note between two layers, told from the state before the first. */
  ghost predicate Progress(vs0: seq<Voice>, l0: Ledger, vs: seq<Voice>, l: Ledger, slots: seq<int>)
  {
    && l.births == l0.births + |slots|
    && if slots == [] then vs == vs0 && l == l0
       else
         && FirstSlot(l0, slots[0])
         && (l.births < TWO_32 ==>
               && |l0.bornAt| == |vs0| && (forall i | 0 <= i < |l0.active| :: 0 <= l0.active[i] < |vs0|)
               && Standing(vs, l, slots, Spare(vs0, l0, slots[0])))
  }

  lemma NoProgress(vs: seq<Voice>, l: Ledger)
    ensures Progress(vs, l, vs, l, [])
  {
  }

  lemma ProgressStep(vs0: seq<Voice>, l0: Ledger, vs: seq<Voice>, l: Ledger, slots: seq<int>,
                     vs': seq<Voice>, l': Ledger, v: int)
    requires Progress(vs0, l0, vs, l, slots) && Starts(vs, l, vs', l', v)
    ensures Progress(vs0, l0, vs', l', slots + [v])
  {
    hide Tables, Standing, Spare, FirstSlot, KeepsElsewhere, IsVictim, Without;
    if slots == [] {
      FirstIs(vs, l, vs', l', v);
      assert [] + [v] == [v];
      if l'.births < TWO_32 {
        StandingFirst(vs, l, vs', l', v);
      }
    } else {
      assert (slots + [v])[0] == slots[0];
      if l'.births < TWO_32 {
        StandingNext(vs, l, vs', l', v, slots, Spare(vs0, l0, slots[0]));
      }
    }
  }

  /** What the state before a note tells about its slots: the layers keep slots of their own exactly
      when the first leaves room for the rest. */
  ghost predicate SlotsTold(vs: seq<Voice>, l: Ledger, slots: seq<int>)
  {
    && |l.bornAt| == |vs| && (forall i | 0 <= i < |l.active| :: 0 <= l.active[i] < |vs|)
    && slots != [] && FirstSlot(l, slots[0])
    && (NoRepeats(slots) <==> |slots| <= 1 + Spare(vs, l, slots[0]))
  }

  lemma SlotsToldAlike(vs: seq<Voice>, l: Ledger, l': Ledger, slots: seq<int>)
    requires SlotsTold(vs, l, slots) && l'.free == l.free && l'.active == l.active && l'.bornAt == l.bornAt
    ensures SlotsTold(vs, l', slots)
  {
    assert HeadAfter(l, slots[0]) == HeadAfter(l', slots[0]);
  }

  lemma DistinctExactly(vs0: seq<Voice>, l0: Ledger, vs: seq<Voice>, l: Ledger, slots: seq<int>)
    requires Progress(vs0, l0, vs, l, slots) && slots != [] && l0.births + |slots| < TWO_32
    ensures SlotsTold(vs0, l0, slots)
  {
    hide Spare;
    StandingMeans(vs, l, slots, Spare(vs0, l0, slots[0]));
  }

  /** With at least as many voices free, released or key-down as there are layers, every layer
      keeps its slot. */
  lemma EnoughVoices(vs: seq<Voice>, l: Ledger, first: int, layers: nat)
    requires Tables(vs, l, {})
    requires layers <= |l.free| + |InStage(vs, {}, Released)| + |InStage(vs, {}, Active)|
    requires |l.free| > 0 ==> first == l.free[|l.free| - 1]
    ensures |l.bornAt| == |vs| && forall i | 0 <= i < |l.active| :: 0 <= l.active[i] < |vs|
    ensures layers <= 1 + Spare(vs, l, first)
  {
    hide Tables;
    Places(vs, l);
    var r, a := InStage(vs, {}, Released), InStage(vs, {}, Active);
    assert InStage(vs, {first}, Released) == r - {first} && InStage(vs, {first}, Active) == a - {first};
    assert first in r ==> first !in a;
    if |l.free| > 0 {
      assert vs[first].stage == Free;
    }
  }

  // ---- A note that steals from itself -----------------------------------------------------

  /** Three slots, all in use: one key down heads the list, two voices are held by the pedal. */
  function CrowdedVoices(): seq<Voice>
  {
    var at := (stage: Stage, position: int, instance: U32, stamp: U32) =>
      SILENT.(stage := stage, note := instance, keyReleased := stage == SustainHeld, sustainHeld := stage == SustainHeld,
              generation := 1, activePosition := position, noteInstance := instance, allocationStamp := stamp);
    [at(Active, 0, 1, 1), at(SustainHeld, 1, 3, 3), at(SustainHeld, 2, 2, 2)]
  }

  function CrowdedLedger(): Ledger
  {
    Ledger([], [0, 1, 2], [0, 0, 0], [Start(0, 1), Start(1, 1), Start(2, 1)], 3, 3, [1, 3, 2])
  }

  /** What matters of such a state. */
  ghost predicate Listed3(vs: seq<Voice>, l: Ledger, stages: seq<Stage>, active: seq<int>, bornAt: seq<nat>)
  {
    && |vs| == |stages| == |active| == |bornAt| == 3 && l.free == [] && l.active == active && l.bornAt == bornAt
    && (forall u | 0 <= u < 3 :: vs[u].stage == stages[u])
  }

  /** With nothing free or released, the next layer steals the oldest voice in the stage of the
      first listed one. */
  lemma Next3(vs: seq<Voice>, l: Ledger, vs': seq<Voice>, l': Ledger, v: int,
              stages: seq<Stage>, active: seq<int>, bornAt: seq<nat>, at: nat)
    requires Starts(vs, l, vs', l', v) && Listed3(vs, l, stages, active, bornAt) && l'.births < TWO_32
    requires (forall i | 0 <= i < 3 :: 0 <= active[i] < 3) && (forall u | 0 <= u < 3 :: stages[u] in {Active, SustainHeld})
    requires at < 3 && stages[active[at]] == stages[active[0]]
    requires forall u | 0 <= u < 3 && stages[u] == stages[active[0]] && u != active[at] :: bornAt[active[at]] < bornAt[u]
    ensures v == active[at]
    ensures Listed3(vs', l', stages[v := Active], Without(active, at) + [v], bornAt[v := l.births + 1])
  {
    hide Tables, IsVictim;
    VictimFacts(vs, l, v);
    Places(vs, l);
    forall u | 0 <= u < 3 && u != v
      ensures vs'[u].stage == vs[u].stage
    {
      assert KeepsVoiceElsewhere(vs[u], vs'[u]);
    }
  }

  /** A third layer takes the slot of the first: the second layer's victim heads the list by then,
      and hands that place to the first layer. */
  lemma ThirdLayerReturns(vs1: seq<Voice>, l1: Ledger, a: int, vs2: seq<Voice>, l2: Ledger, b: int,
                          vs3: seq<Voice>, l3: Ledger, c: int)
    requires Starts(CrowdedVoices(), CrowdedLedger(), vs1, l1, a)
    requires Starts(vs1, l1, vs2, l2, b) && Starts(vs2, l2, vs3, l3, c)
    ensures a == 0 && b == 2 && c == 0
  {
    hide Starts;
    var vs, l := CrowdedVoices(), CrowdedLedger();
    assert l1.births == 4 && l2.births == 5 && l3.births == 6 by { CountBirths(vs1, l1, a, vs2, l2, b, vs3, l3, c); }
    Next3(vs, l, vs1, l1, a, [Active, SustainHeld, SustainHeld], [0, 1, 2], [1, 3, 2], 0);
    assert Without([0, 1, 2], 0) + [0] == [2, 1, 0];
    Next3(vs1, l1, vs2, l2, b, [Active, SustainHeld, SustainHeld], [2, 1, 0], [4, 3, 2], 0);
    assert Without([2, 1, 0], 0) + [2] == [0, 1, 2];
    Next3(vs2, l2, vs3, l3, c, [Active, SustainHeld, Active], [0, 1, 2], [4, 3, 5], 0);
  }

  lemma CountBirths(vs1: seq<Voice>, l1: Ledger, a: int, vs2: seq<Voice>, l2: Ledger, b: int,
                    vs3: seq<Voice>, l3: Ledger, c: int)
    requires Starts(CrowdedVoices(), CrowdedLedger(), vs1, l1, a)
    requires Starts(vs1, l1, vs2, l2, b) && Starts(vs2, l2, vs3, l3, c)
    ensures l1.births == 4 && l2.births == 5 && l3.births == 6
  {
    hide Tables, IsVictim, KeepsElsewhere, Without;
  }

  /** That state can occur, and the count says so: beside the first layer one more finds room. */
  lemma CrowdedHasRoomForTwo()
    ensures Tables(CrowdedVoices(), CrowdedLedger(), {})
    ensures Spare(CrowdedVoices(), CrowdedLedger(), 0) == 1
  {
    CrowdedStands();
    CrowdedSpare();
  }

  lemma CrowdedStands()
    ensures Tables(CrowdedVoices(), CrowdedLedger(), {})
  {
    hide Partition, Instances, Ages, Owners, WellTagged, CrowdedVoices;
    CrowdedPartition();
    CrowdedAges();
    CrowdedInstances();
    CrowdedOwners();
  }

  lemma CrowdedPartition()
    ensures var l := CrowdedLedger(); Partition(CrowdedVoices(), l.free, l.active, l.freePos, {})
  {
  }

  lemma CrowdedAges()
    ensures Ages(CrowdedVoices(), 3, [1, 3, 2], {})
  {
    var vs := CrowdedVoices();
    assert |vs| == 3 && vs[0].allocationStamp == 1 && vs[1].allocationStamp == 3 && vs[2].allocationStamp == 2;
  }

  lemma CrowdedInstances()
    ensures Instances(CrowdedVoices(), 3, {})
  {
    var vs := CrowdedVoices();
    assert |vs| == 3 && vs[0].noteInstance == 1 && vs[1].noteInstance == 3 && vs[2].noteInstance == 2;
  }

  lemma CrowdedOwners()
    ensures var l := CrowdedLedger(); Owners(CrowdedVoices(), l.wire, {}) && WellTagged(l.wire)
  {
    hide Silenced, LastStart, WellTagged;
    CrowdedWire();
  }

  lemma CrowdedSpare()
    ensures Spare(CrowdedVoices(), CrowdedLedger(), 0) == 1
  {
    var vs, l := CrowdedVoices(), CrowdedLedger();
    assert InStage(vs, {0}, Released) == {} && InStage(vs, {0}, Active) == {};
    assert HeadAfter(l, 0) == [2];
    assert (set u | u in InStage(vs, {0}, SustainHeld) && l.bornAt[u] <= l.bornAt[2]) == {2};
  }

  lemma CrowdedWire()
    ensures var wire := CrowdedLedger().wire;
            WellTagged(wire) && forall v | 0 <= v < 3 :: LastStart(wire, v) == Some(1) && !Silenced(wire, v)
  {
    Append([], Start(0, 1));
    Append([Start(0, 1)], Start(1, 1));
    Append([Start(0, 1), Start(1, 1)], Start(2, 1));
    assert [] + [Start(0, 1)] == [Start(0, 1)];
    assert [Start(0, 1)] + [Start(1, 1)] == [Start(0, 1), Start(1, 1)];
    assert [Start(0, 1), Start(1, 1)] + [Start(2, 1)] == CrowdedLedger().wire;
  }
}
