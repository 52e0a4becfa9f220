/**
 Values and rules of the voice life cycle: what a voice slot holds, how keys and pedals move it,
 how slots are divided between the free stack and the active list, and what the command stream
 says about each slot.
 */
module Lifecycle {
  import opened CInt
  import opened Channels
  import Envelope
  import opened Wrappers

  const MAX_VOICES: int := 512
  const CHANNEL_COUNT: int := 16

  type ChannelIndex = c: int | 0 <= c < 16

  datatype Stage = Free | Active | SustainHeld | Released

  datatype Voice = Voice(
    stage: Stage, channel: ChannelIndex, note: int, exclusiveClass: int,
    keyReleased: bool, sustainHeld: bool, sostenutoHeld: bool,
    generation: U16, activePosition: int, presetIndex: int,
    noteInstance: U32, allocationStamp: U32, motion: Motion)

  /** What moves by itself in a voice: its modulation envelope and oscillators with their settings,
      and the families they reach. */
  datatype Motion = Motion(
    config: Envelope.EnvConfig, modLfoStep: U32, vibLfoStep: U32, periodic: set<Group>,
    env: Envelope.EnvState, modLfo: Envelope.Lfo, vibLfo: Envelope.Lfo)

  /** `n` ticks later. In a voice that nothing reaches, time stands still. */
  function Moved(m: Motion, n: nat): Motion
  {
    if m.periodic == {} then m
    else m.(env := Envelope.EnvTicks(m.config, m.env, n),
            modLfo := Envelope.LfoTicks(m.modLfoStep, m.modLfo, n),
            vibLfo := Envelope.LfoTicks(m.vibLfoStep, m.vibLfo, n))
  }

  /** The same with the oscillators one tick behind, as they are when parameters are sent. */
  function MovedToSend(m: Motion, n: nat): Motion
    requires n >= 1
  {
    if m.periodic == {} then m
    else m.(env := Envelope.EnvTicks(m.config, m.env, n),
            modLfo := Envelope.LfoTicks(m.modLfoStep, m.modLfo, n - 1),
            vibLfo := Envelope.LfoTicks(m.vibLfoStep, m.vibLfo, n - 1))
  }

  /** The envelope `a` ticks later and the oscillators `b` ticks later. */
  function Ahead(m: Motion, a: nat, b: nat): Motion
  {
    if m.periodic == {} then m
    else m.(env := Envelope.EnvTicks(m.config, m.env, a),
            modLfo := Envelope.LfoTicks(m.modLfoStep, m.modLfo, b),
            vibLfo := Envelope.LfoTicks(m.vibLfoStep, m.vibLfo, b))
  }

  /** Moving on adds up. */
  lemma MovedAhead(m: Motion, a: nat, b: nat, n: nat)
    ensures Ahead(m, 0, 0) == m && Moved(m, n) == Ahead(m, n, n)
    ensures Moved(Ahead(m, a, b), n) == Ahead(m, a + n, b + n)
    ensures n >= 1 ==> MovedToSend(Ahead(m, a, b), n) == Ahead(m, a + n, b + n - 1)
  {
    Envelope.EnvTicksSplit(m.config, m.env, a, n);
    Envelope.LfoTicksSplit(m.modLfoStep, m.modLfo, b, n);
    Envelope.LfoTicksSplit(m.vibLfoStep, m.vibLfo, b, n);
    if n >= 1 {
      Envelope.LfoTicksSplit(m.modLfoStep, m.modLfo, b, n - 1);
      Envelope.LfoTicksSplit(m.vibLfoStep, m.vibLfo, b, n - 1);
    }
  }

  const AT_REST: Motion :=
    Motion(Envelope.EnvConfig(0, 0, 0, 0, 0, 0, false), 0, 0, {},
           Envelope.EnvState(Envelope.Idle, 0, 0, 0, 0), Envelope.Lfo(0, 0), Envelope.Lfo(0, 0))

  /** A slot that has never sounded. */
  const SILENT: Voice :=
    Voice(Free, 0, 0, 0, false, false, false, 0, 0, 0, 0, 0, AT_REST)

  predicate Unreleased(v: Voice) { v.stage == Active || v.stage == SustainHeld }

  // ---- Keys and pedals --------------------------------------------------------------------

  function AfterRelease(v: Voice): Voice
  {
    if Unreleased(v) then
      v.(stage := Released, sustainHeld := false, sostenutoHeld := false,
         motion := v.motion.(env := Envelope.EnterRelease(v.motion.env)))
    else v
  }

  function AfterStop(v: Voice): Voice
  {
    if v.stage == Free then v else v.(stage := Released, sustainHeld := false, sostenutoHeld := false)
  }

  /** A lifted key is held by either pedal, else the voice releases. */
  function AfterKeyUp(v: Voice, sustain: bool): Voice
  {
    var up := v.(keyReleased := true);
    if sustain || v.sostenutoHeld then up.(sustainHeld := sustain, stage := SustainHeld) else AfterRelease(up)
  }

  predicate KeyDown(v: Voice) { Unreleased(v) && !v.keyReleased }

  /** What pedals and keys promise about one voice: nothing sounds without a reason. */
  predicate Justified(v: Voice, c: Channel)
  {
    && (v.stage == Active ==> !v.keyReleased)
    && (v.stage == SustainHeld ==> v.keyReleased && (c.sustain || v.sostenutoHeld))
    && (v.stage != Free && v.sostenutoHeld ==> c.sostenuto)
  }

  ghost predicate NoHangingNotes(vs: seq<Voice>, cs: seq<Channel>)
    requires |cs| == CHANNEL_COUNT
  {
    forall i | 0 <= i < |vs| :: Justified(vs[i], cs[vs[i].channel])
  }

  // ---- Slot accounting --------------------------------------------------------------------

  datatype Command =
    | Start(voice: int, generation: U16)
    | Release(voice: int, generation: U16)
    | Stop(voice: int, generation: U16)
    | Update(voice: int, generation: U16, group: Group)

  /** Everything the runtime knows beside the voices themselves: the free stack and the active
      list with the back-pointers of free slots, the commands accepted so far, and how many note
      instances and slot uses there have been, counted without wrapping. */
  datatype Ledger = Ledger(
    free: seq<int>, active: seq<int>, freePos: seq<int>, wire: seq<Command>,
    issued: nat, births: nat, bornAt: seq<nat>)

  /** The free stack and the active list divide the slots; back-pointers prove membership. A hole
      is a slot taken from the stack and not yet listed. */
  ghost predicate Partition(vs: seq<Voice>, free: seq<int>, active: seq<int>, freePos: seq<int>, hole: set<int>)
  {
    && |freePos| == |vs|
    && |free| + |active| + |hole| == |vs|
    && (forall i | 0 <= i < |active| ::
          0 <= active[i] < |vs| && active[i] !in hole
          && vs[active[i]].stage != Free && vs[active[i]].activePosition == i)
    && (forall i | 0 <= i < |free| ::
          0 <= free[i] < |vs| && free[i] !in hole && vs[free[i]].stage == Free && freePos[free[i]] == i)
    && (forall v | 0 <= v < |vs| && v !in hole && vs[v].stage != Free ::
          0 <= vs[v].activePosition < |active| && active[vs[v].activePosition] == v)
    && (forall v | 0 <= v < |vs| && v !in hole && vs[v].stage == Free ::
          0 <= freePos[v] < |free| && free[freePos[v]] == v)
  }

  /** Read without back-pointers: both lists are duplicate-free and every slot is on exactly one. */
  lemma PartitionMeaning(vs: seq<Voice>, l: Ledger)
    requires Tables(vs, l, {})
    ensures forall i, j | 0 <= i < j < |l.active| :: l.active[i] != l.active[j]
    ensures forall i, j | 0 <= i < j < |l.free| :: l.free[i] != l.free[j]
    ensures forall v | 0 <= v < |vs| :: (v in l.active) != (v in l.free)
    ensures forall v | 0 <= v < |vs| :: v in l.free <==> vs[v].stage == Free
    ensures forall v | v in l.active || v in l.free :: 0 <= v < |vs|
  {
    forall v | 0 <= v < |vs|
      ensures (v in l.free <==> vs[v].stage == Free) && (v in l.active <==> vs[v].stage != Free)
    {
      if vs[v].stage == Free {
        assert l.free[l.freePos[v]] == v;
      } else {
        assert l.active[vs[v].activePosition] == v;
      }
    }
  }

  // ---- Note instances and ages ------------------------------------------------------------

  const U32_LIMIT: int := 0xffff_ffff

  /** While instance numbers have not wrapped, each names one key on one channel. */
  ghost predicate Instances(vs: seq<Voice>, issued: nat, hole: set<int>)
  {
    issued < U32_LIMIT ==>
      && (forall i | 0 <= i < |vs| && i !in hole && vs[i].stage != Free :: 1 <= vs[i].noteInstance <= issued)
      && (forall i, j | 0 <= i < |vs| && 0 <= j < |vs| && i !in hole && j !in hole
                        && vs[i].stage != Free && vs[j].stage != Free
                        && vs[i].noteInstance == vs[j].noteInstance ::
            vs[i].channel == vs[j].channel && vs[i].note == vs[j].note)
  }

  /** Whoever already carries this instance number plays this key. */
  ghost predicate InstanceFits(vs: seq<Voice>, instance: U32, issued: nat, ch: ChannelIndex, note: int)
  {
    issued < U32_LIMIT ==>
      instance == issued && issued >= 1 &&
      forall u | 0 <= u < |vs| && vs[u].stage != Free && vs[u].noteInstance == instance ::
        vs[u].channel == ch && vs[u].note == note
  }

  /** Allocation stamps are birth numbers, wrapped to 32 bits. */
  ghost predicate Ages(vs: seq<Voice>, births: nat, bornAt: seq<nat>, hole: set<int>)
  {
    && |bornAt| == |vs|
    && (forall v | 0 <= v < |vs| && v !in hole && vs[v].stage != Free ::
          bornAt[v] <= births && vs[v].allocationStamp == ToU32(bornAt[v]))
    && (forall u, v | 0 <= u < v < |vs| && u !in hole && v !in hole && vs[u].stage != Free && vs[v].stage != Free ::
          bornAt[u] != bornAt[v])
  }

  // ---- The command stream -----------------------------------------------------------------

  /** Generation of the last start sent to a slot. */
  function LastStart(wire: seq<Command>, v: int): Option<U16>
  {
    if wire == [] then None
    else
      var last := wire[|wire| - 1];
      if last.Start? && last.voice == v then Some(last.generation) else LastStart(wire[..|wire| - 1], v)
  }

  /** Every command but a start carries the generation of the start before it on its slot. */
  ghost predicate WellTagged(wire: seq<Command>)
  {
    forall i | 0 <= i < |wire| && !wire[i].Start? ::
      LastStart(wire[..i], wire[i].voice) == Some(wire[i].generation)
  }

  /** Whether the last start, release or stop sent to a slot was a release or a stop. */
  predicate Silenced(wire: seq<Command>, v: int)
  {
    wire != [] &&
    var last := wire[|wire| - 1];
    if last.voice == v && !last.Update? then !last.Start? else Silenced(wire[..|wire| - 1], v)
  }

  /** The stream names the present owner of every occupied slot, and has told exactly the released
      voices to fall silent. */
  ghost predicate Owners(vs: seq<Voice>, wire: seq<Command>, hole: set<int>)
  {
    forall v | 0 <= v < |vs| && v !in hole && vs[v].stage != Free ::
      LastStart(wire, v) == Some(vs[v].generation) && (vs[v].stage == Released <==> Silenced(wire, v))
  }

  lemma Append(wire: seq<Command>, c: Command)
    ensures (wire + [c])[..|wire|] == wire
    ensures forall v :: LastStart(wire + [c], v) ==
              if c.Start? && c.voice == v then Some(c.generation) else LastStart(wire, v)
    ensures forall v :: Silenced(wire + [c], v) ==
              if c.voice == v && !c.Update? then !c.Start? else Silenced(wire, v)
    ensures WellTagged(wire + [c]) <==>
              WellTagged(wire) && (c.Start? || LastStart(wire, c.voice) == Some(c.generation))
  {
    AppendTagged(wire, c);
    assert (wire + [c])[..|wire|] == wire;
  }

  lemma AppendTagged(wire: seq<Command>, c: Command)
    ensures WellTagged(wire + [c]) <==>
              WellTagged(wire) && (c.Start? || LastStart(wire, c.voice) == Some(c.generation))
  {
    hide LastStart;
    var longer := wire + [c];
    assert longer[..|wire|] == wire && longer[|wire|] == c;
    forall i | 0 <= i < |wire|
      ensures longer[..i] == wire[..i] && longer[i] == wire[i]
    {
    }
    if WellTagged(longer) {
      forall i | 0 <= i < |wire| && !wire[i].Start?
        ensures LastStart(wire[..i], wire[i].voice) == Some(wire[i].generation)
      {
        assert longer[i] == wire[i];
      }
    }
  }

  /** Generations count up, and zero is never used. */
  function NextGeneration(g: U16): U16
  {
    if ToU16(g + 1) == 0 then 1 else ToU16(g + 1)
  }

  // ---- The whole table --------------------------------------------------------------------

  ghost predicate Tables(vs: seq<Voice>, l: Ledger, hole: set<int>)
  {
    && Partition(vs, l.free, l.active, l.freePos, hole)
    && Instances(vs, l.issued, hole) && Ages(vs, l.births, l.bornAt, hole)
    && WellTagged(l.wire) && Owners(vs, l.wire, hole)
  }

  /** All slots free, the lowest on top of the stack. */
  lemma InitialTables(vs: seq<Voice>, free: seq<int>, bornAt: seq<nat>)
    requires |free| == |bornAt| == |vs|
    requires forall i | 0 <= i < |vs| :: vs[i] == SILENT && free[i] == |vs| - 1 - i
    ensures Tables(vs, Ledger(free, [], free, [], 0, 0, bornAt), {})
  {
  }

  /** Silence justifies itself and owes nobody an update. */
  lemma InitialQuiet(p: Picture)
    requires Sized(p) && forall i | 0 <= i < |p.voices| :: p.voices[i] == SILENT
    ensures NoHangingNotes(p.voices, p.channels) && NoLostMark(p)
  {
  }

  /** What a listed position tells. */
  lemma Listed(vs: seq<Voice>, l: Ledger, k: int)
    requires Tables(vs, l, {}) && 0 <= k < |l.active|
    ensures 0 <= l.active[k] < |vs| && vs[l.active[k]].stage != Free && vs[l.active[k]].activePosition == k
  {
  }

  /** Changing keys and pedals of sounding voices leaves the tables in order. */
  lemma TablesKept(vs: seq<Voice>, l: Ledger, v: int, x: Voice)
    requires Tables(vs, l, {}) && 0 <= v < |vs| && KeepsVoice(vs[v], x.(motion := vs[v].motion))
    requires x.stage == Released <==> vs[v].stage == Released
    ensures Tables(vs[v := x], l, {})
  {
    PartitionKept(vs, l, v, x);
    InstancesKept(vs, l.issued, v, x);
    hide Partition, Instances, WellTagged, LastStart, Silenced;
  }

  lemma PartitionKept(vs: seq<Voice>, l: Ledger, v: int, x: Voice)
    requires Partition(vs, l.free, l.active, l.freePos, {}) && 0 <= v < |vs|
    requires (x.stage == Free <==> vs[v].stage == Free) && x.activePosition == vs[v].activePosition
    ensures Partition(vs[v := x], l.free, l.active, l.freePos, {})
  {
  }

  lemma InstancesKept(vs: seq<Voice>, issued: nat, v: int, x: Voice)
    requires Instances(vs, issued, {}) && 0 <= v < |vs| && (x.stage == Free <==> vs[v].stage == Free)
    requires x.noteInstance == vs[v].noteInstance && x.channel == vs[v].channel && x.note == vs[v].note
    ensures Instances(vs[v := x], issued, {})
  {
  }

  /** So does releasing or stopping a voice together with saying so. */
  lemma TablesSilence(vs: seq<Voice>, l: Ledger, v: int, x: Voice, c: Command)
    requires Tables(vs, l, {}) && 0 <= v < |vs| && vs[v].stage != Free && KeepsVoice(vs[v], x)
    requires x.stage == Released && (c == Release(v, x.generation) || c == Stop(v, x.generation))
    ensures Tables(vs[v := x], l.(wire := l.wire + [c]), {})
  {
    hide WellTagged;
    Append(l.wire, c);
  }

  /** And so does an update of a voice's parameters. */
  lemma TablesUpdate(vs: seq<Voice>, l: Ledger, v: int, g: Group)
    requires Tables(vs, l, {}) && 0 <= v < |vs| && vs[v].stage != Free
    ensures Tables(vs, l.(wire := l.wire + [Update(v, vs[v].generation, g)]), {})
  {
    hide Partition, Instances, Ages, WellTagged;
    Append(l.wire, Update(v, vs[v].generation, g));
  }

  // ---- Moving a slot between the lists ----------------------------------------------------

  /** Another voice's list position may move when a slot is reclaimed. */
  predicate KeepsVoiceElsewhere(v: Voice, v': Voice)
  {
    v' == v.(activePosition := v'.activePosition)
  }

  ghost predicate KeepsElsewhere(vs: seq<Voice>, vs': seq<Voice>, v: int)
  {
    |vs'| == |vs| && forall u | 0 <= u < |vs| && u != v :: KeepsVoiceElsewhere(vs[u], vs'[u])
  }

  /** A free slot whose last start no release or stop has followed on the stream. */
  ghost predicate Adrift(vs: seq<Voice>, wire: seq<Command>, v: int)
    requires 0 <= v < |vs|
  {
    vs[v].stage == Free && LastStart(wire, v).Some? && !Silenced(wire, v)
  }

  /** Which slots are adrift after one slot has been given up or started. */
  ghost predicate AdriftBut(vs: seq<Voice>, wire: seq<Command>, vs': seq<Voice>, wire': seq<Command>, v: int, lost: bool)
  {
    |vs'| == |vs| && forall u | 0 <= u < |vs| :: Adrift(vs', wire', u) <==> if u == v then lost else Adrift(vs, wire, u)
  }

  /** A slot that is given up without a command is adrift exactly if its voice was not released, or if
      it was adrift before. */
  lemma GivenUp(vs: seq<Voice>, l: Ledger, vs': seq<Voice>, v: int)
    requires Tables(vs, l, {}) && KeepsElsewhere(vs, vs', v) && 0 <= v < |vs| && vs'[v].stage == Free
    ensures AdriftBut(vs, l.wire, vs', l.wire, v, Unreleased(vs[v]) || Adrift(vs, l.wire, v))
    ensures vs[v].stage != Free ==> LastStart(l.wire, v) == Some(vs[v].generation)
  {
    hide Partition, Instances, Ages, WellTagged, LastStart, Silenced;
  }

  /** A start takes a slot back. */
  lemma TakenBack(vs: seq<Voice>, wire: seq<Command>, vs': seq<Voice>, v: int, generation: U16)
    requires KeepsElsewhere(vs, vs', v) && 0 <= v < |vs| && vs'[v].stage != Free
    ensures AdriftBut(vs, wire, vs', wire + [Start(v, generation)], v, false)
  {
    hide LastStart, Silenced, WellTagged;
    Append(wire, Start(v, generation));
  }

  /** The table after voice `v` left the active list and the last listed voice took its place. */
  function Reclaimed(vs: seq<Voice>, active: seq<int>, v: int): seq<Voice>
    requires 0 <= v < |vs| && |active| > 0 && 0 <= active[|active| - 1] < |vs|
  {
    var r := active[|active| - 1];
    var moved := vs[r := vs[r].(activePosition := vs[v].activePosition)];
    moved[v := moved[v].(stage := Free)]
  }

  function Unlisted(l: Ledger, position: int, v: int): Ledger
    requires 0 <= position < |l.active| && 0 <= v < |l.freePos|
  {
    l.(free := l.free + [v], active := l.active[position := l.active[|l.active| - 1]][..|l.active| - 1],
       freePos := l.freePos[v := |l.free|])
  }

  lemma ReclaimTables(vs: seq<Voice>, l: Ledger, v: int)
    requires Tables(vs, l, {}) && 0 <= v < |vs| && vs[v].stage != Free
    ensures |l.active| > 0 && 0 <= l.active[|l.active| - 1] < |vs|
    ensures 0 <= vs[v].activePosition < |l.active| && |l.freePos| == |vs| && |l.free| < |vs|
    ensures Tables(Reclaimed(vs, l.active, v), Unlisted(l, vs[v].activePosition, v), {})
    ensures KeepsElsewhere(vs, Reclaimed(vs, l.active, v), v)
  {
    ReclaimPartition(vs, l.free, l.active, l.freePos, v);
    FactsElsewhere(vs, Reclaimed(vs, l.active, v), v, l);
  }

  lemma ReclaimPartition(vs: seq<Voice>, free: seq<int>, active: seq<int>, freePos: seq<int>, v: int)
    requires Partition(vs, free, active, freePos, {}) && 0 <= v < |vs| && vs[v].stage != Free
    ensures |active| > 0 && 0 <= active[|active| - 1] < |vs| && 0 <= vs[v].activePosition < |active|
    ensures Partition(Reclaimed(vs, active, v), free + [v],
                      active[vs[v].activePosition := active[|active| - 1]][..|active| - 1],
                      freePos[v := |free|], {})
    ensures KeepsElsewhere(vs, Reclaimed(vs, active, v), v)
  {
    assert active[vs[v].activePosition] == v;
  }

  /** The owner, instance and age facts do not look at list positions or at freed slots. */
  lemma FactsElsewhere(vs: seq<Voice>, vs': seq<Voice>, v: int, l: Ledger)
    requires Instances(vs, l.issued, {}) && Ages(vs, l.births, l.bornAt, {}) && Owners(vs, l.wire, {})
    requires 0 <= v < |vs| && KeepsElsewhere(vs, vs', v) && vs'[v].stage == Free
    ensures Instances(vs', l.issued, {}) && Ages(vs', l.births, l.bornAt, {}) && Owners(vs', l.wire, {})
  {
  }

  /** Popping the free stack opens a hole. */
  lemma PopTables(vs: seq<Voice>, l: Ledger)
    requires Tables(vs, l, {}) && |l.free| > 0
    ensures 0 <= l.free[|l.free| - 1] < |vs| && vs[l.free[|l.free| - 1]].stage == Free
    ensures Tables(vs, l.(free := l.free[..|l.free| - 1]), {l.free[|l.free| - 1]})
  {
  }

  /** A new record in the hole disturbs nothing. */
  lemma FillHole(vs: seq<Voice>, l: Ledger, v: int, x: Voice)
    requires 0 <= v < |vs| && Tables(vs, l, {v})
    ensures Tables(vs[v := x], l, {v})
  {
  }

  /** A start for the hole's slot names nobody else. */
  lemma StartSent(vs: seq<Voice>, l: Ledger, v: int, generation: U16)
    requires 0 <= v < |vs| && Tables(vs, l, {v})
    ensures Tables(vs, l.(wire := l.wire + [Start(v, generation)]), {v})
    ensures LastStart(l.wire + [Start(v, generation)], v) == Some(generation)
    ensures !Silenced(l.wire + [Start(v, generation)], v)
  {
    hide Partition, Instances, Ages, WellTagged;
    Append(l.wire, Start(v, generation));
  }

  /** A published start closes the hole with a listed voice. */
  lemma ActivateTables(vs: seq<Voice>, l: Ledger, v: int)
    requires 0 <= v < |vs| && Tables(vs, l, {v}) && vs[v].stage == Active && !Silenced(l.wire, v)
    requires InstanceFitsElsewhere(vs, vs[v].noteInstance, l.issued, vs[v].channel, vs[v].note, v)
    requires vs[v].allocationStamp == ToU32(l.births + 1)
    requires LastStart(l.wire, v) == Some(vs[v].generation)
    ensures |l.bornAt| == |vs| && |l.active| < |vs|
    ensures var vs' := vs[v := vs[v].(activePosition := |l.active|)];
            && Tables(vs', l.(active := l.active + [v], births := l.births + 1, bornAt := l.bornAt[v := l.births + 1]), {})
            && InstanceFits(vs', vs[v].noteInstance, l.issued, vs[v].channel, vs[v].note)
  {
    hide WellTagged, LastStart, Silenced, Partition, Instances, Ages;
    var vs' := vs[v := vs[v].(activePosition := |l.active|)];
    ActivatePartition(vs, l, v);
    ActivateFacts(vs, vs', l, v);
  }

  lemma ActivatePartition(vs: seq<Voice>, l: Ledger, v: int)
    requires 0 <= v < |vs| && Partition(vs, l.free, l.active, l.freePos, {v}) && vs[v].stage == Active
    ensures |l.active| < |vs|
    ensures Partition(vs[v := vs[v].(activePosition := |l.active|)], l.free, l.active + [v], l.freePos, {})
  {
  }

  lemma ActivateFacts(vs: seq<Voice>, vs': seq<Voice>, l: Ledger, v: int)
    requires 0 <= v < |vs| && vs' == vs[v := vs[v].(activePosition := |l.active|)]
    requires Instances(vs, l.issued, {v}) && Ages(vs, l.births, l.bornAt, {v})
    requires InstanceFitsElsewhere(vs, vs[v].noteInstance, l.issued, vs[v].channel, vs[v].note, v)
    requires vs[v].allocationStamp == ToU32(l.births + 1)
    ensures Instances(vs', l.issued, {}) && InstanceFits(vs', vs[v].noteInstance, l.issued, vs[v].channel, vs[v].note)
    ensures |l.bornAt| == |vs| && Ages(vs', l.births + 1, l.bornAt[v := l.births + 1], {})
  {
    hide ToU32;
  }

  ghost predicate InstanceFitsElsewhere(vs: seq<Voice>, instance: U32, issued: nat, ch: ChannelIndex, note: int, v: int)
  {
    issued < U32_LIMIT ==>
      instance == issued && issued >= 1 &&
      forall u | 0 <= u < |vs| && u != v && vs[u].stage != Free && vs[u].noteInstance == instance ::
        vs[u].channel == ch && vs[u].note == note
  }

  lemma InstanceFitsKept(vs: seq<Voice>, vs': seq<Voice>, instance: U32, issued: nat, ch: ChannelIndex, note: int, v: int)
    requires InstanceFits(vs, instance, issued, ch, note) && KeepsElsewhere(vs, vs', v)
    ensures InstanceFitsElsewhere(vs', instance, issued, ch, note, v)
    ensures 0 <= v < |vs'| && vs'[v].stage == Free ==> InstanceFits(vs', instance, issued, ch, note)
  {
  }

  lemma KeepsElsewhereUpdate(vs: seq<Voice>, vs': seq<Voice>, v: int, x: Voice)
    requires KeepsElsewhere(vs, vs', v) && 0 <= v < |vs|
    ensures KeepsElsewhere(vs, vs'[v := x], v)
  {
  }

  /** An unpublished record gives its slot back. */
  lemma AbandonTables(vs: seq<Voice>, l: Ledger, v: int)
    requires 0 <= v < |vs| && Tables(vs, l, {v})
    ensures |l.freePos| == |vs| && |l.free| < |vs|
    ensures Tables(vs[v := vs[v].(stage := Free)],
                   l.(free := l.free + [v], freePos := l.freePos[v := |l.free|], births := l.births + 1), {})
  {
  }

  /** A new instance number is nobody's yet. */
  lemma NewInstance(vs: seq<Voice>, l: Ledger, instance: U32, ch: ChannelIndex, note: int)
    requires Tables(vs, l, {}) && (l.issued + 1 < U32_LIMIT ==> instance == l.issued + 1)
    ensures Tables(vs, l.(issued := l.issued + 1), {})
    ensures InstanceFits(vs, instance, l.issued + 1, ch, note)
  {
  }

  // ---- Stealing ---------------------------------------------------------------------------

  predicate MayReplace(candidate: Voice, selected: Voice)
  {
    || (candidate.stage == Released && selected.stage != Released)
    || (candidate.stage == selected.stage && candidate.allocationStamp < selected.allocationStamp)
  }

  /** The victim: a released voice with the smallest stamp if any is released, otherwise the
      smallest stamp in the stage of the list's first entry. */
  ghost predicate IsVictim(vs: seq<Voice>, active: seq<int>, victim: int)
    requires forall i | 0 <= i < |active| :: 0 <= active[i] < |vs|
  {
    && victim in active
    && (forall v <- active :: vs[v].stage == vs[victim].stage ==>
          vs[victim].allocationStamp <= vs[v].allocationStamp)
    && (vs[victim].stage == Released || (
          && vs[victim].stage == vs[active[0]].stage
          && forall v <- active :: vs[v].stage != Released))
  }

  /** Looking at one more listed voice. */
  lemma VictimStep(vs: seq<Voice>, active: seq<int>, k: nat, victim: int)
    requires forall i | 0 <= i < |active| :: 0 <= active[i] < |vs|
    requires 0 < k < |active| && IsVictim(vs, active[..k], victim)
    ensures 0 <= victim < |vs|
    ensures IsVictim(vs, active[..k + 1], if MayReplace(vs[active[k]], vs[victim]) then active[k] else victim)
  {
    assert active[..k + 1] == active[..k] + [active[k]];
  }

  lemma VictimStart(vs: seq<Voice>, active: seq<int>)
    requires forall i | 0 <= i < |active| :: 0 <= active[i] < |vs|
    requires |active| > 0
    ensures IsVictim(vs, active[..1], active[0]) && active[..|active|] == active
  {
  }

  lemma VictimListed(vs: seq<Voice>, active: seq<int>, victim: int)
    requires forall i | 0 <= i < |active| :: 0 <= active[i] < |vs| && vs[active[i]].stage != Free
    requires IsVictim(vs, active, victim)
    ensures 0 <= victim < |vs| && vs[victim].stage != Free
  {
  }

  /** Before the stamps wrap, the smallest stamp is the oldest voice. */
  lemma VictimIsOldest(vs: seq<Voice>, l: Ledger, victim: int)
    requires Tables(vs, l, {}) && l.births < TWO_32
    requires forall i | 0 <= i < |l.active| :: 0 <= l.active[i] < |vs|
    requires IsVictim(vs, l.active, victim)
    ensures forall v <- l.active :: vs[v].stage == vs[victim].stage ==> l.bornAt[victim] <= l.bornAt[v]
  {
    forall v | v in l.active && vs[v].stage == vs[victim].stage
      ensures l.bornAt[victim] <= l.bornAt[v]
    {
      assert vs[v].allocationStamp == l.bornAt[v] && vs[victim].allocationStamp == l.bornAt[victim];
    }
  }

  // ---- Sweeps along the active list -------------------------------------------------------

  /** What a sweep does to one occupied voice: a first rewrite, then possibly a command, then the
      final rewrite. */
  datatype Action = Action(prepare: Voice -> Voice, command: (int, Voice) -> Option<Command>, effect: Voice -> Voice)

  /** An action keeps slot accounting, and its command names the slot and its generation. */
  ghost predicate Lawful(a: Action)
  {
    && (forall x :: KeepsVoice(x, a.prepare(x)))
    && (forall x :: KeepsVoice(a.prepare(x), a.effect(x)) && KeepsVoice(x, a.effect(x)))
    && (forall x :: a.prepare(x).stage == Released <==> x.stage == Released)
    && (forall v, x :: a.command(v, x).Some? ==>
          && (a.command(v, x).value == Release(v, x.generation) || a.command(v, x).value == Stop(v, x.generation))
          && a.effect(x).stage == Released)
    && (forall v, x :: a.command(v, x) == None ==> (a.effect(x).stage == Released <==> x.stage == Released))
  }

  /** The commands a sweep sends, in list order. */
  function CommandsOf(vs: seq<Voice>, list: seq<int>, a: Action): seq<Command>
    requires forall i | 0 <= i < |list| :: 0 <= list[i] < |vs|
  {
    if list == [] then []
    else
      var v := list[|list| - 1];
      CommandsOf(vs, list[..|list| - 1], a) + ToSeq(a.command(v, vs[v]))
  }

  function ToSeq<T>(o: Option<T>): seq<T>
  {
    if o.None? then [] else [o.value]
  }

  lemma CommandsStep(vs: seq<Voice>, list: seq<int>, k: nat, a: Action)
    requires forall i | 0 <= i < |list| :: 0 <= list[i] < |vs|
    requires k < |list|
    ensures CommandsOf(vs, list[..k + 1], a) ==
            CommandsOf(vs, list[..k], a) + ToSeq(a.command(list[k], vs[list[k]]))
  {
    assert list[..k + 1][..k] == list[..k];
  }

  lemma CommandsStart(vs: seq<Voice>, list: seq<int>, a: Action)
    requires forall i | 0 <= i < |list| :: 0 <= list[i] < |vs|
    ensures CommandsOf(vs, list[..0], a) == []
  {
  }

  lemma NoCommands(vs: seq<Voice>, list: seq<int>, a: Action)
    requires forall i | 0 <= i < |list| :: 0 <= list[i] < |vs|
    requires forall v, x :: a.command(v, x) == None
    ensures CommandsOf(vs, list, a) == []
  {
  }

  /** Releases the voices a test selects. */
  function ReleaseIf(target: Voice -> bool): Action
  {
    Action(x => x,
           (v, x) => if target(x) && Unreleased(x) then Some(Release(v, x.generation)) else None,
           x => if target(x) then AfterRelease(x) else x)
  }

  function StopOn(ch: ChannelIndex): Action
  {
    Action(x => x,
           (v, x: Voice) => if x.channel == ch && x.stage != Free then Some(Stop(v, x.generation)) else None,
           (x: Voice) => if x.channel == ch then AfterStop(x) else x)
  }

  /** Lifts the keys a test selects: held by a pedal, or released. */
  function LiftIf(target: Voice -> bool, sustain: bool): Action
  {
    Action((x: Voice) => if target(x) && KeyDown(x) then x.(keyReleased := true) else x,
           (v, x: Voice) => if target(x) && KeyDown(x) && !sustain && !x.sostenutoHeld
                            then Some(Release(v, x.generation)) else None,
           x => if target(x) && KeyDown(x) then AfterKeyUp(x, sustain) else x)
  }

  /** Lifts every sounding key, whatever the pedals say. */
  function DropAll(): Action
  {
    Action((x: Voice) => if Unreleased(x)
                         then x.(keyReleased := true, sustainHeld := false, sostenutoHeld := false) else x,
           (v, x: Voice) => if Unreleased(x) then Some(Release(v, x.generation)) else None,
           x => if Unreleased(x) then AfterRelease(x.(keyReleased := true)) else x)
  }

  /** Rewrites the voices of one channel without telling the FPGA. */
  function RewriteOn(ch: ChannelIndex, f: Voice -> Voice): Action
  {
    Action((x: Voice) => if x.channel == ch then f(x) else x, (v, x) => None,
           (x: Voice) => if x.channel == ch then f(x) else x)
  }

  /** A rewrite of pedal flags only. */
  ghost predicate Silent(f: Voice -> Voice)
  {
    forall x :: KeepsVoice(x, f(x)) && (f(x).stage == Released <==> x.stage == Released)
  }

  lemma ReleaseLawful(target: Voice -> bool)
    ensures Lawful(ReleaseIf(target))
  {
  }

  lemma StopLawful(ch: ChannelIndex)
    ensures Lawful(StopOn(ch))
  {
  }

  lemma LiftLawful(target: Voice -> bool, sustain: bool)
    ensures Lawful(LiftIf(target, sustain))
  {
    var a := LiftIf(target, sustain);
    forall x: Voice
      ensures KeepsVoice(x, a.prepare(x)) && KeepsVoice(a.prepare(x), a.effect(x)) && KeepsVoice(x, a.effect(x))
      ensures a.prepare(x).stage == Released <==> x.stage == Released
    {
      assert a.effect(x) == if target(x) && KeyDown(x) then AfterKeyUp(x, sustain) else x;
      assert a.prepare(x) == if target(x) && KeyDown(x) then x.(keyReleased := true) else x;
    }
    forall v, x: Voice
      ensures a.command(v, x).Some? ==> a.command(v, x).value == Release(v, x.generation) && a.effect(x).stage == Released
      ensures a.command(v, x) == None ==> (a.effect(x).stage == Released <==> x.stage == Released)
    {
      assert a.effect(x) == if target(x) && KeyDown(x) then AfterKeyUp(x, sustain) else x;
    }
  }

  lemma DropLawful()
    ensures Lawful(DropAll())
  {
  }

  lemma RewriteLawful(ch: ChannelIndex, f: Voice -> Voice)
    requires Silent(f)
    ensures Lawful(RewriteOn(ch, f))
  {
    var a := RewriteOn(ch, f);
    forall x: Voice
      ensures KeepsVoice(x, a.effect(x)) && KeepsVoice(a.effect(x), a.effect(x))
    {
    }
  }

  /** Everything sounding on one channel, changed by `f`. */
  function OnChannel(vs: seq<Voice>, ch: ChannelIndex, f: Voice -> Voice): (r: seq<Voice>)
    ensures |r| == |vs|
  {
    seq(|vs|, u requires 0 <= u < |vs| => if vs[u].stage != Free && vs[u].channel == ch then f(vs[u]) else vs[u])
  }

  /** Two changes of a channel in a row. */
  lemma OnChannelTwice(vs: seq<Voice>, ch: ChannelIndex, f: Voice -> Voice, g: Voice -> Voice, h: Voice -> Voice)
    requires forall x: Voice :: x.stage != Free ==> f(x).stage != Free && f(x).channel == x.channel
    requires forall x :: h(x) == g(f(x))
    ensures OnChannel(OnChannel(vs, ch, f), ch, g) == OnChannel(vs, ch, h)
  {
  }

  lemma OnChannelAgree(vs: seq<Voice>, ch: ChannelIndex, f: Voice -> Voice, g: Voice -> Voice)
    requires forall x: Voice :: x.stage != Free ==> f(x) == g(x)
    ensures OnChannel(vs, ch, f) == OnChannel(vs, ch, g)
  {
  }

  lemma OnChannelIdle(vs: seq<Voice>, ch: ChannelIndex, f: Voice -> Voice)
    requires forall x: Voice :: f(x) == x
    ensures OnChannel(vs, ch, f) == vs
  {
  }

  /** Whether a sweep along the active list has passed this voice. */
  predicate Passed(v: Voice, position: int) { v.stage != Free && v.activePosition < position }

  /** The table while a sweep along the active list has passed `position` voices. */
  function SweptTo(vs: seq<Voice>, position: int, f: Voice -> Voice): (r: seq<Voice>)
    ensures |r| == |vs|
  {
    seq(|vs|, u requires 0 <= u < |vs| => if Passed(vs[u], position) then f(vs[u]) else vs[u])
  }

  /** A sweep that met a refused command: listed voices before `k` are done, the one at `k` is only
      prepared, the others are untouched. */
  ghost predicate Halted(vs: seq<Voice>, vs': seq<Voice>, active: seq<int>, k: int, a: Action)
  {
    && |vs'| == |vs| && 0 <= k < |active| && 0 <= active[k] < |vs|
    && vs[active[k]].stage != Free && a.command(active[k], vs[active[k]]).Some?
    && vs' == SweptTo(vs, k, a.effect)[active[k] := a.prepare(vs[active[k]])]
  }

  /** Each step of a sweep meets the next listed voice, still untouched. */
  lemma SweepStep(vs: seq<Voice>, l: Ledger, k: int, f: Voice -> Voice)
    requires Tables(vs, l, {}) && 0 <= k < |l.active|
    ensures 0 <= l.active[k] < |vs| && l.active[..k + 1][..k] == l.active[..k]
    ensures SweptTo(vs, k, f)[l.active[k]] == vs[l.active[k]] && vs[l.active[k]].stage != Free
    ensures SweptTo(vs, k + 1, f) == SweptTo(vs, k, f)[l.active[k] := f(vs[l.active[k]])]
  {
    hide Instances, Ages, Owners, WellTagged;
  }

  lemma SweepEnds(vs: seq<Voice>, l: Ledger, f: Voice -> Voice)
    requires Tables(vs, l, {})
    ensures SweptTo(vs, 0, f) == vs && l.active[..0] == [] && l.active[..|l.active|] == l.active
    ensures forall i | 0 <= i < |l.active| :: 0 <= l.active[i] < |vs|
    ensures forall u | 0 <= u < |vs| ::
              SweptTo(vs, |l.active|, f)[u] == if vs[u].stage != Free then f(vs[u]) else vs[u]
  {
    hide Instances, Ages, Owners, WellTagged;
  }

  // ---- What an event may change -----------------------------------------------------------

  /** One voice before and after an event that does not restart its slot. */
  predicate KeepsVoice(v: Voice, v': Voice)
  {
    && (v.stage == Free <==> v'.stage == Free)
    && (Unreleased(v') ==> Unreleased(v))
    && v'.activePosition == v.activePosition && v'.generation == v.generation
    && v'.channel == v.channel && v'.note == v.note && v'.noteInstance == v.noteInstance
    && v'.allocationStamp == v.allocationStamp
    && (Unreleased(v') ==> v'.motion == v.motion)
  }

  ghost predicate KeepsVoices(vs: seq<Voice>, vs': seq<Voice>)
  {
    |vs'| == |vs| && forall v | 0 <= v < |vs| :: KeepsVoice(vs[v], vs'[v])
  }

  lemma KeepsTransitive(a: seq<Voice>, b: seq<Voice>, c: seq<Voice>)
    requires KeepsVoices(a, b) && KeepsVoices(b, c)
    ensures KeepsVoices(a, c)
  {
  }

  lemma KeepsSelf(vs: seq<Voice>)
    ensures KeepsVoices(vs, vs)
  {
  }

  lemma KeepsOne(vs: seq<Voice>, v: int, x: Voice)
    requires 0 <= v < |vs| && KeepsVoice(vs[v], x)
    ensures KeepsVoices(vs, vs[v := x])
  {
  }

  /** The part of the runtime that control jobs depend on. `stale` lists, for each voice, the
      families whose last sent parameters predate a change of its channel; `starts`, `advances`,
      `marks` and `resets` count slot reuses, control advances of a slot, dirty marks and controller
      resets. */
  datatype Picture = Picture(
    voices: seq<Voice>, channels: seq<Channel>, stale: seq<set<Group>>,
    starts: seq<nat>, advances: seq<nat>, marks: seq<nat>, resets: seq<nat>)

  predicate Sized(p: Picture)
  {
    |p.stale| == |p.starts| == |p.advances| == |p.voices| && |p.channels| == |p.marks| == |p.resets| == CHANNEL_COUNT
  }

  /** No dirty mark is lost: whatever a sounding voice has not yet been sent is still marked. */
  ghost predicate NoLostMark(p: Picture)
    requires Sized(p)
  {
    forall v | 0 <= v < |p.voices| && Unreleased(p.voices[v]) ::
      p.stale[v] <= p.channels[p.voices[v].channel].dirtyGroups
  }

  ghost predicate ChannelEvolves(p: Picture, q: Picture, c: ChannelIndex)
    requires Sized(p) && Sized(q)
  {
    && p.marks[c] <= q.marks[c] && p.resets[c] <= q.resets[c]
    && p.channels[c].dirtyGroups <= q.channels[c].dirtyGroups
    && (p.marks[c] == q.marks[c] ==>
          q.channels[c].dirtyGroups == p.channels[c].dirtyGroups
          && q.channels[c].dirtyRevision == p.channels[c].dirtyRevision)
    && (p.resets[c] == q.resets[c] ==>
          q.channels[c].dirtyRevision == ToU32(p.channels[c].dirtyRevision + (q.marks[c] - p.marks[c])))
  }

  ghost predicate VoiceEvolves(p: Picture, q: Picture, v: int)
    requires Sized(p) && Sized(q) && |p.voices| == |q.voices| && 0 <= v < |p.voices|
  {
    var old_, new_ := p.voices[v], q.voices[v];
    var c := new_.channel;
    && p.starts[v] <= q.starts[v]
    && (p.starts[v] == q.starts[v] ==>
          && new_.generation == old_.generation
          && (new_.stage != Free ==> old_.stage != Free && new_.channel == old_.channel)
          && (Unreleased(new_) ==>
                && Unreleased(old_) && new_.motion == old_.motion
                && q.stale[v] <= p.stale[v] + q.channels[c].dirtyGroups
                && (p.marks[c] == q.marks[c] ==> q.stale[v] == p.stale[v])))
    && (p.starts[v] < q.starts[v] && Unreleased(new_) ==>
          && q.stale[v] <= q.channels[c].dirtyGroups
          && (p.marks[c] == q.marks[c] ==> q.stale[v] == {}))
  }

  /** Everything a MIDI event may do to a control job. */
  ghost predicate Evolves(p: Picture, q: Picture)
  {
    && Sized(p) && Sized(q) && |p.voices| == |q.voices| && q.advances == p.advances
    && (forall c: ChannelIndex :: ChannelEvolves(p, q, c))
    && (forall v | 0 <= v < |p.voices| :: VoiceEvolves(p, q, v))
  }

  lemma EvolvesReflexive(p: Picture)
    requires Sized(p)
    ensures Evolves(p, p)
  {
  }

  lemma ChannelEvolvesTransitive(p: Picture, q: Picture, r: Picture, c: ChannelIndex)
    requires Sized(p) && Sized(q) && Sized(r) && ChannelEvolves(p, q, c) && ChannelEvolves(q, r, c)
    ensures ChannelEvolves(p, r, c)
  {
    WrapAdd(p.channels[c].dirtyRevision + (q.marks[c] - p.marks[c]), r.marks[c] - q.marks[c]);
  }

  lemma EvolvesTransitive(p: Picture, q: Picture, r: Picture)
    requires Evolves(p, q) && Evolves(q, r)
    ensures Evolves(p, r)
  {
    forall c: ChannelIndex
      ensures ChannelEvolves(p, r, c)
    {
      ChannelEvolvesTransitive(p, q, r, c);
    }
    forall v | 0 <= v < |p.voices|
      ensures VoiceEvolves(p, r, v)
    {
      assert VoiceEvolves(p, q, v) && VoiceEvolves(q, r, v);
      var c := r.voices[v].channel;
      assert ChannelEvolves(p, q, c) && ChannelEvolves(q, r, c);
    }
  }

  lemma EvolvesKeepsMarks(p: Picture, q: Picture)
    requires Evolves(p, q) && NoLostMark(p)
    ensures NoLostMark(q)
  {
    forall v | 0 <= v < |q.voices| && Unreleased(q.voices[v])
      ensures q.stale[v] <= q.channels[q.voices[v].channel].dirtyGroups
    {
      assert VoiceEvolves(p, q, v);
      assert ChannelEvolves(p, q, q.voices[v].channel);
    }
  }

  lemma KeepsEvolves(p: Picture, q: Picture)
    requires Sized(p) && KeepsVoices(p.voices, q.voices) && q == p.(voices := q.voices)
    ensures Evolves(p, q)
  {
  }

  /** Writing channel state that no dirty mark covers yet. */
  lemma ChannelWriteEvolves(p: Picture, q: Picture, ch: ChannelIndex, c: Channel)
    requires Sized(p) && q == p.(channels := p.channels[ch := c])
    requires c.dirtyGroups == p.channels[ch].dirtyGroups && c.dirtyRevision == p.channels[ch].dirtyRevision
    ensures Evolves(p, q)
  {
  }

  /** Every voice of a marked channel becomes stale for the marked families. */
  function StaleAfterMark(vs: seq<Voice>, stale: seq<set<Group>>, ch: ChannelIndex, groups: set<Group>): seq<set<Group>>
    requires |vs| == |stale|
  {
    seq(|stale|, v requires 0 <= v < |stale| => if vs[v].channel == ch then stale[v] + groups else stale[v])
  }

  function Marked(c: Channel, groups: set<Group>): Channel
  {
    c.(dirtyGroups := c.dirtyGroups + groups, dirtyRevision := ToU32(c.dirtyRevision + 1))
  }

  lemma MarkEvolves(p: Picture, q: Picture, ch: ChannelIndex, groups: set<Group>)
    requires Sized(p)
    requires q == p.(channels := p.channels[ch := Marked(p.channels[ch], groups)],
                     stale := StaleAfterMark(p.voices, p.stale, ch, groups),
                     marks := p.marks[ch := p.marks[ch] + 1])
    ensures Evolves(p, q)
  {
  }

  lemma ResetEvolves(p: Picture, q: Picture, ch: ChannelIndex)
    requires Sized(p)
    requires q == p.(channels := p.channels[ch := Marked(PowerOn(), ALL_GROUPS)],
                     stale := StaleAfterMark(p.voices, p.stale, ch, ALL_GROUPS),
                     marks := p.marks[ch := p.marks[ch] + 1], resets := p.resets[ch := p.resets[ch] + 1])
    ensures Evolves(p, q)
  {
    EveryGroup(p.channels[ch].dirtyGroups);
  }

  lemma EveryGroup(groups: set<Group>)
    ensures groups <= ALL_GROUPS
  {
    forall g | g in groups
      ensures g in ALL_GROUPS
    {
      match g
      case Gain =>
      case Pitch =>
      case Filter =>
    }
  }

  /** A slot taken over by a new voice, built from the channel as it is now. */
  lemma StartEvolves(p: Picture, q: Picture, v: int)
    requires Sized(p) && 0 <= v < |p.voices| && KeepsElsewhere(p.voices, q.voices, v)
    requires q == p.(voices := q.voices, stale := p.stale[v := {}], starts := p.starts[v := p.starts[v] + 1])
    ensures Evolves(p, q)
  {
  }

  lemma FreeEvolves(p: Picture, q: Picture, v: int)
    requires Sized(p) && 0 <= v < |p.voices| && KeepsElsewhere(p.voices, q.voices, v)
    requires q.voices[v].stage == Free && q.voices[v].generation == p.voices[v].generation
    requires q == p.(voices := q.voices)
    ensures Evolves(p, q)
  {
  }

  // ---- Starting notes ---------------------------------------------------------------------

  /** One matching zone of a note: its exclusive class, its starting motion, and whether its
      parameters can be computed from the asset. */
  datatype Layer = Layer(exclusiveClass: int, motion: Motion, materializes: bool)

  /** What the asset says about a program, key and velocity. */
  datatype Lookup = Unmapped | TooManyLayers | BadGenerators | Zones(presetIndex: int, layers: seq<Layer>)

  datatype Status = Ok | ArgumentError | RecordError | CapacityError | SinkError | StateError

  /** The record a layer writes over a slot last used with generation `g`. */
  function NewVoice(ch: ChannelIndex, note: int, presetIndex: int, instance: U32, layer: Layer,
                    g: U16, stamp: U32, position: int): Voice
  {
    Voice(Active, ch, note, layer.exclusiveClass, false, false, false,
          NextGeneration(g), position, presetIndex, instance, stamp, layer.motion)
  }

  /** An exclusive-class voice of the same preset, cut off by a new note. */
  predicate CutBy(v: Voice, layers: seq<Layer>, presetIndex: int)
  {
    exists i | 0 <= i < |layers| ::
      layers[i].exclusiveClass != 0 && v.exclusiveClass == layers[i].exclusiveClass && v.presetIndex == presetIndex
  }

  function AfterCut(v: Voice, layers: seq<Layer>, presetIndex: int): Voice
  {
    if v.stage != Free && CutBy(v, layers, presetIndex) then AfterRelease(v) else v
  }

  lemma CutStep(v: Voice, layers: seq<Layer>, k: nat, presetIndex: int)
    requires k < |layers|
    ensures var before, cls := AfterCut(v, layers[..k], presetIndex), layers[k].exclusiveClass;
            AfterCut(v, layers[..k + 1], presetIndex) ==
            if v.stage != Free && cls != 0 && before.exclusiveClass == cls && before.presetIndex == presetIndex
            then AfterRelease(before) else before
  {
    var a, b := layers[..k], layers[..k + 1];
    assert forall i | 0 <= i < k :: a[i] == b[i] == layers[i];
    if CutBy(v, a, presetIndex) {
      var i :| 0 <= i < |a| && a[i].exclusiveClass != 0 && v.exclusiveClass == a[i].exclusiveClass && v.presetIndex == presetIndex;
      assert b[i] == a[i];
      assert CutBy(v, b, presetIndex);
    }
    assert b[k] == layers[k];
  }

  /** What a started layer looks like afterwards. */
  predicate PlaysLayer(v: Voice, ch: ChannelIndex, note: int, presetIndex: int, instance: U32)
  {
    v.stage == Active && v.channel == ch && v.note == note && v.presetIndex == presetIndex
    && v.noteInstance == instance && !v.keyReleased && !v.sustainHeld && !v.sostenutoHeld
  }

  function CutVoices(vs: seq<Voice>, layers: seq<Layer>, presetIndex: int): (r: seq<Voice>)
    ensures |r| == |vs|
  {
    seq(|vs|, u requires 0 <= u < |vs| => AfterCut(vs[u], layers, presetIndex))
  }

  lemma CutSteps(vs: seq<Voice>, mid: seq<Voice>, layers: seq<Layer>, k: nat, presetIndex: int)
    requires k < |layers| && |mid| == |vs|
    requires forall u | 0 <= u < |vs| :: mid[u] == AfterCut(vs[u], layers[..k], presetIndex)
    ensures forall u | 0 <= u < |vs| ::
              var cls := layers[k].exclusiveClass;
              AfterCut(vs[u], layers[..k + 1], presetIndex) ==
              if mid[u].stage != Free && cls != 0 && mid[u].exclusiveClass == cls && mid[u].presetIndex == presetIndex
              then AfterRelease(mid[u]) else mid[u]
  {
    forall u | 0 <= u < |vs|
      ensures var cls := layers[k].exclusiveClass;
              AfterCut(vs[u], layers[..k + 1], presetIndex) ==
              if mid[u].stage != Free && cls != 0 && mid[u].exclusiveClass == cls && mid[u].presetIndex == presetIndex
              then AfterRelease(mid[u]) else mid[u]
    {
      CutStep(vs[u], layers, k, presetIndex);
    }
  }

  /** A halted release has released some voices and left the others alone. */
  lemma HaltedRelease(vs: seq<Voice>, vs': seq<Voice>, active: seq<int>, target: Voice -> bool)
    requires exists k :: Halted(vs, vs', active, k, ReleaseIf(target))
    ensures |vs'| == |vs| && forall u | 0 <= u < |vs| :: vs'[u] == vs[u] || vs'[u] == AfterRelease(vs[u])
  {
  }

  /** The listed slots play the note; every other voice is as before, but for its list position. */
  ghost predicate Layered(vs: seq<Voice>, vs': seq<Voice>, slots: seq<int>,
                          ch: ChannelIndex, note: int, presetIndex: int, instance: U32)
  {
    && |vs'| == |vs|
    && (forall i | 0 <= i < |slots| :: 0 <= slots[i] < |vs|)
    && forall u | 0 <= u < |vs| ::
         if u in slots then PlaysLayer(vs'[u], ch, note, presetIndex, instance)
         else KeepsVoiceElsewhere(vs[u], vs'[u])
  }

  lemma LayeredStep(vs: seq<Voice>, vs': seq<Voice>, vs'': seq<Voice>, slots: seq<int>, v: int,
                    ch: ChannelIndex, note: int, presetIndex: int, instance: U32)
    requires Layered(vs, vs', slots, ch, note, presetIndex, instance) && KeepsElsewhere(vs', vs'', v)
    requires 0 <= v < |vs''| && PlaysLayer(vs''[v], ch, note, presetIndex, instance)
    ensures Layered(vs, vs'', slots + [v], ch, note, presetIndex, instance)
  {
    forall u | 0 <= u < |vs|
      ensures if u in slots + [v] then PlaysLayer(vs''[u], ch, note, presetIndex, instance)
              else KeepsVoiceElsewhere(vs[u], vs''[u])
    {
      assert u != v ==> KeepsVoiceElsewhere(vs'[u], vs''[u]);
    }
  }

  /** One start command for each slot, in order. */
  ghost predicate StartsFor(commands: seq<Command>, slots: seq<int>)
  {
    |commands| == |slots| &&
    forall i | 0 <= i < |slots| :: commands[i].Start? && commands[i].voice == slots[i]
  }

  lemma StartsForNone()
    ensures StartsFor([], [])
  {
  }

  lemma StartsForStep(commands: seq<Command>, slots: seq<int>, v: int, g: U16)
    requires StartsFor(commands, slots)
    ensures StartsFor(commands + [Start(v, g)], slots + [v])
  {
  }

  lemma LayeredStart(vs: seq<Voice>, ch: ChannelIndex, note: int, presetIndex: int, instance: U32)
    ensures Layered(vs, vs, [], ch, note, presetIndex, instance)
  {
  }

  // ---- Controllers ------------------------------------------------------------------------

  /** Releases a voice no pedal holds any more. */
  function AfterDeferred(v: Voice, sustain: bool): Voice
  {
    if v.keyReleased && v.stage == SustainHeld && !sustain && !v.sostenutoHeld then AfterRelease(v) else v
  }

  function AfterSustain(v: Voice, was: bool, on: bool): Voice
  {
    if on then v else AfterDeferred(if was then v.(sustainHeld := false) else v, false)
  }

  function AfterSostenuto(v: Voice, was: bool, on: bool, sustain: bool): Voice
  {
    if on then (if !was && KeyDown(v) then v.(sostenutoHeld := true) else v)
    else AfterDeferred(if was then v.(sostenutoHeld := false) else v, sustain)
  }

  function AfterReset(v: Voice): Voice
  {
    AfterDeferred(v.(sustainHeld := false, sostenutoHeld := false), false)
  }

  /** What a controller message does to one voice of its channel. */
  function ControlVoice(v: Voice, c: Channel, controller: int, value: int): Voice
  {
    if controller == 64 then AfterSustain(v, c.sustain, value >= 64)
    else if controller == 66 then AfterSostenuto(v, c.sostenuto, value >= 64, c.sustain)
    else if controller == 120 then AfterStop(v)
    else if controller == 121 then AfterReset(v)
    else if controller >= 123 then (if KeyDown(v) then AfterKeyUp(v, c.sustain) else v)
    else v
  }

  /** What it does to the channel, before any dirty mark. */
  function ControlChannel(c: Channel, controller: int, value: int): Channel
    requires 0 <= controller <= 127 && 0 <= value <= 127
  {
    var stored := c.(cc := c.cc[controller := value]);
    if controller == 64 then stored.(sustain := value >= 64)
    else if controller == 66 then stored.(sostenuto := value >= 64)
    else if controller == 67 then stored.(soft := value >= 64)
    else stored
  }

  /** Which controllers only start or stop voices and leave no mark. */
  predicate Unmarked(controller: int) { controller == 120 || controller >= 123 }

  function AfterControl(c: Channel, controller: int, value: int): Channel
    requires 0 <= controller <= 127 && 0 <= value <= 127
  {
    if controller == 121 then Marked(PowerOn(), ALL_GROUPS)
    else if Unmarked(controller) then ControlChannel(c, controller, value)
    else Marked(ControlChannel(c, controller, value), ALL_GROUPS)
  }

  function ControlVoices(vs: seq<Voice>, ch: ChannelIndex, c: Channel, controller: int, value: int): seq<Voice>
  {
    OnChannel(vs, ch, v => ControlVoice(v, c, controller, value))
  }

  /** The stored value is written before the message is obeyed; that changes nothing. */
  lemma StoredFirst(vs: seq<Voice>, cs: seq<Channel>, ch: ChannelIndex, controller: int, value: int)
    requires |cs| == CHANNEL_COUNT && 0 <= controller <= 127 && 0 <= value <= 127
    ensures var c := cs[ch].(cc := cs[ch].cc[controller := value]);
            && ControlVoices(vs, ch, c, controller, value) == ControlVoices(vs, ch, cs[ch], controller, value)
            && ControlChannel(c, controller, value) == ControlChannel(cs[ch], controller, value)
  {
    hide OnChannel;
    var c := cs[ch].(cc := cs[ch].cc[controller := value]);
    OnChannelAgree(vs, ch, v => ControlVoice(v, c, controller, value), v => ControlVoice(v, cs[ch], controller, value));
    assert cs[ch].cc[controller := value][controller := value] == cs[ch].cc[controller := value];
  }

  /** No controller leaves a note hanging. */
  lemma ControlKeepsQuiet(vs: seq<Voice>, cs: seq<Channel>, ch: ChannelIndex, controller: int, value: int)
    requires |cs| == CHANNEL_COUNT && NoHangingNotes(vs, cs)
    requires 0 <= controller <= 127 && 0 <= value <= 127
    ensures NoHangingNotes(ControlVoices(vs, ch, cs[ch], controller, value),
                           cs[ch := AfterControl(cs[ch], controller, value)])
  {
    var vs', cs' := ControlVoices(vs, ch, cs[ch], controller, value), cs[ch := AfterControl(cs[ch], controller, value)];
    forall u | 0 <= u < |vs'|
      ensures Justified(vs'[u], cs'[vs'[u].channel])
    {
      assert Justified(vs[u], cs[vs[u].channel]);
    }
  }

  /** Which voices a key could be holding down. */
  predicate Plays(v: Voice, ch: ChannelIndex, note: int)
  {
    KeyDown(v) && v.channel == ch && v.note == note
  }

  lemma LiftKeepsQuiet(vs: seq<Voice>, vs': seq<Voice>, cs: seq<Channel>, ch: ChannelIndex, target: Voice -> bool)
    requires |cs| == CHANNEL_COUNT && NoHangingNotes(vs, cs) && |vs'| == |vs|
    requires forall v :: target(v) ==> v.channel == ch
    requires forall u | 0 <= u < |vs| ::
               vs'[u] == if vs[u].stage != Free then LiftIf(target, cs[ch].sustain).effect(vs[u]) else vs[u]
    ensures NoHangingNotes(vs', cs)
  {
    forall u | 0 <= u < |vs'|
      ensures Justified(vs'[u], cs[vs'[u].channel])
    {
      assert Justified(vs[u], cs[vs[u].channel]);
    }
  }

  lemma ElsewhereKeepsQuiet(vs: seq<Voice>, vs': seq<Voice>, cs: seq<Channel>, v: int)
    requires |cs| == CHANNEL_COUNT && NoHangingNotes(vs, cs) && KeepsElsewhere(vs, vs', v)
    requires 0 <= v < |vs'| && Justified(vs'[v], cs[vs'[v].channel])
    ensures NoHangingNotes(vs', cs)
  {
    forall u | 0 <= u < |vs'|
      ensures Justified(vs'[u], cs[vs'[u].channel])
    {
      assert u != v ==> KeepsVoiceElsewhere(vs[u], vs'[u]) && Justified(vs[u], cs[vs[u].channel]);
    }
  }

  lemma ReleaseKeepsQuiet(vs: seq<Voice>, vs': seq<Voice>, cs: seq<Channel>)
    requires |cs| == CHANNEL_COUNT && NoHangingNotes(vs, cs) && |vs'| == |vs|
    requires forall u | 0 <= u < |vs| :: vs'[u] == vs[u] || vs'[u] == AfterRelease(vs[u])
    ensures NoHangingNotes(vs', cs)
  {
    forall u | 0 <= u < |vs'|
      ensures Justified(vs'[u], cs[vs'[u].channel])
    {
      assert Justified(vs[u], cs[vs[u].channel]);
    }
  }

  /** A note off: the keys down on that note with the smallest instance number are lifted, and
      nothing else moves. While instance numbers have not wrapped these are exactly the layers of
      one Note On of that key. */
  ghost predicate LiftsOldest(vs: seq<Voice>, vs': seq<Voice>, issued: nat, ch: ChannelIndex, note: int, sustain: bool)
  {
    |vs'| == |vs| &&
    if exists u | 0 <= u < |vs| :: Plays(vs[u], ch, note) && vs[u].noteInstance != U32_LIMIT then
      exists oldest: U32 ::
        && (exists u | 0 <= u < |vs| :: Plays(vs[u], ch, note) && vs[u].noteInstance == oldest)
        && (forall u | 0 <= u < |vs| && Plays(vs[u], ch, note) :: oldest <= vs[u].noteInstance)
        && LiftsInstance(vs, vs', ch, oldest, sustain)
        && (issued < U32_LIMIT ==>
              forall u | 0 <= u < |vs| && vs[u].stage != Free && vs[u].noteInstance == oldest ::
                vs[u].channel == ch && vs[u].note == note)
    else vs' == vs
  }

  ghost predicate LiftsInstance(vs: seq<Voice>, vs': seq<Voice>, ch: ChannelIndex, instance: U32, sustain: bool)
    requires |vs'| == |vs|
  {
    forall u | 0 <= u < |vs| ::
      vs'[u] == if KeyDown(vs[u]) && vs[u].channel == ch && vs[u].noteInstance == instance
                then AfterKeyUp(vs[u], sustain) else vs[u]
  }

  /** A refused release leaves a voice with its key up and nothing done about it. */
  predicate Strands(v: Voice, v': Voice, ch: ChannelIndex, instance: U32)
  {
    KeyDown(v) && v.channel == ch && v.noteInstance == instance && v' == v.(keyReleased := true)
  }

  ghost predicate LeavesStuck(vs: seq<Voice>, vs': seq<Voice>, ch: ChannelIndex)
  {
    |vs'| == |vs| && exists u | 0 <= u < |vs| :: Strands(vs[u], vs'[u], ch, vs[u].noteInstance)
  }

  lemma HaltedLift(vs: seq<Voice>, vs': seq<Voice>, active: seq<int>, k: int, target: Voice -> bool, sustain: bool)
    requires Halted(vs, vs', active, k, LiftIf(target, sustain))
    ensures |vs'| == |vs| && 0 <= k < |active| && 0 <= active[k] < |vs|
    ensures target(vs[active[k]]) && KeyDown(vs[active[k]]) && vs'[active[k]] == vs[active[k]].(keyReleased := true)
  {
  }

  /** A hanging voice: it sounds as if its key were down, but the key is up. */
  predicate Stuck(v: Voice) { v.stage == Active && v.keyReleased }

  /** Neither a pedal nor a key was the reason it sounds, and a refused note off is how it comes
      about. */
  lemma StrandedIsStuck(v: Voice, v': Voice, c: Channel, ch: ChannelIndex, instance: U32)
    requires Justified(v, c) && Strands(v, v', ch, instance)
    ensures Stuck(v') && forall c': Channel :: !Justified(v', c')
  {
  }

  /** No later note off reaches it, and of all controller messages only All Sound Off does. */
  lemma StuckStays(vs: seq<Voice>, vs': seq<Voice>, issued: nat, ch: ChannelIndex, note: int, c: Channel, u: int)
    requires 0 <= u < |vs| && Stuck(vs[u])
    ensures LiftsOldest(vs, vs', issued, ch, note, c.sustain) ==> |vs'| == |vs| && vs'[u] == vs[u]
    ensures forall controller, value :: Stuck(ControlVoice(vs[u], c, controller, value)) <==> controller != 120
  {
  }

  /** The scan's result decides what the sweep lifts. */
  lemma LiftsFromScan(vs: seq<Voice>, vs': seq<Voice>, l: Ledger, ch: ChannelIndex, note: int, sustain: bool, oldest: U32)
    requires Tables(vs, l, {}) && |vs'| == |vs|
    requires forall u | 0 <= u < |vs| && Plays(vs[u], ch, note) :: oldest <= vs[u].noteInstance
    requires oldest == U32_LIMIT ==> vs' == vs
    requires oldest != U32_LIMIT ==>
               && (exists u | 0 <= u < |vs| :: Plays(vs[u], ch, note) && vs[u].noteInstance == oldest)
               && LiftsInstance(vs, vs', ch, oldest, sustain)
    ensures LiftsOldest(vs, vs', l.issued, ch, note, sustain)
  {
    hide Partition, Ages, Owners, WellTagged, LiftsInstance;
    if oldest != U32_LIMIT {
      var w :| 0 <= w < |vs| && Plays(vs[w], ch, note) && vs[w].noteInstance == oldest;
      assert l.issued < U32_LIMIT ==>
          forall u | 0 <= u < |vs| && vs[u].stage != Free && vs[u].noteInstance == oldest ::
            vs[u].channel == vs[w].channel && vs[u].note == vs[w].note;
    }
  }

  lemma NobodyListed(vs: seq<Voice>, l: Ledger)
    requires Tables(vs, l, {}) && l.active == []
    ensures AllFree(vs)
  {
  }

  ghost predicate AllFree(vs: seq<Voice>)
  {
    forall u | 0 <= u < |vs| :: vs[u].stage == Free
  }

  lemma ListedOnce(vs: seq<Voice>, l: Ledger, k: int)
    requires Tables(vs, l, {}) && 0 <= k < |l.active|
    ensures forall u | 0 <= u < |vs| && vs[u].stage != Free && vs[u].activePosition == k :: u == l.active[k]
  {
  }

  lemma AllListed(vs: seq<Voice>, l: Ledger)
    requires Tables(vs, l, {})
    ensures forall u | 0 <= u < |vs| && vs[u].stage != Free :: Passed(vs[u], |l.active|) && !Passed(vs[u], 0)
  {
  }

  lemma LayersKeepQuiet(vs: seq<Voice>, vs': seq<Voice>, cs: seq<Channel>, slots: seq<int>,
                        ch: ChannelIndex, note: int, presetIndex: int, instance: U32)
    requires |cs| == CHANNEL_COUNT && NoHangingNotes(vs, cs)
    requires Layered(vs, vs', slots, ch, note, presetIndex, instance)
    ensures NoHangingNotes(vs', cs)
  {
    forall u | 0 <= u < |vs'|
      ensures Justified(vs'[u], cs[vs'[u].channel])
    {
      assert u !in slots ==> KeepsVoiceElsewhere(vs[u], vs'[u]) && Justified(vs[u], cs[vs[u].channel]);
    }
  }

  // ---- Control jobs -----------------------------------------------------------------------

  /** What a control job remembers of one voice when it starts. */
  datatype Snap = Snap(generation: U16, active: bool, released: bool)

  function SnapOf(v: Voice): Snap
  {
    Snap(v.generation, v.stage != Free, v.stage == Released)
  }

  /** A snapshot agrees with the picture it was taken from. */
  ghost predicate Remembers(o: Picture, snaps: seq<Snap>, revisions: seq<U32>)
  {
    && Sized(o) && |snaps| == |o.voices| && |revisions| == CHANNEL_COUNT
    && (forall v | 0 <= v < |snaps| :: snaps[v] == SnapOf(o.voices[v]))
    && (forall c: ChannelIndex :: revisions[c] == o.channels[c].dirtyRevision)
  }

  /** Whether a slice advances a voice. */
  predicate Eligible(s: Snap, v: Voice)
  {
    s.active && !s.released && v.stage != Free && v.generation == s.generation
  }

  /** What a slice has done once it has handled its first `done` voices: those that are still the
      job's have moved by the elapsed ticks and been sent whatever their channel has marked. If the
      sink refused a command of the next one, that one has moved up to the moment of sending.
      Nothing else a control job depends on has changed. */
  ghost predicate Sliced(p: Picture, q: Picture, snaps: seq<Snap>, first: int, done: nat, elapsed: U32, refused: bool)
  {
    && Sized(p) && |snaps| == |p.voices| == |q.voices| && |q.stale| == |q.advances| == |p.stale| && 0 <= first && elapsed >= 1
    && q == p.(voices := q.voices, stale := q.stale, advances := q.advances)
    && forall v | 0 <= v < |p.voices| :: SlotSliced(p, q, snaps, first, done, elapsed, refused, v)
  }

  ghost predicate SlotSliced(p: Picture, q: Picture, snaps: seq<Snap>, first: int, done: nat, elapsed: U32, refused: bool, v: int)
    requires |snaps| == |p.voices| == |q.voices| == |q.stale| == |p.stale| == |p.advances| == |q.advances|
    requires |p.channels| == CHANNEL_COUNT && 0 <= v < |p.voices| && elapsed >= 1
  {
    var x := p.voices[v];
    var served := first <= v < first + done && Eligible(snaps[v], x);
    var half := refused && v == first + done && Eligible(snaps[v], x);
    && q.voices[v] == x.(motion := if served then Moved(x.motion, elapsed)
                                   else if half then MovedToSend(x.motion, elapsed) else x.motion)
    && q.advances[v] == p.advances[v] + (if served || half then 1 else 0)
    && q.stale[v] <= p.stale[v]
    && (served ==> q.stale[v] !! p.channels[x.channel].dirtyGroups)
  }

  lemma SlicedNothing(p: Picture, snaps: seq<Snap>, first: int, elapsed: U32)
    requires Sized(p) && |snaps| == |p.voices| && 0 <= first && elapsed >= 1
    ensures Sliced(p, p, snaps, first, 0, elapsed, false)
  {
  }

  /** One more voice that is no longer the job's. */
  lemma SlicedSkip(p: Picture, q: Picture, snaps: seq<Snap>, first: int, done: nat, elapsed: U32)
    requires Sliced(p, q, snaps, first, done, elapsed, false) && first + done < |p.voices|
    requires !Eligible(snaps[first + done], q.voices[first + done])
    ensures Sliced(p, q, snaps, first, done + 1, elapsed, false)
  {
    var next := done + 1;
    forall v | 0 <= v < |p.voices|
      ensures SlotSliced(p, q, snaps, first, next, elapsed, false, v)
    {
      assert SlotSliced(p, q, snaps, first, done, elapsed, false, v);
    }
  }

  /** One more voice that has been advanced, or has met a full sink. */
  lemma SlicedStep(p: Picture, q: Picture, r: Picture, snaps: seq<Snap>, first: int, done: nat, elapsed: U32, ok: bool)
    requires Sliced(p, q, snaps, first, done, elapsed, false) && first + done < |p.voices|
    requires Eligible(snaps[first + done], q.voices[first + done])
    requires |r.voices| == |q.voices| && |r.stale| == |q.stale| && |r.advances| == |q.advances|
    requires var v := first + done; var x := q.voices[v];
             && r == q.(voices := q.voices[v := x.(motion := if ok then Moved(x.motion, elapsed) else MovedToSend(x.motion, elapsed))],
                        stale := q.stale[v := r.stale[v]], advances := q.advances[v := q.advances[v] + 1])
             && r.stale[v] <= q.stale[v] && (ok ==> r.stale[v] !! q.channels[x.channel].dirtyGroups)
    ensures Sliced(p, r, snaps, first, if ok then done + 1 else done, elapsed, !ok)
  {
    hide Moved, MovedToSend;
    var next, refused := if ok then done + 1 else done, !ok;
    forall v | 0 <= v < |p.voices|
      ensures SlotSliced(p, r, snaps, first, next, elapsed, refused, v)
    {
      assert SlotSliced(p, q, snaps, first, done, elapsed, false, v);
    }
  }

  /** The update commands of a voice for some families, pitch before gain before filter. */
  function Updates(v: int, generation: U16, groups: set<Group>): seq<Command>
  {
    (if Pitch in groups then [Update(v, generation, Pitch)] else [])
    + (if Gain in groups then [Update(v, generation, Gain)] else [])
    + (if Filter in groups then [Update(v, generation, Filter)] else [])
  }

  /** The families a control advance sends for a voice, if their values have changed. */
  function GroupsOf(p: Picture, v: int, enabled: bool, tickIndex: U32, elapsed: U32): set<Group>
    requires Sized(p) && 0 <= v < |p.voices|
  {
    GroupsToPublish(p.channels[p.voices[v].channel].dirtyGroups, p.voices[v].motion.periodic, enabled, tickIndex, elapsed)
  }

  /** Everything a slice sends. `changed` tells for each voice whose values have changed. */
  function SliceUpdates(p: Picture, snaps: seq<Snap>, first: nat, done: nat, changed: int -> set<Group>,
                        enabled: bool, tickIndex: U32, elapsed: U32): seq<Command>
    requires Sized(p) && |snaps| == |p.voices| && first + done <= |p.voices|
  {
    if done == 0 then []
    else
      var v := first + done - 1;
      SliceUpdates(p, snaps, first, done - 1, changed, enabled, tickIndex, elapsed)
      + if Eligible(snaps[v], p.voices[v])
        then Updates(v, p.voices[v].generation, GroupsOf(p, v, enabled, tickIndex, elapsed) * changed(v)) else []
  }

  /** Pitch, gain and filter are all there is. */
  lemma GroupByGroup(s: set<Group>, groups: set<Group>)
    ensures s - {Pitch} * groups - {Gain} * groups - {Filter} * groups == s - groups
  {
    forall g | g in groups
      ensures g in {Pitch} + {Gain} + {Filter}
    {
      match g
      case Gain =>
      case Pitch =>
      case Filter =>
    }
  }

  /** Clearing the marks of every channel whose revision is still the one remembered. */
  function Cleared(cs: seq<Channel>, revisions: seq<U32>): (r: seq<Channel>)
    requires |revisions| == |cs|
    ensures |r| == |cs|
  {
    seq(|cs|, c requires 0 <= c < |cs| =>
          if cs[c].dirtyRevision == revisions[c] then cs[c].(dirtyGroups := {}) else cs[c])
  }
}
