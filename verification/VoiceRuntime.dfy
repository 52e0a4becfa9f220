/**
 The voice runtime: slot allocation and stealing, keys, pedals and channel state, and the command
 stream they produce. Every call may be cut short by the command sink refusing a command.
 */
module VoiceRuntime {
  import opened CInt
  import opened Channels
  import opened Lifecycle
  import Envelope
  import opened Stealing
  import opened Wrappers

  class Runtime {
    const capacity: int
    const voices: array<Voice>
    const freeStack: array<int>
    const activeIndices: array<int>
    const channels: array<Channel>
    var freeCount: int
    var activeCount: int
    var nextNoteInstance: U32
    var allocationStamp: U32
    var activeVoicesStat: int
    var periodicEnabled: bool
    var tickIndex: U32

    /** Commands the sink has accepted, how often it refused one, and the counters that never wrap. */
    ghost var wire: seq<Command>
    ghost var refusals: nat
    ghost var freePos: seq<int>
    ghost var issued: nat
    ghost var births: nat
    ghost var bornAt: seq<nat>
    /** Families each voice has not been sent since its channel last changed them. */
    ghost var stale: seq<set<Group>>
    ghost var starts: seq<nat>
    ghost var advances: seq<nat>
    ghost var marks: seq<nat>
    ghost var resets: seq<nat>

    ghost predicate Shape()
      reads this
    {
      && 0 < capacity <= MAX_VOICES
      && voices.Length == freeStack.Length == capacity && activeIndices.Length == MAX_VOICES
      && channels.Length == CHANNEL_COUNT && freeStack != activeIndices
      && 0 <= freeCount <= capacity && 0 <= activeCount <= capacity
      && |stale| == |starts| == |advances| == |bornAt| == capacity && |marks| == |resets| == CHANNEL_COUNT
      && allocationStamp == ToU32(births)
      && (issued < U32_LIMIT ==> nextNoteInstance == issued)
    }

    ghost function Book(): Ledger
      reads this, freeStack, activeIndices
      requires 0 <= freeCount <= freeStack.Length && 0 <= activeCount <= activeIndices.Length
    {
      Ledger(freeStack[..freeCount], activeIndices[..activeCount], freePos, wire, issued, births, bornAt)
    }

    /** The slots are divided between the lists, the counter agrees, and the command stream names
        the owner of every slot. This holds whatever the sink does. */
    ghost predicate Valid()
      reads this, voices, freeStack, activeIndices
    {
      && Shape()
      && activeVoicesStat == activeCount
      && Tables(voices[..], Book(), {})
    }

    ghost function View(): Picture
      reads this, voices, channels
    {
      Picture(voices[..], channels[..], stale, starts, advances, marks, resets)
    }

    /** Every sounding voice is justified by its key or a pedal. */
    ghost predicate Quiet()
      reads this, voices, channels
      requires channels.Length == CHANNEL_COUNT
    {
      NoHangingNotes(voices[..], channels[..])
    }

    constructor (capacity: int)
      requires 0 < capacity <= MAX_VOICES
      ensures Valid() && Quiet() && NoLostMark(View())
      ensures this.capacity == capacity && freeCount == capacity && wire == []
      ensures fresh(voices) && fresh(freeStack) && fresh(activeIndices) && fresh(channels)
    {
      this.capacity := capacity;
      var stack := new int[capacity](i => capacity - 1 - i);
      var slots := new Voice[capacity](_ => SILENT);
      var list := new int[MAX_VOICES](_ => 0);
      var states := new Channel[CHANNEL_COUNT](_ => PowerOn());
      voices, freeStack, activeIndices, channels := slots, stack, list, states;
      freeCount, activeCount, nextNoteInstance, allocationStamp := capacity, 0, 0, 0;
      activeVoicesStat, periodicEnabled, tickIndex := 0, true, 0;
      wire, refusals, issued, births := [], 0, 0, 0;
      freePos := seq(capacity, i => capacity - 1 - i);
      bornAt, stale := seq(capacity, _ => 0), seq(capacity, _ => {});
      starts, advances := seq(capacity, _ => 0), seq(capacity, _ => 0);
      marks, resets := seq(CHANNEL_COUNT, _ => 0), seq(CHANNEL_COUNT, _ => 0);
      new;
      hide Tables, NoHangingNotes, NoLostMark;
      assert freePos == freeStack[..freeCount] && activeIndices[..activeCount] == [];
      InitialTables(voices[..], freePos, bornAt);
      InitialQuiet(View());
    }

    /** The sink takes or refuses one complete command. */
    method Emit(c: Command) returns (ok: bool)
      modifies this`wire, this`refusals
      ensures ok ==> wire == old(wire) + [c]
      ensures !ok ==> wire == old(wire)
      ensures refusals == old(refusals) + if ok then 0 else 1
    {
      ok := *;
      if ok {
        wire := wire + [c];
      } else {
        refusals := refusals + 1;
      }
    }

    // ---- One voice ------------------------------------------------------------------------

    /** Rewrites the fields of an occupied voice that neither slot accounting nor the FPGA depend
        on. */
    method SetVoice(v: int, x: Voice)
      requires Valid() && 0 <= v < capacity && KeepsVoice(voices[v], x)
      requires x.stage == Released <==> voices[v].stage == Released
      modifies voices
      ensures Valid() && voices[..] == old(voices[..])[v := x] && KeepsVoices(old(voices[..]), voices[..])
    {
      hide Tables, KeepsVoices;
      ghost var vs := voices[..];
      voices[v] := x;
      assert voices[..] == vs[v := x];
      KeepsOne(vs, v, x);
      TablesKept(vs, Book(), v, x);
    }

    /** Releases or stops a voice once the sink has taken the command. */
    method Silence(v: int, x: Voice, c: Command) returns (ok: bool)
      requires Valid() && 0 <= v < capacity && voices[v].stage != Free && KeepsVoice(voices[v], x)
      requires x.stage == Released && (c == Release(v, x.generation) || c == Stop(v, x.generation))
      modifies voices, this`wire, this`refusals
      ensures Valid() && KeepsVoices(old(voices[..]), voices[..])
      ensures ok ==> voices[..] == old(voices[..])[v := x] && wire == old(wire) + [c]
      ensures !ok ==> voices[..] == old(voices[..]) && wire == old(wire)
      ensures refusals == old(refusals) + if ok then 0 else 1
    {
      hide Tables, KeepsVoices;
      ghost var vs, book := voices[..], Book();
      KeepsSelf(vs);
      ok := Emit(c);
      if !ok {
        assert Book() == book;
        return;
      }
      voices[v] := x;
      assert voices[..] == vs[v := x] && Book() == book.(wire := wire);
      KeepsOne(vs, v, x);
      TablesSilence(vs, book, v, x, c);
    }

    /** One step of a sweep. A refused command leaves the prepared voice. */
    method Act(v: int, a: Action) returns (ok: bool)
      requires Valid() && 0 <= v < capacity && Lawful(a) && voices[v].stage != Free
      modifies voices, this`wire, this`refusals
      ensures Valid() && KeepsVoices(old(voices[..]), voices[..])
      ensures ok ==> voices[..] == old(voices[..])[v := a.effect(old(voices[v]))]
      ensures ok ==> wire == old(wire) + ToSeq(a.command(v, old(voices[v])))
      ensures !ok ==> wire == old(wire) && a.command(v, old(voices[v])).Some?
      ensures !ok ==> voices[..] == old(voices[..])[v := a.prepare(old(voices[v]))]
      ensures refusals == old(refusals) + if ok then 0 else 1
    {
      hide Tables, KeepsVoices;
      ghost var vs := voices[..];
      var x := voices[v];
      assert KeepsVoice(x, a.prepare(x)) && KeepsVoice(a.prepare(x), a.effect(x));
      SetVoice(v, a.prepare(x));
      ghost var prepared := voices[..];
      if a.command(v, x).Some? {
        ok := Silence(v, a.effect(x), a.command(v, x).value);
      } else {
        SetVoice(v, a.effect(x));
        ok := true;
      }
      KeepsTransitive(vs, prepared, voices[..]);
    }

    // ---- Sweeps along the active list -----------------------------------------------------

    /** Applies an action to every listed voice, in list order, until a command is refused. */
    method Sweep(a: Action) returns (ok: bool)
      requires Valid() && Lawful(a)
      modifies voices, this`wire, this`refusals
      ensures Valid() && KeepsVoices(old(voices[..]), voices[..])
      ensures forall i | 0 <= i < |old(Book()).active| :: 0 <= old(Book()).active[i] < capacity
      ensures ok ==> forall u | 0 <= u < capacity ::
                voices[u] == if old(voices[u]).stage != Free then a.effect(old(voices[u])) else old(voices[u])
      ensures ok ==> wire == old(wire) + CommandsOf(old(voices[..]), old(Book()).active, a)
      ensures !ok ==> exists k :: Halted(old(voices[..]), voices[..], old(Book()).active, k, a)
      ensures Book() == old(Book()).(wire := wire)
      ensures (forall v, x :: a.command(v, x) == None) ==> ok
      ensures refusals == old(refusals) + if ok then 0 else 1
    {
      hide Tables, SweptTo, KeepsVoices, Lawful, CommandsOf, ToSeq;
      ghost var vs, book := voices[..], Book();
      SweepEnds(vs, book, a.effect);
      CommandsStart(vs, book.active, a);
      KeepsSelf(vs);
      var active := 0;
      while active < activeCount
        invariant 0 <= active <= activeCount
        invariant Valid() && KeepsVoices(vs, voices[..]) && Book() == book.(wire := wire)
        invariant voices[..] == SweptTo(vs, active, a.effect)
        invariant wire == old(wire) + CommandsOf(vs, book.active[..active], a) && refusals == old(refusals)
      {
        SweepStep(vs, book, active, a.effect);
        CommandsStep(vs, book.active, active, a);
        var v := activeIndices[active];
        assert voices[v] == voices[..][v] == vs[v] && v == book.active[active];
        ghost var before := voices[..];
        ok := Act(v, a);
        KeepsTransitive(vs, before, voices[..]);
        if !ok {
          assert Halted(vs, voices[..], book.active, active, a);
          return;
        }
        active := active + 1;
      }
      ok := true;
    }

    // ---- Allocation -----------------------------------------------------------------------

    /** Drops one list position by moving the last entry into it. */
    method Unlist(position: int) returns (replacement: int)
      requires Shape() && 0 <= position < activeCount
      modifies activeIndices, this`activeCount
      ensures activeCount == old(activeCount) - 1 && replacement == old(activeIndices[activeCount - 1])
      ensures activeIndices[..activeCount] == old(activeIndices[..activeCount])[position := replacement][..activeCount]
    {
      activeCount := activeCount - 1;
      replacement := activeIndices[activeCount];
      activeIndices[position] := replacement;
    }

    method Vacate(v: int, replacement: int, position: int)
      requires 0 <= v < voices.Length && 0 <= replacement < voices.Length
      modifies voices
      ensures var moved := old(voices[..])[replacement := old(voices[replacement]).(activePosition := position)];
              voices[..] == moved[v := moved[v].(stage := Free)]
    {
      voices[replacement] := voices[replacement].(activePosition := position);
      voices[v] := voices[v].(stage := Free);
    }

    method PushFree(v: int)
      requires Shape() && freeCount < capacity && 0 <= v < |freePos|
      modifies freeStack, this`freeCount, this`freePos
      ensures freeCount == old(freeCount) + 1 && freePos == old(freePos)[v := old(freeCount)]
      ensures freeStack[..freeCount] == old(freeStack[..freeCount]) + [v]
    {
      freeStack[freeCount] := v;
      freePos := freePos[v := freeCount];
      freeCount := freeCount + 1;
    }

    method ReclaimVoice(v: int)
      requires Valid() && 0 <= v < capacity
      modifies voices, freeStack, activeIndices, this`freeCount, this`activeCount, this`activeVoicesStat, this`freePos
      ensures Valid()
      ensures old(voices[v]).stage == Free ==> voices[..] == old(voices[..]) && Book() == old(Book())
      ensures old(voices[v]).stage != Free ==>
                && 0 <= old(voices[v]).activePosition < old(activeCount) && v < |old(freePos)|
                && 0 <= old(activeIndices[activeCount - 1]) < capacity
                && voices[..] == Reclaimed(old(voices[..]), old(Book()).active, v)
                && Book() == Unlisted(old(Book()), old(voices[v]).activePosition, v)
                && KeepsElsewhere(old(voices[..]), voices[..], v)
    {
      hide Tables, KeepsElsewhere, ToU32;
      if voices[v].stage == Free {
        return;
      }
      ghost var vs, book := voices[..], Book();
      ReclaimTables(vs, book, v);
      var position := voices[v].activePosition;
      var replacement := Unlist(position);
      Vacate(v, replacement, position);
      PushFree(v);
      activeVoicesStat := activeVoicesStat - 1;
      assert Shape();
      assert Book() == Unlisted(book, position, v);
    }

    /** Scans the active list for the voice to steal. */
    method FindVictim() returns (victim: int)
      requires Valid() && activeCount > 0
      ensures forall i | 0 <= i < activeCount :: 0 <= activeIndices[i] < capacity
      ensures 0 <= victim < capacity && voices[victim].stage != Free
      ensures IsVictim(voices[..], Book().active, victim)
    {
      hide Tables, IsVictim, MayReplace;
      ghost var vs, book := voices[..], Book();
      forall i | 0 <= i < |book.active|
        ensures 0 <= book.active[i] < capacity && vs[book.active[i]].stage != Free
      {
        Listed(vs, book, i);
      }
      victim := activeIndices[0];
      VictimStart(vs, book.active);
      var index := 1;
      while index < activeCount
        invariant 1 <= index <= activeCount
        invariant 0 <= victim < capacity && IsVictim(vs, book.active[..index], victim)
      {
        var candidate := activeIndices[index];
        VictimStep(vs, book.active, index, victim);
        if MayReplace(voices[candidate], voices[victim]) {
          victim := candidate;
        }
        index := index + 1;
      }
      VictimListed(vs, book.active, victim);
    }

    /** Between allocation and publication the taken slot is on neither list. */
    ghost predicate Holding(v: int)
      reads this, voices, freeStack, activeIndices
    {
      && Shape() && 0 <= v < capacity
      && activeVoicesStat == activeCount
      && Tables(voices[..], Book(), {v})
    }

    method PopFree() returns (v: int)
      requires Valid() && freeCount > 0
      modifies this`freeCount
      ensures Holding(v) && v == old(freeStack[freeCount - 1]) && voices[v].stage == Free
      ensures Book() == old(Book()).(free := old(Book()).free[..old(freeCount) - 1])
    {
      hide Tables;
      PopTables(voices[..], Book());
      ghost var book := Book();
      freeCount := freeCount - 1;
      v := freeStack[freeCount];
      assert freeStack[..freeCount] == book.free[..|book.free| - 1];
    }

    /** Reclaims the victim's slot and takes it off the stack again. */
    method StealVoice() returns (v: int)
      requires Valid() && freeCount == 0
      modifies voices, freeStack, activeIndices, this`freeCount, this`activeCount, this`activeVoicesStat, this`freePos
      ensures Holding(v) && voices[v].stage == Free && voices[v].generation == old(voices[v]).generation
      ensures KeepsElsewhere(old(voices[..]), voices[..], v)
      ensures (forall i | 0 <= i < |old(Book()).active| :: 0 <= old(Book()).active[i] < capacity)
              && IsVictim(old(voices[..]), old(Book()).active, v)
      ensures activeCount == old(activeCount) - 1 && 0 <= old(voices[v]).activePosition < |old(Book()).active|
      ensures Book().free == [] && Book().active == Without(old(Book()).active, old(voices[v]).activePosition)
    {
      hide Tables, KeepsElsewhere, IsVictim;
      ghost var vs := voices[..];
      SomeoneListed(vs, Book());
      var victim := FindVictim();
      ghost var list := Book().active;
      ReclaimVoice(victim);
      assert |Book().active| == activeCount == |list| - 1;
      assert Book().free == [victim] && Book().free[freeCount - 1] == victim;
      v := PopFree();
      assert v == victim && voices[..] == Reclaimed(vs, list, victim);
    }

    /** Takes the top of the free stack, or steals a voice when there is none. */
    method AllocateVoice() returns (v: int)
      requires Valid()
      modifies voices, freeStack, activeIndices, this`freeCount, this`activeCount, this`activeVoicesStat, this`freePos
      ensures Holding(v) && voices[v].stage == Free && voices[v].generation == old(voices[v]).generation
      ensures KeepsElsewhere(old(voices[..]), voices[..], v)
      ensures old(freeCount) > 0 ==> v == old(freeStack[freeCount - 1]) && voices[..] == old(voices[..])
      ensures old(freeCount) == 0 ==>
                && (forall i | 0 <= i < |old(Book()).active| :: 0 <= old(Book()).active[i] < capacity)
                && IsVictim(old(voices[..]), old(Book()).active, v)
      ensures activeCount == old(activeCount) - (if old(freeCount) == 0 then 1 else 0)
      ensures old(freeCount) > 0 ==> Book().free == old(Book()).free[..old(freeCount) - 1] && Book().active == old(Book()).active
      ensures old(freeCount) == 0 ==>
                && 0 <= old(voices[v]).activePosition < |old(Book()).active|
                && Book().free == [] && Book().active == Without(old(Book()).active, old(voices[v]).activePosition)
    {
      hide Tables, KeepsElsewhere, IsVictim, Without;
      ghost var vs := voices[..];
      if freeCount != 0 {
        v := PopFree();
        NothingElsewhere(vs, v);
      } else {
        v := StealVoice();
      }
    }

    lemma NothingElsewhere(vs: seq<Voice>, v: int)
      ensures KeepsElsewhere(vs, vs, v)
    {
    }

    lemma SomeoneListed(vs: seq<Voice>, book: Ledger)
      requires Tables(vs, book, {}) && |vs| > 0 && book.free == []
      ensures |book.active| > 0
    {
    }

    /** Writes a record into the taken slot; a fresh record has been sent nothing stale. */
    method WriteRecord(v: int, x: Voice)
      requires Holding(v)
      modifies voices, this`stale, this`starts
      ensures Holding(v) && voices[..] == old(voices[..])[v := x]
      ensures stale == old(stale)[v := {}] && starts == old(starts)[v := old(starts)[v] + 1]
    {
      hide Tables;
      ghost var vs := voices[..];
      FillHole(vs, Book(), v, x);
      voices[v] := x;
      assert voices[..] == vs[v := x];
      stale, starts := stale[v := {}], starts[v := starts[v] + 1];
    }

    /** Gives an unpublished slot back; the stamp it drew stays used. */
    method Abandon(v: int)
      requires Holding(v)
      modifies voices, freeStack, this`freeCount, this`freePos, this`births, this`allocationStamp
      ensures Valid() && births == old(births) + 1
      ensures voices[..] == old(voices[..])[v := old(voices[v]).(stage := Free)]
    {
      hide Tables;
      ghost var vs, book := voices[..], Book();
      AbandonTables(vs, book, v);
      DrawStamp();
      voices[v] := voices[v].(stage := Free);
      assert voices[..] == vs[v := vs[v].(stage := Free)];
      PushFree(v);
      assert Book() == book.(free := book.free + [v], freePos := book.freePos[v := |book.free|], births := book.births + 1);
    }

    method PushActive(v: int)
      requires Shape() && activeCount < capacity
      modifies activeIndices, this`activeCount
      ensures activeCount == old(activeCount) + 1
      ensures activeIndices[..activeCount] == old(activeIndices[..activeCount]) + [v]
    {
      activeIndices[activeCount] := v;
      activeCount := activeCount + 1;
    }

    method DrawStamp()
      requires allocationStamp == ToU32(births)
      modifies this`births, this`allocationStamp
      ensures births == old(births) + 1 && allocationStamp == ToU32(births)
    {
      WrapAdd(births, 1);
      allocationStamp := ToU32(allocationStamp + 1);
      births := births + 1;
    }

    /** Lists a voice whose start has been accepted. */
    method Activate(v: int)
      requires Holding(v) && voices[v].stage == Active
      requires LastStart(wire, v) == Some(voices[v].generation) && !Silenced(wire, v)
      requires voices[v].allocationStamp == ToU32(births + 1)
      requires InstanceFitsElsewhere(voices[..], voices[v].noteInstance, issued, voices[v].channel, voices[v].note, v)
      modifies voices, activeIndices, this`activeCount, this`activeVoicesStat, this`births, this`allocationStamp, this`bornAt
      ensures Valid() && births == old(births) + 1
      ensures voices[..] == old(voices[..])[v := old(voices[v]).(activePosition := old(activeCount))]
      ensures activeCount == old(activeCount) + 1
      ensures bornAt == old(bornAt)[v := births] && Book().active == old(Book()).active + [v]
      ensures InstanceFits(voices[..], voices[v].noteInstance, issued, voices[v].channel, voices[v].note)
    {
      hide Tables, LastStart, Silenced, InstanceFits, InstanceFitsElsewhere, ToU32;
      ghost var vs, book := voices[..], Book();
      ActivateTables(vs, book, v);
      DrawStamp();
      bornAt := bornAt[v := births];
      voices[v] := voices[v].(activePosition := activeCount);
      assert voices[..] == vs[v := vs[v].(activePosition := |book.active|)];
      PushActive(v);
      activeVoicesStat := activeVoicesStat + 1;
      assert Shape();
      assert Book() == book.(active := book.active + [v], births := book.births + 1, bornAt := book.bornAt[v := book.births + 1]);
    }

    /** Sends the start of a written record and lists the voice, or gives the slot back. */
    method Publish(v: int, materializes: bool) returns (status: Status)
      requires Holding(v) && voices[v].stage == Active && voices[v].allocationStamp == ToU32(births + 1)
      requires InstanceFitsElsewhere(voices[..], voices[v].noteInstance, issued, voices[v].channel, voices[v].note, v)
      modifies voices, freeStack, activeIndices, this`freeCount, this`activeCount, this`activeVoicesStat
      modifies this`freePos, this`births, this`allocationStamp, this`bornAt, this`wire, this`refusals
      ensures Valid() && births == old(births) + 1
      ensures status in {Ok, RecordError, SinkError} && (materializes ==> status != RecordError)
      ensures status == Ok ==>
                && voices[..] == old(voices[..])[v := old(voices[v]).(activePosition := activeCount - 1)]
                && wire == old(wire) + [Start(v, old(voices[v]).generation)]
                && InstanceFits(voices[..], old(voices[v]).noteInstance, issued, old(voices[v]).channel, old(voices[v]).note)
                && bornAt == old(bornAt)[v := births] && Book().active == old(Book()).active + [v] && Book().free == old(Book()).free
      ensures status != Ok ==> voices[..] == old(voices[..])[v := old(voices[v]).(stage := Free)] && wire == old(wire)
      ensures refusals == old(refusals) + if status == SinkError then 1 else 0
    {
      hide Tables, LastStart, Silenced, InstanceFits, InstanceFitsElsewhere;
      if !materializes {
        Abandon(v);
        return RecordError;
      }
      ghost var book := Book();
      var ok := Emit(Start(v, voices[v].generation));
      if !ok {
        assert Book() == book;
        Abandon(v);
        return SinkError;
      }
      StartSent(voices[..], book, v, voices[v].generation);
      assert Book() == book.(wire := wire);
      Activate(v);
      status := Ok;
    }

    /** Takes a slot for a layer and writes its record there; the slot is still on neither list. */
    method PrepareLayer(ch: ChannelIndex, note: int, presetIndex: int, instance: U32, layer: Layer) returns (v: int)
      requires Valid() && InstanceFits(voices[..], instance, issued, ch, note)
      modifies voices, freeStack, activeIndices, this`freeCount, this`activeCount, this`activeVoicesStat
      modifies this`freePos, this`stale, this`starts
      ensures Holding(v) && KeepsElsewhere(old(voices[..]), voices[..], v)
      ensures old(freeCount) > 0 ==> v == old(freeStack[freeCount - 1])
      ensures old(freeCount) == 0 ==>
                && (forall i | 0 <= i < |old(Book()).active| :: 0 <= old(Book()).active[i] < capacity)
                && IsVictim(old(voices[..]), old(Book()).active, v)
      ensures voices[v] == NewVoice(ch, note, presetIndex, instance, layer, old(voices[v]).generation,
                                    ToU32(allocationStamp + 1), 0)
      ensures stale == old(stale)[v := {}] && starts == old(starts)[v := old(starts)[v] + 1]
      ensures old(freeCount) > 0 ==> Book().free == old(Book()).free[..old(freeCount) - 1] && Book().active == old(Book()).active
      ensures old(freeCount) == 0 ==>
                && 0 <= old(voices[v]).activePosition < |old(Book()).active|
                && Book().free == [] && Book().active == Without(old(Book()).active, old(voices[v]).activePosition)
      ensures InstanceFitsElsewhere(voices[..], instance, issued, ch, note, v)
    {
      hide Tables, KeepsElsewhere, InstanceFits, InstanceFitsElsewhere, IsVictim;
      ghost var before := voices[..];
      v := AllocateVoice();
      ghost var taken := voices[..];
      var x := NewVoice(ch, note, presetIndex, instance, layer, voices[v].generation, ToU32(allocationStamp + 1), 0);
      WriteRecord(v, x);
      KeepsElsewhereUpdate(before, taken, v, x);
      InstanceFitsKept(before, voices[..], instance, issued, ch, note, v);
    }

    /** Takes a slot for a layer, writes its record and publishes it, or gives the slot back. */
    method PlaceLayer(ch: ChannelIndex, note: int, presetIndex: int, instance: U32, layer: Layer)
      returns (status: Status, v: int)
      requires Valid() && InstanceFits(voices[..], instance, issued, ch, note)
      modifies voices, freeStack, activeIndices, this`freeCount, this`activeCount, this`activeVoicesStat
      modifies this`freePos, this`births, this`allocationStamp, this`bornAt, this`wire, this`refusals, this`stale, this`starts
      ensures Valid() && status in {Ok, RecordError, SinkError} && 0 <= v < capacity && births == old(births) + 1
      ensures KeepsElsewhere(old(voices[..]), voices[..], v)
      ensures old(freeCount) > 0 ==> v == old(freeStack[freeCount - 1])
      ensures old(freeCount) == 0 ==>
                && (forall i | 0 <= i < |old(Book()).active| :: 0 <= old(Book()).active[i] < capacity)
                && IsVictim(old(voices[..]), old(Book()).active, v)
      ensures status == Ok ==>
                && voices[v] == NewVoice(ch, note, presetIndex, instance, layer, old(voices[v]).generation,
                                         ToU32(old(allocationStamp) + 1), activeCount - 1)
                && wire == old(wire) + [Start(v, voices[v].generation)]
                && Starts(old(voices[..]), old(Book()), voices[..], Book(), v)
                && InstanceFits(voices[..], instance, issued, ch, note)
      ensures status != Ok ==> voices[v].stage == Free && wire == old(wire)
      ensures AdriftBut(old(voices[..]), old(wire), voices[..], wire, v,
                        status != Ok && (Unreleased(old(voices[v])) || Adrift(old(voices[..]), old(wire), v)))
      ensures stale == old(stale)[v := {}] && starts == old(starts)[v := old(starts)[v] + 1]
      ensures layer.materializes ==> status != RecordError
      ensures refusals == old(refusals) + if status == SinkError then 1 else 0
    {
      hide Tables, KeepsElsewhere, InstanceFits, InstanceFitsElsewhere, IsVictim, Without, AdriftBut;
      ghost var vs, book := voices[..], Book();
      v := PrepareLayer(ch, note, presetIndex, instance, layer);
      ghost var written := voices[..];
      WrapAdd(births, 1);
      status := Publish(v, layer.materializes);
      KeepsElsewhereUpdate(vs, written, v, voices[v]);
      assert voices[..] == written[v := voices[v]];
      if status == Ok {
        TakenBack(vs, book.wire, voices[..], v, voices[v].generation);
      } else {
        GivenUp(vs, book, voices[..], v);
      }
    }

    /** Starts one layer of a note. Every other voice only may move in the list. */
    method StartLayer(ch: ChannelIndex, note: int, presetIndex: int, instance: U32, layer: Layer)
      returns (status: Status, v: int)
      requires Valid() && InstanceFits(voices[..], instance, issued, ch, note)
      modifies voices, freeStack, activeIndices, this`freeCount, this`activeCount, this`activeVoicesStat
      modifies this`freePos, this`births, this`allocationStamp, this`bornAt, this`wire, this`refusals, this`stale, this`starts
      ensures Valid() && InstanceFits(voices[..], instance, issued, ch, note)
      ensures Evolves(old(View()), View())
      ensures status in {Ok, RecordError, SinkError} && 0 <= v < capacity && births == old(births) + 1
      ensures KeepsElsewhere(old(voices[..]), voices[..], v)
      ensures status == Ok ==>
                && voices[v] == NewVoice(ch, note, presetIndex, instance, layer, old(voices[v]).generation,
                                         ToU32(old(allocationStamp) + 1), activeCount - 1)
                && wire == old(wire) + [Start(v, voices[v].generation)]
                && Starts(old(voices[..]), old(Book()), voices[..], Book(), v)
      ensures status != Ok ==> voices[v].stage == Free && wire == old(wire)
      ensures AdriftBut(old(voices[..]), old(wire), voices[..], wire, v,
                        status != Ok && (Unreleased(old(voices[v])) || Adrift(old(voices[..]), old(wire), v)))
      ensures old(Quiet()) ==> Quiet()
      ensures layer.materializes ==> status != RecordError
      ensures refusals == old(refusals) + if status == SinkError then 1 else 0
    {
      hide Tables, KeepsElsewhere, InstanceFits, Evolves, IsVictim, Starts, NoHangingNotes, AdriftBut;
      ghost var before := View();
      status, v := PlaceLayer(ch, note, presetIndex, instance, layer);
      if status != Ok {
        InstanceFitsKept(before.voices, voices[..], instance, issued, ch, note, v);
      }
      StartEvolves(before, View(), v);
      if NoHangingNotes(before.voices, channels[..]) {
        ElsewhereKeepsQuiet(before.voices, voices[..], channels[..], v);
      }
    }

    // ---- Notes ----------------------------------------------------------------------------

    /** A sweep changes voices and sends commands; nothing else a control job depends on. */
    method SweepEvolving(a: Action) returns (ok: bool)
      requires Valid() && Lawful(a)
      modifies voices, this`wire, this`refusals
      ensures Valid() && KeepsVoices(old(voices[..]), voices[..]) && Evolves(old(View()), View())
      ensures forall i | 0 <= i < |old(Book()).active| :: 0 <= old(Book()).active[i] < capacity
      ensures ok ==> forall u | 0 <= u < capacity ::
                voices[u] == if old(voices[u]).stage != Free then a.effect(old(voices[u])) else old(voices[u])
      ensures ok ==> wire == old(wire) + CommandsOf(old(voices[..]), old(Book()).active, a)
      ensures !ok ==> exists k :: Halted(old(voices[..]), voices[..], old(Book()).active, k, a)
      ensures Book() == old(Book()).(wire := wire)
      ensures (forall v, x :: a.command(v, x) == None) ==> ok
      ensures refusals == old(refusals) + if ok then 0 else 1
    {
      hide Tables, KeepsVoices, Lawful, Evolves, Halted;
      ghost var before := View();
      ok := Sweep(a);
      KeepsEvolves(before, View());
    }

    /** Releases the exclusive-class conflicts of all layers before any of them starts. */
    method CutExclusive(presetIndex: int, layers: seq<Layer>) returns (ok: bool)
      requires Valid()
      modifies voices, this`wire, this`refusals
      ensures Valid() && Evolves(old(View()), View()) && (old(Quiet()) ==> Quiet())
      ensures Book() == old(Book()).(wire := wire)
      ensures ok ==> forall u | 0 <= u < capacity :: voices[u] == AfterCut(old(voices[u]), layers, presetIndex)
      ensures refusals == old(refusals) + if ok then 0 else 1
    {
      hide Tables, KeepsVoices, Evolves, Lawful, CommandsOf, NoHangingNotes, Halted;
      ghost var vs, before := voices[..], View();
      EvolvesReflexive(before);
      ok := true;
      for layer := 0 to |layers|
        invariant ok && Valid() && Evolves(before, View()) && refusals == old(refusals) && Book() == old(Book()).(wire := wire)
        invariant NoHangingNotes(before.voices, channels[..]) ==> Quiet()
        invariant forall u | 0 <= u < capacity :: voices[u] == AfterCut(vs[u], layers[..layer], presetIndex)
      {
        var cls := layers[layer].exclusiveClass;
        ghost var mid := View();
        CutSteps(vs, mid.voices, layers, layer, presetIndex);
        if cls != 0 {
          ok := ReleaseClass(presetIndex, cls);
          EvolvesTransitive(before, mid, View());
          if !ok {
            return;
          }
        }
      }
      assert layers[..|layers|] == layers;
    }

    /** Releases the voices of a preset in one exclusive class. */
    method ReleaseClass(presetIndex: int, cls: int) returns (ok: bool)
      requires Valid()
      modifies voices, this`wire, this`refusals
      ensures Valid() && Evolves(old(View()), View()) && (old(Quiet()) ==> Quiet())
      ensures Book() == old(Book()).(wire := wire)
      ensures ok ==> forall u | 0 <= u < capacity ::
                var x := old(voices[u]);
                voices[u] == if x.stage != Free && x.exclusiveClass == cls && x.presetIndex == presetIndex then AfterRelease(x) else x
      ensures refusals == old(refusals) + if ok then 0 else 1
    {
      hide Tables, KeepsVoices, Evolves, Lawful, CommandsOf, NoHangingNotes, Halted;
      ghost var vs, list := voices[..], Book().active;
      var target := (v: Voice) => v.exclusiveClass == cls && v.presetIndex == presetIndex;
      ReleaseLawful(target);
      ok := SweepEvolving(ReleaseIf(target));
      if NoHangingNotes(vs, channels[..]) {
        if !ok {
          HaltedRelease(vs, voices[..], list, target);
        }
        ReleaseKeepsQuiet(vs, voices[..], channels[..]);
      }
    }

    /** Numbers a note; zero is skipped when the counter wraps. */
    method NextInstance(ghost ch: ChannelIndex, ghost note: int) returns (instance: U32)
      requires Valid()
      modifies this`nextNoteInstance, this`issued
      ensures Valid() && instance == nextNoteInstance && issued == old(issued) + 1
      ensures instance == if old(nextNoteInstance) == U32_LIMIT then 1 else old(nextNoteInstance) + 1
      ensures InstanceFits(voices[..], instance, issued, ch, note)
    {
      hide Tables, InstanceFits;
      ghost var book := Book();
      nextNoteInstance := ToU32(nextNoteInstance + 1);
      if nextNoteInstance == 0 {
        nextNoteInstance := ToU32(nextNoteInstance + 1);
      }
      instance := nextNoteInstance;
      NewInstance(voices[..], book, instance, ch, note);
      issued := issued + 1;
      assert Book() == book.(issued := book.issued + 1);
    }

    /** Starts the layers of a note in order. They keep slots of their own exactly as long as the
        first layer leaves room for the others; after that a later layer steals from an earlier. */
    method StartLayers(ch: ChannelIndex, note: int, presetIndex: int, instance: U32, layers: seq<Layer>)
      returns (status: Status, started: nat, ghost slots: seq<int>, ghost commands: seq<Command>)
      requires Valid() && InstanceFits(voices[..], instance, issued, ch, note)
      modifies voices, freeStack, activeIndices, this`freeCount, this`activeCount, this`activeVoicesStat
      modifies this`freePos, this`births, this`allocationStamp, this`bornAt, this`wire, this`refusals, this`stale, this`starts
      ensures Valid() && Evolves(old(View()), View()) && (old(Quiet()) ==> Quiet())
      ensures started == |slots| <= |layers|
      ensures wire == old(wire) + commands && StartsFor(commands, slots)
      ensures status == Ok ==>
                started == |layers| && Layered(old(voices[..]), voices[..], slots, ch, note, presetIndex, instance)
      ensures status == Ok ==> births == old(births) + |layers|
      ensures status == Ok && layers != [] && births < TWO_32 ==> SlotsTold(old(voices[..]), old(Book()), slots)
      ensures refusals == old(refusals) + if status == SinkError then 1 else 0
    {
      hide Tables, Evolves, IsVictim, InstanceFits, Layered, StartsFor, Starts, Progress, NoHangingNotes, SlotsTold, KeepsElsewhere;
      ghost var before, book := View(), Book();
      EvolvesReflexive(before);
      slots, commands, started, status := [], [], 0, Ok;
      LayeredStart(before.voices, ch, note, presetIndex, instance);
      StartsForNone();
      NoProgress(before.voices, book);
      for layer := 0 to |layers|
        invariant status == Ok && started == layer == |slots| && births == old(births) + layer
        invariant Valid() && Evolves(before, View()) && InstanceFits(voices[..], instance, issued, ch, note)
        invariant Layered(before.voices, voices[..], slots, ch, note, presetIndex, instance)
        invariant wire == old(wire) + commands && StartsFor(commands, slots) && refusals == old(refusals)
        invariant NoHangingNotes(before.voices, channels[..]) ==> NoHangingNotes(voices[..], channels[..])
        invariant Progress(before.voices, book, voices[..], Book(), slots)
      {
        ghost var mid, list := View(), Book();
        var v;
        status, v := StartLayer(ch, note, presetIndex, instance, layers[layer]);
        EvolvesTransitive(before, mid, View());
        if status != Ok {
          return;
        }
        LayeredStep(before.voices, mid.voices, voices[..], slots, v, ch, note, presetIndex, instance);
        StartsForStep(commands, slots, v, voices[v].generation);
        ProgressStep(before.voices, book, mid.voices, list, slots, voices[..], Book(), v);
        slots := slots + [v];
        commands := commands + [Start(v, voices[v].generation)];
        started := started + 1;
      }
      if layers != [] && births < TWO_32 {
        DistinctExactly(before.voices, book, voices[..], Book(), slots);
      }
    }

    /** Note On. A velocity of zero is a note off. Exclusive-class conflicts are released before the
        first layer starts. */
    method NoteOn(ch: ChannelIndex, lookup: Lookup, note: int, velocity: int)
      returns (status: Status, started: nat, ghost slots: seq<int>)
      requires Valid()
      modifies voices, freeStack, activeIndices, this`freeCount, this`activeCount, this`activeVoicesStat
      modifies this`freePos, this`births, this`allocationStamp, this`bornAt, this`wire, this`refusals, this`stale, this`starts
      modifies this`nextNoteInstance, this`issued
      ensures Valid() && Evolves(old(View()), View())
      ensures (status != SinkError || velocity != 0) && old(Quiet()) ==> Quiet()
      ensures note < 0 || note > 127 || velocity < 0 || velocity > 127 ==>
                status == ArgumentError && voices[..] == old(voices[..]) && wire == old(wire)
      ensures status == Ok && velocity == 0 ==>
                started == 0 && LiftsOldest(old(voices[..]), voices[..], old(Book()).issued, ch, note, channels[ch].sustain)
      ensures 0 <= note <= 127 && 0 < velocity <= 127 && (lookup.Zones? ==> lookup.layers == []) ==>
                && started == 0 && voices[..] == old(voices[..]) && wire == old(wire)
                && status == (if lookup.TooManyLayers? then CapacityError
                              else if lookup.BadGenerators? then RecordError else Ok)
      ensures status == Ok && velocity != 0 && lookup.Zones? && lookup.layers != [] ==>
                var cut := CutVoices(old(voices[..]), lookup.layers, lookup.presetIndex);
                && started == |lookup.layers| && births == old(births) + |lookup.layers|
                && Layered(cut, voices[..], slots, ch, note, lookup.presetIndex, nextNoteInstance)
                && (births < TWO_32 ==> SlotsTold(cut, old(Book()), slots))
      ensures velocity == 0 && status == SinkError ==> LeavesStuck(old(voices[..]), voices[..], ch)
      ensures status == Ok ==> |slots| == started
      ensures refusals == old(refusals) + if status == SinkError then 1 else 0
    {
      hide Tables, Evolves, InstanceFits, Layered, StartsFor, NoHangingNotes, SlotsTold;
      ghost var before := View();
      EvolvesReflexive(before);
      started, slots := 0, [];
      if note < 0 || note > 127 || velocity < 0 || velocity > 127 {
        return ArgumentError, 0, [];
      }
      if velocity == 0 {
        status := NoteOff(ch, note);
        return;
      }
      match lookup
      case Unmapped => return Ok, 0, [];
      case TooManyLayers => return CapacityError, 0, [];
      case BadGenerators => return RecordError, 0, [];
      case Zones(presetIndex, layers) =>
        if layers == [] {
          return Ok, 0, [];
        }
        status, started, slots := StartNote(ch, note, presetIndex, layers);
    }

    /** The layers of a note that maps to zones: exclusive conflicts first, then one start each. */
    method StartNote(ch: ChannelIndex, note: int, presetIndex: int, layers: seq<Layer>)
      returns (status: Status, started: nat, ghost slots: seq<int>)
      requires Valid() && layers != []
      modifies voices, freeStack, activeIndices, this`freeCount, this`activeCount, this`activeVoicesStat
      modifies this`freePos, this`births, this`allocationStamp, this`bornAt, this`wire, this`refusals, this`stale, this`starts
      modifies this`nextNoteInstance, this`issued
      ensures Valid() && Evolves(old(View()), View()) && (old(Quiet()) ==> Quiet())
      ensures |slots| == started
      ensures status == Ok ==>
                && started == |layers| && births == old(births) + |layers|
                && Layered(CutVoices(old(voices[..]), layers, presetIndex), voices[..], slots, ch, note, presetIndex, nextNoteInstance)
      ensures status == Ok && births < TWO_32 ==>
                SlotsTold(CutVoices(old(voices[..]), layers, presetIndex), old(Book()), slots)
      ensures refusals == old(refusals) + if status == SinkError then 1 else 0
    {
      hide Tables, Evolves, InstanceFits, Layered, StartsFor, NoHangingNotes, SlotsTold;
      ghost var before, book := View(), Book();
      started, slots := 0, [];
      var ok := CutExclusive(presetIndex, layers);
      if !ok {
        return SinkError, 0, [];
      }
      ghost var mid := View();
      assert voices[..] == CutVoices(before.voices, layers, presetIndex);
      var instance := NextInstance(ch, note);
      ghost var list := Book();
      ghost var commands;
      status, started, slots, commands := StartLayers(ch, note, presetIndex, instance, layers);
      EvolvesTransitive(before, mid, View());
      if status == Ok && births < TWO_32 {
        SlotsToldAlike(mid.voices, list, book, slots);
      }
    }

    /** Smallest instance number among the keys down on one note; the largest number stands for
        none. */
    method OldestInstance(ch: ChannelIndex, note: int) returns (oldest: U32)
      requires Valid()
      ensures forall u | 0 <= u < capacity && Plays(voices[u], ch, note) :: oldest <= voices[u].noteInstance
      ensures oldest != U32_LIMIT ==>
                exists u | 0 <= u < capacity :: Plays(voices[u], ch, note) && voices[u].noteInstance == oldest
    {
      hide Tables;
      ghost var vs, book := voices[..], Book();
      oldest := U32_LIMIT;
      AllListed(vs, book);
      for active := 0 to activeCount
        invariant forall u | 0 <= u < capacity && Passed(vs[u], active) && Plays(vs[u], ch, note) :: oldest <= vs[u].noteInstance
        invariant oldest != U32_LIMIT ==>
                    exists u | 0 <= u < capacity :: Plays(vs[u], ch, note) && vs[u].noteInstance == oldest
      {
        Listed(vs, book, active);
        var v := activeIndices[active];
        assert v == book.active[active];
        ListedOnce(vs, book, active);
        if Plays(voices[v], ch, note) && voices[v].noteInstance < oldest {
          oldest := voices[v].noteInstance;
        }
      }
    }

    /** Note Off lifts exactly the layers of the oldest note instance whose key is down: held by a
        pedal, or released. With no such instance nothing happens. */
    method NoteOff(ch: ChannelIndex, note: int) returns (status: Status)
      requires Valid()
      modifies voices, this`wire, this`refusals
      ensures Valid() && Evolves(old(View()), View())
      ensures status != SinkError && old(Quiet()) ==> Quiet()
      ensures status == SinkError ==> LeavesStuck(old(voices[..]), voices[..], ch)
      ensures note < 0 || note > 127 <==> status == ArgumentError
      ensures status == ArgumentError ==> voices[..] == old(voices[..]) && wire == old(wire)
      ensures status == Ok ==> LiftsOldest(old(voices[..]), voices[..], old(Book()).issued, ch, note, channels[ch].sustain)
      ensures refusals == old(refusals) + if status == SinkError then 1 else 0
    {
      hide Tables, Evolves, NoHangingNotes, KeepsVoices, Lawful, LiftsOldest;
      ghost var before, book, sustain := View(), Book(), channels[ch].sustain;
      EvolvesReflexive(before);
      if note < 0 || note > 127 {
        return ArgumentError;
      }
      var oldest := OldestInstance(ch, note);
      if oldest == U32_LIMIT {
        LiftsFromScan(before.voices, voices[..], book, ch, note, sustain, oldest);
        return Ok;
      }
      var ok := LiftInstance(ch, oldest);
      if !ok {
        return SinkError;
      }
      LiftsFromScan(before.voices, voices[..], book, ch, note, sustain, oldest);
      status := Ok;
    }

    method LiftInstance(ch: ChannelIndex, instance: U32) returns (ok: bool)
      requires Valid()
      modifies voices, this`wire, this`refusals
      ensures Valid() && Evolves(old(View()), View())
      ensures ok && old(Quiet()) ==> Quiet()
      ensures !ok ==> exists u :: 0 <= u < capacity && Strands(old(voices[u]), voices[u], ch, instance)
      ensures ok ==> LiftsInstance(old(voices[..]), voices[..], ch, instance, channels[ch].sustain)
      ensures refusals == old(refusals) + if ok then 0 else 1
    {
      hide Tables, Evolves, NoHangingNotes, KeepsVoices, Lawful, Halted, CommandsOf;
      ghost var vs, list := voices[..], Book().active;
      var target := (v: Voice) => v.channel == ch && v.noteInstance == instance;
      LiftLawful(target, channels[ch].sustain);
      ok := SweepEvolving(LiftIf(target, channels[ch].sustain));
      if !ok {
        ghost var k :| Halted(vs, voices[..], list, k, LiftIf(target, channels[ch].sustain));
        HaltedLift(vs, voices[..], list, k, target, channels[ch].sustain);
        assert Strands(vs[list[k]], voices[list[k]], ch, instance);
      } else if NoHangingNotes(vs, channels[..]) {
        LiftKeepsQuiet(vs, voices[..], channels[..], ch, target);
      }
    }

    // ---- Channels -------------------------------------------------------------------------

    /** Writes channel state, leaving the marks alone. */
    method WriteChannel(ch: ChannelIndex, c: Channel)
      requires Valid()
      requires c.dirtyGroups == channels[ch].dirtyGroups && c.dirtyRevision == channels[ch].dirtyRevision
      modifies channels
      ensures Valid() && Evolves(old(View()), View())
      ensures channels[..] == old(channels[..])[ch := c]
    {
      hide Tables, Evolves;
      ghost var before := View();
      channels[ch] := c;
      assert channels[..] == before.channels[ch := c];
      ChannelWriteEvolves(before, View(), ch, c);
    }

    /** Marks parameter families of a channel for the next control job. */
    method MarkDirty(ch: ChannelIndex, groups: set<Group>)
      requires Valid()
      modifies channels, this`stale, this`marks
      ensures Valid() && Evolves(old(View()), View())
      ensures channels[..] == old(channels[..])[ch := Marked(old(channels[ch]), groups)]
      ensures stale == StaleAfterMark(voices[..], old(stale), ch, groups)
      ensures marks == old(marks)[ch := old(marks)[ch] + 1]
    {
      hide Tables, Evolves;
      ghost var before := View();
      var c := channels[ch];
      channels[ch] := c.(dirtyGroups := c.dirtyGroups + groups, dirtyRevision := ToU32(c.dirtyRevision + 1));
      marks := marks[ch := marks[ch] + 1];
      stale := StaleAfterMark(voices[..], stale, ch, groups);
      assert channels[..] == before.channels[ch := Marked(c, groups)];
      MarkEvolves(before, View(), ch, groups);
    }

    /** Puts a channel back to its power-on state and marks everything. The revision restarts. */
    method ResetChannel(ch: ChannelIndex)
      requires Valid()
      modifies channels, this`stale, this`marks, this`resets
      ensures Valid() && Evolves(old(View()), View())
      ensures channels[..] == old(channels[..])[ch := Marked(PowerOn(), ALL_GROUPS)]
      ensures resets == old(resets)[ch := old(resets)[ch] + 1]
      ensures marks == old(marks)[ch := old(marks)[ch] + 1]
    {
      hide Tables, Evolves;
      ghost var before := View();
      var c := PowerOn();
      channels[ch] := c.(dirtyGroups := c.dirtyGroups + ALL_GROUPS, dirtyRevision := ToU32(c.dirtyRevision + 1));
      resets := resets[ch := resets[ch] + 1];
      marks := marks[ch := marks[ch] + 1];
      stale := StaleAfterMark(voices[..], stale, ch, ALL_GROUPS);
      assert channels[..] == before.channels[ch := Marked(PowerOn(), ALL_GROUPS)];
      ResetEvolves(before, View(), ch);
    }

    /** Writes channel state and marks it: bends, pressures, bend ranges, generator offsets. */
    method ChangeChannel(ch: ChannelIndex, c: Channel, groups: set<Group>)
      requires Valid()
      requires c.dirtyGroups == channels[ch].dirtyGroups && c.dirtyRevision == channels[ch].dirtyRevision
      modifies channels, this`stale, this`marks
      ensures Valid() && Evolves(old(View()), View())
      ensures channels[..] == old(channels[..])[ch := Marked(c, groups)]
      ensures stale == StaleAfterMark(voices[..], old(stale), ch, groups)
      ensures marks == old(marks)[ch := old(marks)[ch] + 1]
      ensures c.sostenuto == old(channels[ch]).sostenuto && c.sustain == old(channels[ch]).sustain && old(Quiet()) ==> Quiet()
    {
      hide Tables, Evolves;
      ghost var before := View();
      WriteChannel(ch, c);
      ghost var mid := View();
      MarkDirty(ch, groups);
      EvolvesTransitive(before, mid, View());
    }

    method PitchBend(ch: ChannelIndex, value: int)
      requires Valid()
      modifies channels, this`stale, this`marks
      ensures marks == old(marks)[ch := old(marks)[ch] + 1]
      ensures Valid() && Evolves(old(View()), View()) && (old(Quiet()) ==> Quiet())
      ensures channels[ch].pitchBend == (if value < -8192 then -8192 else if value > 8191 then 8191 else value)
      ensures channels[..] == old(channels[..])[ch := Marked(old(channels[ch]).(pitchBend := channels[ch].pitchBend), {Pitch})]
      ensures stale == StaleAfterMark(voices[..], old(stale), ch, {Pitch})
    {
      hide Tables, Evolves, StaleAfterMark, NoHangingNotes;
      var clamped := if value < -8192 then -8192 else if value > 8191 then 8191 else value;
      ChangeChannel(ch, channels[ch].(pitchBend := clamped), {Pitch});
    }

    method SetPitchBendRange(ch: ChannelIndex, semitones: U8, cents: U8) returns (status: Status)
      requires Valid()
      modifies channels, this`stale, this`marks
      ensures Valid() && Evolves(old(View()), View()) && (old(Quiet()) ==> Quiet())
      ensures status == if cents > 99 then ArgumentError else Ok
      ensures marks == if status == Ok then old(marks)[ch := old(marks)[ch] + 1] else old(marks)
      ensures status != Ok ==> channels[..] == old(channels[..]) && stale == old(stale)
      ensures status == Ok ==>
                && channels[..] == old(channels[..])[ch := Marked(old(channels[ch]).(bendSemitones := semitones, bendCents := cents), {Pitch})]
                && stale == StaleAfterMark(voices[..], old(stale), ch, {Pitch})
    {
      hide Tables, Evolves, StaleAfterMark, NoHangingNotes;
      if cents > 99 {
        EvolvesReflexive(View());
        return ArgumentError;
      }
      ChangeChannel(ch, channels[ch].(bendSemitones := semitones, bendCents := cents), {Pitch});
      status := Ok;
    }

    method SetGeneratorOffset(ch: ChannelIndex, generator: int, valueQ16: int) returns (status: Status)
      requires Valid() && 0 <= generator
      modifies channels, this`stale, this`marks
      ensures Valid() && Evolves(old(View()), View()) && (old(Quiet()) ==> Quiet())
      ensures status == if generator >= GENERATORS then ArgumentError else Ok
      ensures marks == if status == Ok then old(marks)[ch := old(marks)[ch] + 1] else old(marks)
      ensures status != Ok ==> channels[..] == old(channels[..]) && stale == old(stale)
      ensures status == Ok ==>
                && channels[..] == old(channels[..])[ch :=
                     Marked(old(channels[ch]).(offsets := old(channels[ch]).offsets[generator := valueQ16]), ALL_GROUPS)]
                && stale == StaleAfterMark(voices[..], old(stale), ch, ALL_GROUPS)
    {
      hide Tables, Evolves, StaleAfterMark, NoHangingNotes;
      if generator >= GENERATORS {
        EvolvesReflexive(View());
        return ArgumentError;
      }
      ChangeChannel(ch, channels[ch].(offsets := channels[ch].offsets[generator := valueQ16]), ALL_GROUPS);
      status := Ok;
    }

    method ChannelPressure(ch: ChannelIndex, value: int) returns (status: Status)
      requires Valid() && 0 <= value
      modifies channels, this`stale, this`marks
      ensures Valid() && Evolves(old(View()), View()) && (old(Quiet()) ==> Quiet())
      ensures status == if value > 127 then ArgumentError else Ok
      ensures marks == if status == Ok then old(marks)[ch := old(marks)[ch] + 1] else old(marks)
      ensures status != Ok ==> channels[..] == old(channels[..]) && stale == old(stale)
      ensures status == Ok ==>
                && channels[..] == old(channels[..])[ch := Marked(old(channels[ch]).(channelPressure := value), ALL_GROUPS)]
                && stale == StaleAfterMark(voices[..], old(stale), ch, ALL_GROUPS)
    {
      hide Tables, Evolves, StaleAfterMark, NoHangingNotes;
      if value > 127 {
        EvolvesReflexive(View());
        return ArgumentError;
      }
      ChangeChannel(ch, channels[ch].(channelPressure := value), ALL_GROUPS);
      status := Ok;
    }

    /** Switches periodic modulation on or off. A change marks every channel. */
    method SetPeriodicEnabled(on: bool)
      requires Valid()
      modifies channels, this`stale, this`marks, this`periodicEnabled
      ensures Valid() && Evolves(old(View()), View()) && (old(Quiet()) ==> Quiet()) && periodicEnabled == on
      ensures old(periodicEnabled) == on ==> View() == old(View())
      ensures old(periodicEnabled) != on ==>
                forall c: ChannelIndex :: channels[c] == Marked(old(channels[c]), ALL_GROUPS) && marks[c] == old(marks)[c] + 1
    {
      hide Tables, Evolves, StaleAfterMark, NoHangingNotes, Marked;
      ghost var before := View();
      EvolvesReflexive(before);
      if periodicEnabled == on {
        return;
      }
      periodicEnabled := on;
      for c := 0 to CHANNEL_COUNT
        invariant Valid() && Evolves(before, View()) && (old(Quiet()) ==> Quiet()) && periodicEnabled == on
        invariant forall d | 0 <= d < c :: channels[d] == Marked(old(channels[d]), ALL_GROUPS) && marks[d] == old(marks)[d] + 1
        invariant forall d | c <= d < CHANNEL_COUNT :: channels[d] == old(channels[d]) && marks[d] == old(marks)[d]
      {
        ghost var mid := View();
        ChangeChannel(c, channels[c], ALL_GROUPS);
        EvolvesTransitive(before, mid, View());
      }
    }

    method KeyPressure(ch: ChannelIndex, note: int, value: int) returns (status: Status)
      requires Valid() && 0 <= note && 0 <= value
      modifies channels, this`stale, this`marks
      ensures Valid() && Evolves(old(View()), View()) && (old(Quiet()) ==> Quiet())
      ensures status == if note > 127 || value > 127 then ArgumentError else Ok
      ensures marks == if status == Ok then old(marks)[ch := old(marks)[ch] + 1] else old(marks)
      ensures status != Ok ==> channels[..] == old(channels[..]) && stale == old(stale)
      ensures status == Ok ==>
                && channels[..] == old(channels[..])[ch :=
                     Marked(old(channels[ch]).(keyPressure := old(channels[ch]).keyPressure[note := value]), ALL_GROUPS)]
                && stale == StaleAfterMark(voices[..], old(stale), ch, ALL_GROUPS)
    {
      hide Tables, Evolves, StaleAfterMark, NoHangingNotes;
      if note > 127 || value > 127 {
        EvolvesReflexive(View());
        return ArgumentError;
      }
      ChangeChannel(ch, channels[ch].(keyPressure := channels[ch].keyPressure[note := value]), ALL_GROUPS);
      status := Ok;
    }

    // ---- Controllers ----------------------------------------------------------------------

    /** Changes pedal flags of every voice sounding on a channel. */
    method RewriteVoices(ch: ChannelIndex, f: Voice -> Voice)
      requires Valid() && Silent(f)
      modifies voices, this`wire, this`refusals
      ensures Valid() && Evolves(old(View()), View())
      ensures voices[..] == OnChannel(old(voices[..]), ch, f) && wire == old(wire)
      ensures refusals == old(refusals)
    {
      hide Tables, KeepsVoices, Lawful, Evolves, CommandsOf, Silent;
      ghost var vs, book := voices[..], Book();
      var a := RewriteOn(ch, f);
      RewriteLawful(ch, f);
      var ok := SweepEvolving(a);
      assert forall u | 0 <= u < capacity :: OnChannel(vs, ch, f)[u] == voices[u];
      NoCommands(vs, book.active, a);
    }

    /** Releases the voices whose key is up and that no pedal of the channel holds any more. */
    method ReleaseDeferred(ch: ChannelIndex) returns (ok: bool)
      requires Valid()
      modifies voices, this`wire, this`refusals
      ensures Valid() && Evolves(old(View()), View())
      ensures ok ==> var sustain := channels[ch].sustain;
                     voices[..] == OnChannel(old(voices[..]), ch, v => AfterDeferred(v, sustain))
      ensures refusals == old(refusals) + if ok then 0 else 1
    {
      hide Tables, KeepsVoices, Lawful, Evolves, CommandsOf;
      ghost var vs := voices[..];
      var sustain := channels[ch].sustain;
      var target := (v: Voice) =>
        v.channel == ch && v.keyReleased && v.stage == SustainHeld && !sustain && !v.sostenutoHeld;
      ReleaseLawful(target);
      ok := SweepEvolving(ReleaseIf(target));
      if ok {
        assert forall u | 0 <= u < capacity :: OnChannel(vs, ch, v => AfterDeferred(v, sustain))[u] == voices[u];
      }
    }

    method Sustain(ch: ChannelIndex, on: bool) returns (ok: bool)
      requires Valid()
      modifies voices, channels, this`wire, this`refusals
      ensures Valid() && Evolves(old(View()), View())
      ensures channels[..] == old(channels[..])[ch := old(channels[ch]).(sustain := on)]
      ensures ok ==> var was := old(channels[ch]).sustain;
                     voices[..] == OnChannel(old(voices[..]), ch, v => AfterSustain(v, was, on))
      ensures refusals == old(refusals) + if ok then 0 else 1
    {
      hide Tables, KeepsVoices, Evolves;
      ghost var before := View();
      var was := channels[ch].sustain;
      EvolvesReflexive(before);
      var clear := (v: Voice) => if was && !on then v.(sustainHeld := false) else v;
      if was && !on {
        RewriteVoices(ch, clear);
      } else {
        assert OnChannel(before.voices, ch, clear) == before.voices;
      }
      ghost var mid := View();
      WriteChannel(ch, channels[ch].(sustain := on));
      EvolvesTransitive(before, mid, View());
      ghost var after := (v: Voice) => AfterSustain(v, was, on);
      if on {
        OnChannelAgree(before.voices, ch, clear, after);
        return true;
      }
      mid := View();
      ok := ReleaseDeferred(ch);
      EvolvesTransitive(before, mid, View());
      OnChannelTwice(before.voices, ch, clear, v => AfterDeferred(v, false), after);
    }

    method Sostenuto(ch: ChannelIndex, on: bool) returns (ok: bool)
      requires Valid()
      modifies voices, channels, this`wire, this`refusals
      ensures Valid() && Evolves(old(View()), View())
      ensures channels[..] == old(channels[..])[ch := old(channels[ch]).(sostenuto := on)]
      ensures ok ==> var was, sustain := old(channels[ch]).sostenuto, channels[ch].sustain;
                     voices[..] == OnChannel(old(voices[..]), ch, v => AfterSostenuto(v, was, on, sustain))
      ensures refusals == old(refusals) + if ok then 0 else 1
    {
      hide Tables, KeepsVoices, Evolves;
      ghost var before := View();
      var was, sustain := channels[ch].sostenuto, channels[ch].sustain;
      EvolvesReflexive(before);
      var hold := (v: Voice) =>
        if !was && on && KeyDown(v) then v.(sostenutoHeld := true)
        else if was && !on then v.(sostenutoHeld := false) else v;
      if was != on {
        RewriteVoices(ch, hold);
      } else {
        assert OnChannel(before.voices, ch, hold) == before.voices;
      }
      ghost var mid := View();
      WriteChannel(ch, channels[ch].(sostenuto := on));
      EvolvesTransitive(before, mid, View());
      ghost var after := (v: Voice) => AfterSostenuto(v, was, on, sustain);
      if on {
        OnChannelAgree(before.voices, ch, hold, after);
        return true;
      }
      mid := View();
      ok := ReleaseDeferred(ch);
      EvolvesTransitive(before, mid, View());
      OnChannelTwice(before.voices, ch, hold, v => AfterDeferred(v, sustain), after);
    }

    /** Puts a channel's controllers back to power-on and lets go what only pedals held. */
    method ResetControllers(ch: ChannelIndex) returns (ok: bool)
      requires Valid()
      modifies voices, channels, this`wire, this`refusals, this`stale, this`marks, this`resets
      ensures Valid() && Evolves(old(View()), View())
      ensures channels[..] == old(channels[..])[ch := Marked(PowerOn(), ALL_GROUPS)]
      ensures resets == old(resets)[ch := old(resets)[ch] + 1]
      ensures marks == old(marks)[ch := old(marks)[ch] + 1]
      ensures ok ==> voices[..] == OnChannel(old(voices[..]), ch, v => AfterReset(v))
      ensures refusals == old(refusals) + if ok then 0 else 1
    {
      hide Tables, KeepsVoices, Evolves, StaleAfterMark;
      ghost var before := View();
      ResetChannel(ch);
      ghost var mid := View();
      var drop := (v: Voice) => v.(sustainHeld := false, sostenutoHeld := false);
      RewriteVoices(ch, drop);
      EvolvesTransitive(before, mid, View());
      mid := View();
      ok := ReleaseDeferred(ch);
      EvolvesTransitive(before, mid, View());
      OnChannelTwice(before.voices, ch, drop, v => AfterDeferred(v, false), v => AfterReset(v));
    }

    /** Stops everything on a channel, released or not, naming each voice in list order. */
    method AllSoundOff(ch: ChannelIndex) returns (ok: bool)
      requires Valid()
      modifies voices, this`wire, this`refusals
      ensures Valid() && Evolves(old(View()), View())
      ensures forall i | 0 <= i < |old(Book()).active| :: 0 <= old(Book()).active[i] < capacity
      ensures ok ==> voices[..] == OnChannel(old(voices[..]), ch, v => AfterStop(v))
      ensures ok ==> wire == old(wire) + CommandsOf(old(voices[..]), old(Book()).active, StopOn(ch))
      ensures refusals == old(refusals) + if ok then 0 else 1
    {
      hide Tables, KeepsVoices, Lawful, Evolves, CommandsOf;
      ghost var vs := voices[..];
      StopLawful(ch);
      ok := SweepEvolving(StopOn(ch));
      if ok {
        assert forall u | 0 <= u < capacity :: OnChannel(vs, ch, v => AfterStop(v))[u] == voices[u];
      }
    }

    /** Lifts every key that is down on a channel. */
    method AllNotesOff(ch: ChannelIndex) returns (ok: bool)
      requires Valid()
      modifies voices, this`wire, this`refusals
      ensures Valid() && Evolves(old(View()), View())
      ensures ok ==> var sustain := channels[ch].sustain;
                     voices[..] == OnChannel(old(voices[..]), ch, v => if KeyDown(v) then AfterKeyUp(v, sustain) else v)
      ensures refusals == old(refusals) + if ok then 0 else 1
    {
      hide Tables, KeepsVoices, Lawful, Evolves, CommandsOf;
      ghost var vs := voices[..];
      var sustain := channels[ch].sustain;
      var target := (v: Voice) => v.channel == ch;
      LiftLawful(target, sustain);
      ok := SweepEvolving(LiftIf(target, sustain));
      if ok {
        assert forall u | 0 <= u < capacity ::
            OnChannel(vs, ch, v => if KeyDown(v) then AfterKeyUp(v, sustain) else v)[u] == voices[u];
      }
    }

    /** A controller message. On success every voice of the channel has done what the controller
        asks of it, nobody else has moved, and no note hangs. */
    method ControlChange(ch: ChannelIndex, controller: int, value: int) returns (status: Status)
      requires Valid() && 0 <= controller && 0 <= value
      modifies voices, channels, this`wire, this`refusals, this`stale, this`marks, this`resets
      ensures Valid() && Evolves(old(View()), View())
      ensures controller > 127 || value > 127 <==> status == ArgumentError
      ensures status == ArgumentError ==> voices[..] == old(voices[..]) && channels[..] == old(channels[..]) && wire == old(wire)
      ensures status in {Ok, ArgumentError, SinkError}
      ensures controller != 121 ==> resets == old(resets)
      ensures resets == old(resets)[ch := resets[ch]]
      ensures marks == old(marks)[ch := marks[ch]] && old(marks)[ch] <= marks[ch] <= old(marks)[ch] + 1
      ensures status == Ok ==>
                && voices[..] == ControlVoices(old(voices[..]), ch, old(channels[ch]), controller, value)
                && channels[..] == old(channels[..])[ch := AfterControl(old(channels[ch]), controller, value)]
                && (old(Quiet()) ==> Quiet())
      ensures refusals == old(refusals) + if status == SinkError then 1 else 0
    {
      hide Tables, Evolves, NoHangingNotes, StaleAfterMark, ControlVoices, ControlChannel, Marked, PowerOn;
      ghost var before := View();
      EvolvesReflexive(before);
      if controller > 127 || value > 127 {
        return ArgumentError;
      }
      StoredFirst(before.voices, before.channels, ch, controller, value);
      WriteChannel(ch, channels[ch].(cc := channels[ch].cc[controller := value]));
      ghost var mid := View();
      var ok := Obey(ch, controller, value);
      EvolvesTransitive(before, mid, View());
      if !ok {
        return SinkError;
      }
      mid := View();
      if !Unmarked(controller) && controller != 121 {
        MarkDirty(ch, ALL_GROUPS);
        EvolvesTransitive(before, mid, View());
      }
      status := Ok;
      if NoHangingNotes(before.voices, before.channels) {
        ControlKeepsQuiet(before.voices, before.channels, ch, controller, value);
      }
    }

    /** The part of a controller message that voices and pedals notice. */
    method Obey(ch: ChannelIndex, controller: int, value: int) returns (ok: bool)
      requires Valid() && 0 <= controller <= 127 && 0 <= value <= 127
      requires channels[ch].cc[controller] == value
      modifies voices, channels, this`wire, this`refusals, this`stale, this`marks, this`resets
      ensures Valid() && Evolves(old(View()), View())
      ensures controller != 121 ==> resets == old(resets) && marks == old(marks)
      ensures resets == old(resets)[ch := resets[ch]]
      ensures marks == old(marks)[ch := marks[ch]] && old(marks)[ch] <= marks[ch] <= old(marks)[ch] + 1
      ensures ok ==> voices[..] == ControlVoices(old(voices[..]), ch, old(channels[ch]), controller, value)
      ensures ok ==> channels[..] == old(channels[..])[ch :=
                       if controller == 121 then Marked(PowerOn(), ALL_GROUPS) else ControlChannel(old(channels[ch]), controller, value)]
      ensures refusals == old(refusals) + if ok then 0 else 1
    {
      hide Tables, KeepsVoices, Evolves, StaleAfterMark, CommandsOf, NoHangingNotes, Marked, PowerOn, OnChannel;
      ghost var before, c := View(), channels[ch];
      ghost var vs := before.voices;
      EvolvesReflexive(before);
      assert c.cc[controller := value] == c.cc && before.channels[ch := c] == before.channels;
      ghost var f := (v: Voice) => ControlVoice(v, c, controller, value);
      ok := true;
      if controller == 64 {
        ok := Sustain(ch, value >= 64);
        OnChannelAgree(vs, ch, v => AfterSustain(v, c.sustain, value >= 64), f);
      } else if controller == 66 {
        ok := Sostenuto(ch, value >= 64);
        OnChannelAgree(vs, ch, v => AfterSostenuto(v, c.sostenuto, value >= 64, c.sustain), f);
      } else if controller == 67 {
        WriteChannel(ch, channels[ch].(soft := value >= 64));
        OnChannelIdle(vs, ch, f);
      } else if controller == 120 {
        ok := AllSoundOff(ch);
        OnChannelAgree(vs, ch, v => AfterStop(v), f);
      } else if controller == 121 {
        ok := ResetControllers(ch);
        OnChannelAgree(vs, ch, v => AfterReset(v), f);
      } else if controller >= 123 {
        ok := AllNotesOff(ch);
        OnChannelAgree(vs, ch, v => if KeyDown(v) then AfterKeyUp(v, c.sustain) else v, f);
      } else {
        OnChannelIdle(vs, ch, f);
      }
    }

    /** Lifts and releases everything, whatever the pedals say. */
    method ReleaseAll() returns (status: Status)
      requires Valid()
      modifies voices, this`wire, this`refusals
      ensures Valid() && Evolves(old(View()), View()) && status in {Ok, SinkError}
      ensures forall i | 0 <= i < |old(Book()).active| :: 0 <= old(Book()).active[i] < capacity
      ensures status == Ok ==>
                && (forall u | 0 <= u < capacity :: !Unreleased(voices[u]))
                && (forall u | 0 <= u < capacity && !Unreleased(old(voices[u])) :: voices[u] == old(voices[u]))
                && wire == old(wire) + CommandsOf(old(voices[..]), old(Book()).active, DropAll())
                && (old(Quiet()) ==> Quiet())
      ensures refusals == old(refusals) + if status == SinkError then 1 else 0
    {
      hide Tables, KeepsVoices, Lawful, Evolves, CommandsOf;
      DropLawful();
      var ok := SweepEvolving(DropAll());
      status := if ok then Ok else SinkError;
    }

    /** Frees the slot of a voice the FPGA has finished. */
    method CompleteVoice(v: int) returns (status: Status)
      requires Valid() && 0 <= v
      modifies voices, freeStack, activeIndices, this`freeCount, this`activeCount, this`activeVoicesStat, this`freePos
      ensures Valid() && Evolves(old(View()), View())
      ensures status == if v >= capacity then ArgumentError else if old(voices[v]).stage == Free then StateError else Ok
      ensures status != Ok ==> voices[..] == old(voices[..]) && Book() == old(Book())
      ensures status == Ok ==>
                && voices[v].stage == Free && voices[v].generation == old(voices[v]).generation
                && KeepsElsewhere(old(voices[..]), voices[..], v)
                && freeStack[..freeCount] == old(freeStack[..freeCount]) + [v]
                && AdriftBut(old(voices[..]), wire, voices[..], wire, v, Unreleased(old(voices[v])))
      ensures old(Quiet()) ==> Quiet()
    {
      hide Tables, KeepsVoices, Evolves, NoHangingNotes, KeepsElsewhere, AdriftBut;
      ghost var before, book := View(), Book();
      EvolvesReflexive(before);
      if v >= capacity {
        return ArgumentError;
      }
      if voices[v].stage == Free {
        return StateError;
      }
      ReclaimVoice(v);
      GivenUp(before.voices, book, voices[..], v);
      FreeEvolves(before, View(), v);
      if NoHangingNotes(before.voices, channels[..]) {
        ElsewhereKeepsQuiet(before.voices, voices[..], channels[..], v);
      }
      status := Ok;
    }

    // ---- Control jobs ---------------------------------------------------------------------

    /** Recomputes one parameter family of a voice. A command goes out exactly if the value has
        changed. */
    method RefreshGroup(v: int, g: Group, groups: set<Group>, changed: set<Group>) returns (ok: bool)
      requires Valid() && 0 <= v < capacity && voices[v].stage != Free
      modifies this`wire, this`refusals, this`stale
      ensures Valid()
      ensures ok ==> wire == old(wire) + if g in groups * changed then [Update(v, voices[v].generation, g)] else []
      ensures ok ==> stale == old(stale)[v := old(stale)[v] - {g} * groups]
      ensures !ok ==> stale == old(stale) && wire == old(wire)
      ensures refusals == old(refusals) + if ok then 0 else 1
    {
      hide Tables;
      ghost var book := Book();
      if g !in groups {
        assert stale[v] - {g} * groups == stale[v];
        return true;
      }
      ok := true;
      if g in changed {
        ok := Emit(Update(v, voices[v].generation, g));
        if !ok {
          assert Book() == book;
          return;
        }
        TablesUpdate(voices[..], book, v, g);
      }
      stale := stale[v := stale[v] - {g} * groups];
      assert Book() == book.(wire := wire);
    }

    /** Recomputes pitch, gain and filter of a voice, as far as asked for. */
    method RefreshVoice(v: int, groups: set<Group>, changed: set<Group>) returns (ok: bool)
      requires Valid() && 0 <= v < capacity && voices[v].stage != Free
      modifies this`wire, this`refusals, this`stale
      ensures Valid() && stale == old(stale)[v := stale[v]] && stale[v] <= old(stale)[v]
      ensures ok ==> stale[v] == old(stale)[v] - groups
      ensures ok ==> wire == old(wire) + Updates(v, voices[v].generation, groups * changed)
      ensures refusals == old(refusals) + if ok then 0 else 1
    {
      hide Tables;
      GroupByGroup(stale[v], groups);
      ok := RefreshGroup(v, Pitch, groups, changed);
      if ok {
        ok := RefreshGroup(v, Gain, groups, changed);
        if ok {
          ok := RefreshGroup(v, Filter, groups, changed);
        }
      }
    }

    /** Moves the envelope and the oscillators of a voice, up to the moment of sending. */
    method MoveVoice(v: int, elapsed: U32)
      requires Valid() && 0 <= v < capacity && voices[v].stage != Free && elapsed >= 1
      modifies voices
      ensures Valid()
      ensures voices[..] == old(voices[..])[v := old(voices[v]).(motion := MovedToSend(old(voices[v]).motion, elapsed))]
    {
      hide Tables, Envelope.EnvTicks, Envelope.LfoTicks, Envelope.AdvanceLfoBeforeFinal;
      var m := voices[v].motion;
      if m.periodic == {} {
        return;
      }
      var env := Envelope.AdvanceElapsed(m.config, m.env, elapsed);
      Envelope.LfoFoldExact(m.modLfoStep, m.modLfo, elapsed - 1);
      Envelope.LfoFoldExact(m.vibLfoStep, m.vibLfo, elapsed - 1);
      m := m.(env := env,
              modLfo := Envelope.AdvanceLfoBeforeFinal(m.modLfoStep, m.modLfo, elapsed - 1),
              vibLfo := Envelope.AdvanceLfoBeforeFinal(m.vibLfoStep, m.vibLfo, elapsed - 1));
      WriteMotion(v, m);
    }

    method WriteMotion(v: int, m: Motion)
      requires Valid() && 0 <= v < capacity && voices[v].stage != Free
      modifies voices
      ensures Valid() && voices[..] == old(voices[..])[v := old(voices[v]).(motion := m)]
    {
      hide Tables;
      ghost var vs := voices[..];
      var x := voices[v].(motion := m);
      voices[v] := x;
      assert voices[..] == vs[v := x];
      TablesKept(vs, Book(), v, x);
    }

    /** The oscillators' last tick, once the parameters have been sent. */
    method FinishMove(v: int, ghost before: Motion, elapsed: U32)
      requires Valid() && 0 <= v < capacity && voices[v].stage != Free && elapsed >= 1
      requires voices[v].motion == MovedToSend(before, elapsed)
      modifies voices
      ensures Valid() && voices[..] == old(voices[..])[v := old(voices[v]).(motion := Moved(before, elapsed))]
    {
      hide Tables, Envelope.EnvTicks, Envelope.LfoTicks;
      var m := voices[v].motion;
      if m.periodic == {} {
        return;
      }
      LastTick(before.modLfoStep, before.modLfo, elapsed);
      LastTick(before.vibLfoStep, before.vibLfo, elapsed);
      WriteMotion(v, m.(modLfo := Envelope.LfoTick(m.modLfoStep, m.modLfo), vibLfo := Envelope.LfoTick(m.vibLfoStep, m.vibLfo)));
    }

    lemma LastTick(step: U32, l: Envelope.Lfo, n: U32)
      requires n >= 1
      ensures Envelope.LfoTick(step, Envelope.LfoTicks(step, l, n - 1)) == Envelope.LfoTicks(step, l, n)
    {
      Envelope.LfoSplitExact(step, l, n);
    }

    /** Advances one voice: it moves by the elapsed ticks, and whatever its channel has marked and
        whatever moves periodically is recomputed before the oscillators' last tick. `changed` tells
        which values have changed. */
    method AdvanceVoice(v: int, elapsed: U32, changed: set<Group>) returns (ok: bool)
      requires Valid() && 0 <= v < capacity && voices[v].stage != Free && elapsed >= 1
      modifies voices, this`wire, this`refusals, this`stale, this`advances
      ensures Valid()
      ensures var x := old(voices[v]);
              voices[..] == old(voices[..])[v := x.(motion := if ok then Moved(x.motion, elapsed) else MovedToSend(x.motion, elapsed))]
      ensures stale == old(stale)[v := stale[v]] && stale[v] <= old(stale)[v]
      ensures advances == old(advances)[v := old(advances)[v] + 1]
      ensures ok ==> stale[v] !! channels[voices[v].channel].dirtyGroups
      ensures ok ==> wire == old(wire) + Updates(v, old(voices[v]).generation,
                                                 GroupsOf(old(View()), v, periodicEnabled, tickIndex, elapsed) * changed)
      ensures refusals == old(refusals) + if ok then 0 else 1
    {
      hide Tables, Moved, MovedToSend, Updates;
      ghost var vs := voices[..];
      PeriodicStays(vs[v].motion, elapsed);
      MoveVoice(v, elapsed);
      advances := advances[v := advances[v] + 1];
      var groups := GroupsToPublish(channels[voices[v].channel].dirtyGroups, voices[v].motion.periodic,
                                    periodicEnabled, tickIndex, elapsed);
      ok := RefreshVoice(v, groups, changed);
      if ok {
        FinishMove(v, vs[v].motion, elapsed);
      }
    }

    lemma PeriodicStays(m: Motion, n: nat)
      requires n >= 1
      ensures MovedToSend(m, n).periodic == m.periodic
    {
    }

    method CaptureSnapshot() returns (snaps: seq<Snap>, revisions: seq<U32>)
      requires Valid()
      ensures Sized(View()) && Remembers(View(), snaps, revisions) && |View().voices| == capacity && capacity > 0
      ensures activeCount == 0 ==> AllFree(View().voices)
    {
      hide Tables;
      if activeCount == 0 {
        NobodyListed(voices[..], Book());
      }
      snaps, revisions := [], [];
      for v := 0 to capacity
        invariant |snaps| == v && forall u | 0 <= u < v :: snaps[u] == SnapOf(voices[u])
      {
        snaps := snaps + [Snap(voices[v].generation, voices[v].stage != Free, voices[v].stage == Released)];
      }
      for c := 0 to CHANNEL_COUNT
        invariant |revisions| == c && forall d | 0 <= d < c :: revisions[d] == channels[d].dirtyRevision
      {
        revisions := revisions + [channels[c].dirtyRevision];
      }
    }

    /** Advances a run of voices that are still the ones the job remembers. `changed` tells for each
        voice which of its values have changed. */
    method AdvanceSlice(snaps: seq<Snap>, first: int, count: int, elapsed: U32, changed: int -> set<Group>)
      returns (status: Status, ghost done: nat)
      requires Valid() && |snaps| == capacity && 0 <= first && 0 <= count
      modifies voices, this`wire, this`refusals, this`stale, this`advances
      ensures Valid() && status in {Ok, ArgumentError, SinkError}
      ensures status == ArgumentError <==> elapsed == 0 || first > capacity || count > capacity - first
      ensures status == ArgumentError ==> View() == old(View()) && wire == old(wire)
      ensures status == Ok ==> done == count
      ensures status == SinkError ==> done < count
      ensures status != ArgumentError ==> Sliced(old(View()), View(), snaps, first, done, elapsed, status == SinkError)
      ensures status == Ok ==>
                wire == old(wire) + SliceUpdates(old(View()), snaps, first, count, changed, periodicEnabled, tickIndex, elapsed)
      ensures refusals == old(refusals) + if status == SinkError then 1 else 0
    {
      hide Tables, Sliced, Moved, MovedToSend, Updates, SliceUpdates, NoHangingNotes, Eligible, ToU32, GroupsOf;
      ghost var before := View();
      done := 0;
      if elapsed == 0 || first > capacity || count > capacity - first {
        return ArgumentError, 0;
      }
      SlicedNothing(before, snaps, first, elapsed);
      NoUpdates(before, snaps, first, changed, elapsed);
      for offset := 0 to count
        invariant Valid() && done == offset && refusals == old(refusals)
        invariant Sliced(before, View(), snaps, first, done, elapsed, false)
        invariant wire == old(wire) + SliceUpdates(before, snaps, first, done, changed, periodicEnabled, tickIndex, elapsed)
      {
        MoreUpdates(before, snaps, first, done, changed, elapsed);
        NotYetSliced(before, View(), snaps, first, done, elapsed);
        if Eligible(snaps[first + offset], voices[first + offset]) {
          var ok := AdvanceNext(before, snaps, first, done, first + offset, elapsed, changed);
          if !ok {
            return SinkError, done;
          }
        } else {
          SlicedSkip(before, View(), snaps, first, done, elapsed);
        }
        done := done + 1;
      }
      status := Ok;
    }

    /** The next voice of a slice. */
    method AdvanceNext(ghost before: Picture, snaps: seq<Snap>, ghost first: nat, ghost done: nat, v: int, elapsed: U32,
                       changed: int -> set<Group>)
      returns (ok: bool)
      requires Valid() && |snaps| == capacity && v == first + done < capacity && |before.voices| == capacity && elapsed >= 1
      requires Sliced(before, View(), snaps, first, done, elapsed, false) && Eligible(snaps[v], voices[v])
      modifies voices, this`wire, this`refusals, this`stale, this`advances
      ensures Valid() && Sized(before)
      ensures Sliced(before, View(), snaps, first, if ok then done + 1 else done, elapsed, !ok)
      ensures ok ==> wire == old(wire) + Updates(v, before.voices[v].generation,
                                                 GroupsOf(before, v, periodicEnabled, tickIndex, elapsed) * changed(v))
      ensures refusals == old(refusals) + if ok then 0 else 1
    {
      hide Tables, Sliced, Moved, MovedToSend, Updates;
      ghost var mid := View();
      NotYetSliced(before, mid, snaps, first, done, elapsed);
      ok := AdvanceVoice(v, elapsed, changed(v));
      SlicedStep(before, mid, View(), snaps, first, done, elapsed, ok);
    }

    lemma NoUpdates(p: Picture, snaps: seq<Snap>, first: nat, changed: int -> set<Group>, elapsed: U32)
      requires Sized(p) && |snaps| == |p.voices| && first <= |p.voices|
      ensures SliceUpdates(p, snaps, first, 0, changed, periodicEnabled, tickIndex, elapsed) == []
    {
    }

    lemma MoreUpdates(p: Picture, snaps: seq<Snap>, first: nat, done: nat, changed: int -> set<Group>, elapsed: U32)
      requires Sized(p) && |snaps| == |p.voices| && first + done < |p.voices|
      ensures var v := first + done;
              SliceUpdates(p, snaps, first, done + 1, changed, periodicEnabled, tickIndex, elapsed) ==
              SliceUpdates(p, snaps, first, done, changed, periodicEnabled, tickIndex, elapsed)
              + if Eligible(snaps[v], p.voices[v])
                then Updates(v, p.voices[v].generation, GroupsOf(p, v, periodicEnabled, tickIndex, elapsed) * changed(v)) else []
    {
      hide Updates, GroupsOf;
    }

    /** The next voice of a slice is as it was. */
    lemma NotYetSliced(p: Picture, q: Picture, snaps: seq<Snap>, first: nat, done: nat, elapsed: U32)
      requires Sliced(p, q, snaps, first, done, elapsed, false) && first + done < |p.voices|
      ensures Sized(p) && q.voices[first + done] == p.voices[first + done] && q.channels == p.channels
    {
      assert SlotSliced(p, q, snaps, first, done, elapsed, false, first + done);
    }

    /** Ends a job: a channel nobody has marked since the snapshot is clean again. */
    method CompleteControl(elapsed: U32, revisions: seq<U32>)
      requires Valid() && |revisions| == CHANNEL_COUNT && elapsed != 0
      modifies channels, this`tickIndex
      ensures Valid() && channels[..] == Cleared(old(channels[..]), revisions)
      ensures tickIndex == ToU32(old(tickIndex) + elapsed)
    {
      hide Tables;
      tickIndex := ToU32(tickIndex + elapsed);
      for c := 0 to CHANNEL_COUNT
        invariant Valid() && tickIndex == ToU32(old(tickIndex) + elapsed)
        invariant forall d | 0 <= d < c :: channels[d] == Cleared(old(channels[..]), revisions)[d]
        invariant forall d | c <= d < CHANNEL_COUNT :: channels[d] == old(channels[d])
      {
        if channels[c].dirtyRevision == revisions[c] {
          channels[c] := channels[c].(dirtyGroups := {});
        }
      }
      assert forall d | 0 <= d < CHANNEL_COUNT :: channels[d] == Cleared(old(channels[..]), revisions)[d];
    }
  }
}
