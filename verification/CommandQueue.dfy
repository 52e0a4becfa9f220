/**
 Commands on their way to the FPGA as pure values: which queue or slot a command waits in, which
 one leaves next, and why the order on the wire is right although updates overtake each other.
 */
module CommandQueue {
  import opened CInt
  import opened Wrappers

  const NUM_VOICES: int := 512
  const SLOT_COUNT: int := 1536
  const MAX_COMMAND_WORDS: int := 17
  const TRANSACTION_WORDS: int := 63
  const LIFECYCLE_CAPACITY: int := 2048
  const NORMAL_CAPACITY: int := 512

  const START: int := 0x10
  const RELEASE: int := 0x14
  const STOP: int := 0x15

  type Words = seq<U32>

  /** A command is its header and as many payload words as the header says. */
  predicate Whole(c: Words)
  {
    1 <= |c| <= MAX_COMMAND_WORDS && |c| == c[0] % 256 + 1
  }

  type Command = c: Words | Whole(c) witness [0]

  function Opcode(c: Command): int { c[0] / 0x100_0000 }

  function VoiceOf(c: Command): (v: int)
    ensures 0 <= v < 1024
  {
    (c[0] / 0x4000) % 1024
  }

  function GenerationOf(c: Command): int { if |c| > 1 then c[1] % TWO_16 else 0 }

  predicate Lifecycle(c: Command) { Opcode(c) == START || Opcode(c) == RELEASE || Opcode(c) == STOP }

  function Kind(c: Command): int
  {
    if Opcode(c) == 0x16 then 0 else if Opcode(c) == 0x18 then 1 else if Opcode(c) == 0x17 then 2 else -1
  }

  /** Gain, pitch and filter updates of the first 512 voices may replace each other. */
  predicate Replaceable(c: Command) { Kind(c) >= 0 && VoiceOf(c) < NUM_VOICES }

  function SlotOf(c: Command): (i: int)
    requires Replaceable(c)
    ensures 0 <= i < SLOT_COUNT && i / 3 == VoiceOf(c) && i % 3 == Kind(c)
  {
    VoiceOf(c) * 3 + Kind(c)
  }

  predicate Normal(c: Command) { !Replaceable(c) && !Lifecycle(c) }

  type Slots = seq<Option<Command>>

  /** What is waiting. */
  datatype State = State(lifecycle: seq<Command>, normal: seq<Command>, slots: Slots, cursor: int)

  predicate Formed(s: State)
  {
    && |s.slots| == SLOT_COUNT && 0 <= s.cursor < SLOT_COUNT
    && (forall i | 0 <= i < SLOT_COUNT && s.slots[i].Some? ::
          Replaceable(s.slots[i].value) && SlotOf(s.slots[i].value) == i)
    && (forall i | 0 <= i < |s.lifecycle| :: Lifecycle(s.lifecycle[i]))
    && (forall i | 0 <= i < |s.normal| :: Normal(s.normal[i]))
  }

  // ---- Counting ---------------------------------------------------------------------------

  function Filled(slots: Slots): nat
  {
    if slots == [] then 0
    else Filled(slots[..|slots| - 1]) + if slots[|slots| - 1].Some? then 1 else 0
  }

  lemma {:induction false} FilledUpdate(slots: Slots, i: int, x: Option<Command>)
    requires 0 <= i < |slots|
    ensures Filled(slots[i := x]) + (if slots[i].Some? then 1 else 0) == Filled(slots) + if x.Some? then 1 else 0
  {
    var n := |slots| - 1;
    if i == n {
      assert slots[i := x][..n] == slots[..n];
    } else {
      assert slots[i := x][..n] == slots[..n][i := x];
      FilledUpdate(slots[..n], i, x);
    }
  }

  lemma {:induction false} FilledZero(slots: Slots)
    ensures Filled(slots) == 0 <==> forall i | 0 <= i < |slots| :: slots[i].None?
  {
    if slots != [] {
      var n := |slots| - 1;
      FilledZero(slots[..n]);
      assert forall i | 0 <= i < n :: slots[..n][i] == slots[i];
    }
  }

  function Pending(s: State): nat { |s.lifecycle| + |s.normal| + Filled(s.slots) }

  // ---- Arrival ----------------------------------------------------------------------------

  /** A start forgets updates of other generations of its voice; a stop forgets all of them. */
  predicate Forgets(c: Command, update: Command)
  {
    Replaceable(update) && VoiceOf(update) == VoiceOf(c) &&
    (Opcode(c) == STOP || (Opcode(c) == START && GenerationOf(update) != GenerationOf(c)))
  }

  function Surviving(slots: Slots, c: Command): (r: Slots)
    ensures |r| == |slots|
  {
    seq(|slots|, i requires 0 <= i < |slots| =>
          if slots[i].Some? && Forgets(c, slots[i].value) then None else slots[i])
  }

  function Arrived(s: State, c: Command): (r: State)
    requires |s.slots| == SLOT_COUNT
  {
    if Replaceable(c) then s.(slots := s.slots[SlotOf(c) := Some(c)])
    else
      var kept := Surviving(s.slots, c);
      if Lifecycle(c) then s.(slots := kept, lifecycle := s.lifecycle + [c])
      else s.(normal := s.normal + [c])
  }

  // ---- Departure --------------------------------------------------------------------------

  /** The first filled slot at or after the cursor, going round once. */
  predicate IsNext(slots: Slots, cursor: int, scanned: int)
    requires |slots| == SLOT_COUNT && 0 <= cursor < SLOT_COUNT
  {
    && 0 <= scanned < SLOT_COUNT && slots[Around(cursor, scanned)].Some?
    && forall k | 0 <= k < scanned :: slots[Around(cursor, k)].None?
  }

  function Around(cursor: int, k: int): (i: int)
    requires 0 <= cursor < SLOT_COUNT && 0 <= k < SLOT_COUNT
    ensures 0 <= i < SLOT_COUNT
  {
    (cursor + k) % SLOT_COUNT
  }

  lemma ReachedAround(cursor: int, i: int)
    requires 0 <= cursor < SLOT_COUNT && 0 <= i < SLOT_COUNT
    ensures exists k :: 0 <= k < SLOT_COUNT && Around(cursor, k) == i
  {
    var k := if i >= cursor then i - cursor else i - cursor + SLOT_COUNT;
    assert Around(cursor, k) == i;
  }

  /** One departure: life cycle first, then the rest in order, then the updates in rotation. */
  ghost predicate Departs(s: State, c: Command, t: State)
  {
    && Formed(s)
    && if s.lifecycle != [] then
         c == s.lifecycle[0] && t == s.(lifecycle := s.lifecycle[1..])
       else if s.normal != [] then
         c == s.normal[0] && t == s.(normal := s.normal[1..])
       else
         exists k :: IsNext(s.slots, s.cursor, k) &&
           var flat := Around(s.cursor, k);
           && s.slots[flat] == Some(c)
           && t == s.(slots := s.slots[flat := None], cursor := (flat + 1) % SLOT_COUNT)
  }

  /** A command that no longer fits goes back where it came from. */
  function Returned(s: State, c: Command): State
    requires |s.slots| == SLOT_COUNT
  {
    if Lifecycle(c) then s.(lifecycle := [c] + s.lifecycle)
    else if Replaceable(c) then s.(slots := s.slots[SlotOf(c) := Some(c)])
    else s.(normal := [c] + s.normal)
  }

  /** Taking a command and giving it back changes only where the rotation stands. */
  lemma ReturnUndoesDeparture(s: State, c: Command, t: State)
    requires Departs(s, c, t)
    ensures |t.slots| == SLOT_COUNT && Returned(t, c) == s.(cursor := t.cursor)
  {
    if s.lifecycle != [] {
      assert [c] + s.lifecycle[1..] == s.lifecycle;
    } else if s.normal != [] {
      assert [c] + s.normal[1..] == s.normal;
    } else {
      var k :| IsNext(s.slots, s.cursor, k) && s.slots[Around(s.cursor, k)] == Some(c)
               && t == s.(slots := s.slots[Around(s.cursor, k) := None], cursor := (Around(s.cursor, k) + 1) % SLOT_COUNT);
      assert t.slots[Around(s.cursor, k) := Some(c)] == s.slots;
    }
  }

  lemma DepartureForms(s: State, c: Command, t: State)
    requires Departs(s, c, t)
    ensures Formed(t) && Pending(t) == Pending(s) - 1
  {
    if s.lifecycle == [] && s.normal == [] {
      var k :| IsNext(s.slots, s.cursor, k) && s.slots[Around(s.cursor, k)] == Some(c)
               && t == s.(slots := s.slots[Around(s.cursor, k) := None], cursor := (Around(s.cursor, k) + 1) % SLOT_COUNT);
      FilledUpdate(s.slots, Around(s.cursor, k), None);
    }
  }

  lemma ArrivalForms(s: State, c: Command)
    requires Formed(s)
    ensures Formed(Arrived(s, c))
  {
  }

  // ---- Order on the wire ------------------------------------------------------------------

  /** Generation of the last start of a voice in a stream. */
  function LastStart(stream: seq<Command>, v: int): Option<int>
  {
    if stream == [] then None
    else
      var c := stream[|stream| - 1];
      if Opcode(c) == START && VoiceOf(c) == v then Some(GenerationOf(c)) else LastStart(stream[..|stream| - 1], v)
  }

  /** A gain, pitch or filter update of a voice. */
  predicate Updates(c: Command, v: int) { Kind(c) >= 0 && VoiceOf(c) == v }

  /** Every update of the voice carries the generation of its last start before it. */
  ghost predicate Tagged(stream: seq<Command>, v: int)
  {
    forall i | 0 <= i < |stream| && Updates(stream[i], v) ::
      LastStart(stream[..i], v) == Some(GenerationOf(stream[i]))
  }

  /** The two queues. */
  datatype Lane = Urgent | Plain

  predicate Queues(lane: Lane, c: Command)
  {
    match lane
    case Urgent => Lifecycle(c)
    case Plain => Normal(c)
  }

  function Only(stream: seq<Command>, lane: Lane): seq<Command>
  {
    if stream == [] then []
    else
      var c := stream[|stream| - 1];
      if Queues(lane, c) then Only(stream[..|stream| - 1], lane) + [c] else Only(stream[..|stream| - 1], lane)
  }

  lemma Snoc(stream: seq<Command>, c: Command)
    ensures forall lane :: Only(stream + [c], lane) == if Queues(lane, c) then Only(stream, lane) + [c] else Only(stream, lane)
    ensures forall v :: LastStart(stream + [c], v) ==
              if Opcode(c) == START && VoiceOf(c) == v then Some(GenerationOf(c)) else LastStart(stream, v)
    ensures forall v :: Tagged(stream + [c], v) <==>
              Tagged(stream, v) && (Updates(c, v) ==> LastStart(stream, v) == Some(GenerationOf(c)))
  {
    assert (stream + [c])[..|stream|] == stream;
    assert forall i | 0 <= i < |stream| :: (stream + [c])[..i] == stream[..i] && (stream + [c])[i] == stream[i];
    forall v, i | Tagged(stream + [c], v) && 0 <= i < |stream| && Updates(stream[i], v)
      ensures LastStart(stream[..i], v) == Some(GenerationOf(stream[i]))
    {
      assert (stream + [c])[i] == stream[i];
    }
  }

  /** Starts are life-cycle commands, so the rest of the stream does not matter to them. */
  lemma {:induction false} StartsOnly(stream: seq<Command>, v: int)
    ensures LastStart(Only(stream, Urgent), v) == LastStart(stream, v)
  {
    if stream != [] {
      var n := |stream| - 1;
      var front, c := Only(stream[..n], Urgent), stream[n];
      StartsOnly(stream[..n], v);
      if Lifecycle(c) {
        assert (front + [c])[..|front|] == front;
      }
    }
  }

  /** Each queue holds, in order, what has arrived for it and not yet been sent. */
  ghost predicate InLanes(history: seq<Command>, s: State, sent: seq<Command>)
  {
    && Only(history, Urgent) == Only(sent, Urgent) + s.lifecycle
    && Only(history, Plain) == Only(sent, Plain) + s.normal
  }

  /** The waiting updates of a voice are of its present generation. */
  ghost predicate Fresh(history: seq<Command>, slots: Slots, v: int)
  {
    forall i | 0 <= i < |slots| && slots[i].Some? && VoiceOf(slots[i].value) == v ::
      LastStart(history, v) == Some(GenerationOf(slots[i].value))
  }

  /** If producers tag the updates of a voice with the generation they last started, so does the
      wire, and every waiting update is of the present generation. */
  ghost predicate InGeneration(history: seq<Command>, slots: Slots, sent: seq<Command>)
  {
    forall v | 0 <= v < NUM_VOICES && Tagged(history, v) :: Tagged(sent, v) && Fresh(history, slots, v)
  }

  /** The last update that arrived for a slot. */
  function LastFor(stream: seq<Command>, i: int): Option<Command>
  {
    if stream == [] then None
    else
      var c := stream[|stream| - 1];
      if Replaceable(c) && SlotOf(c) == i then Some(c) else LastFor(stream[..|stream| - 1], i)
  }

  /** A slot that is filled holds the newest update; older ones were replaced. */
  ghost predicate Newest(history: seq<Command>, slots: Slots)
  {
    forall i | 0 <= i < |slots| && slots[i].Some? :: slots[i] == LastFor(history, i)
  }

  lemma ArrivalNewest(history: seq<Command>, s: State, c: Command)
    requires |s.slots| == SLOT_COUNT && Newest(history, s.slots)
    ensures Newest(history + [c], Arrived(s, c).slots)
  {
    assert (history + [c])[..|history|] == history;
  }

  /** What ties the arrivals, the commands waiting and the commands sent together. */
  ghost predicate Consistent(history: seq<Command>, s: State, sent: seq<Command>)
  {
    && Formed(s) && Newest(history, s.slots)
    && InLanes(history, s, sent) && InGeneration(history, s.slots, sent)
  }

  lemma ConsistentStart(s: State)
    requires Formed(s) && s.lifecycle == s.normal == [] && forall i | 0 <= i < SLOT_COUNT :: s.slots[i].None?
    ensures Consistent([], s, [])
  {
  }

  lemma ArrivalConsistent(history: seq<Command>, s: State, sent: seq<Command>, c: Command)
    requires Consistent(history, s, sent)
    ensures Consistent(history + [c], Arrived(s, c), sent)
  {
    ArrivalForms(s, c);
    ArrivalNewest(history, s, c);
    ArrivalLanes(history, s, sent, c);
    ArrivalGeneration(history, s, sent, c);
  }

  lemma ArrivalLanes(history: seq<Command>, s: State, sent: seq<Command>, c: Command)
    requires |s.slots| == SLOT_COUNT && InLanes(history, s, sent)
    ensures InLanes(history + [c], Arrived(s, c), sent)
  {
    hide Only, LastStart, Tagged, Surviving, SlotOf;
    Snoc(history, c);
    forall a: seq<Command>, b: seq<Command>
      ensures (a + b) + [c] == a + (b + [c])
    {
    }
  }

  lemma ArrivalGeneration(history: seq<Command>, s: State, sent: seq<Command>, c: Command)
    requires Formed(s) && InGeneration(history, s.slots, sent)
    ensures InGeneration(history + [c], Arrived(s, c).slots, sent)
  {
    hide Only, LastStart, Tagged, VoiceOf, GenerationOf, Opcode;
    Snoc(history, c);
  }

  /** Dropping waiting updates is always safe. */
  lemma FewerConsistent(history: seq<Command>, s: State, sent: seq<Command>, c: Command)
    requires Consistent(history, s, sent)
    ensures Consistent(history, s.(slots := Surviving(s.slots, c)), sent)
  {
    hide Only, LastStart, Tagged, LastFor;
  }

  lemma DepartureConsistent(history: seq<Command>, s: State, sent: seq<Command>, c: Command, t: State)
    requires Consistent(history, s, sent) && Departs(s, c, t)
    ensures Consistent(history, t, sent + [c])
  {
    DepartureForms(s, c, t);
    DepartureLanes(history, s, sent, c, t);
    DepartureGeneration(history, s, sent, c, t);
  }

  lemma DepartureLanes(history: seq<Command>, s: State, sent: seq<Command>, c: Command, t: State)
    requires InLanes(history, s, sent) && Departs(s, c, t)
    ensures InLanes(history, t, sent + [c])
  {
    hide Only, LastStart, Tagged, IsNext, VoiceOf, GenerationOf, Opcode;
    Snoc(sent, c);
    if s.lifecycle != [] {
      assert Only(sent, Urgent) + s.lifecycle == Only(sent, Urgent) + [c] + s.lifecycle[1..];
    } else if s.normal != [] {
      assert Only(sent, Plain) + s.normal == Only(sent, Plain) + [c] + s.normal[1..];
    }
  }

  lemma DepartureGeneration(history: seq<Command>, s: State, sent: seq<Command>, c: Command, t: State)
    requires InLanes(history, s, sent) && InGeneration(history, s.slots, sent) && Departs(s, c, t)
    ensures InGeneration(history, t.slots, sent + [c])
  {
    hide Only, LastStart, Tagged, IsNext, VoiceOf, GenerationOf, Opcode;
    Snoc(sent, c);
    if s.lifecycle == [] {
      StartsOnly(history, VoiceOf(c));
      StartsOnly(sent, VoiceOf(c));
      assert Only(sent, Urgent) + [] == Only(sent, Urgent);
    }
  }

  /** A command given back was never sent, so nothing is disturbed. */
  lemma ReturnConsistent(history: seq<Command>, s: State, sent: seq<Command>, c: Command, t: State)
    requires Consistent(history, s, sent) && Departs(s, c, t)
    ensures |t.slots| == SLOT_COUNT && Consistent(history, Returned(t, c), sent)
    ensures Pending(Returned(t, c)) == Pending(s)
  {
    hide Only, LastStart, Tagged, LastFor, Filled;
    ReturnUndoesDeparture(s, c, t);
    DepartureForms(s, c, t);
  }

  // ---- Whole runs -------------------------------------------------------------------------

  datatype Move = Arrive(c: Command) | Depart(c: Command)

  ghost predicate Moves(s: State, m: Move, t: State)
  {
    match m
    case Arrive(c) => |s.slots| == SLOT_COUNT && t == Arrived(s, c)
    case Depart(c) => Departs(s, c, t)
  }

  predicate Idle(s: State)
  {
    Formed(s) && s.lifecycle == s.normal == [] && forall i | 0 <= i < SLOT_COUNT :: s.slots[i].None?
  }

  /** Some moves from an idle scheduler, and the states between them. */
  ghost predicate Run(states: seq<State>, moves: seq<Move>)
  {
    |states| == |moves| + 1 && Idle(states[0]) && forall i | 0 <= i < |moves| :: Moves(states[i], moves[i], states[i + 1])
  }

  function History(moves: seq<Move>): seq<Command>
  {
    if moves == [] then []
    else
      var m := moves[|moves| - 1];
      if m.Arrive? then History(moves[..|moves| - 1]) + [m.c] else History(moves[..|moves| - 1])
  }

  function Sent(moves: seq<Move>): seq<Command>
  {
    if moves == [] then []
    else
      var m := moves[|moves| - 1];
      if m.Depart? then Sent(moves[..|moves| - 1]) + [m.c] else Sent(moves[..|moves| - 1])
  }

  lemma {:induction false} RunConsistent(states: seq<State>, moves: seq<Move>)
    requires Run(states, moves)
    ensures Consistent(History(moves), states[|moves|], Sent(moves))
    decreases |moves|
  {
    hide Consistent, Departs, Arrived, Formed;
    if moves == [] {
      ConsistentStart(states[0]);
    } else {
      var n := |moves| - 1;
      RunConsistent(states[..n + 1], moves[..n]);
      var history, sent := History(moves[..n]), Sent(moves[..n]);
      assert Moves(states[n], moves[n], states[n + 1]);
      match moves[n]
      case Arrive(c) => ArrivalConsistent(history, states[n], sent, c);
      case Depart(c) => DepartureConsistent(history, states[n], sent, c, states[n + 1]);
    }
  }

  /** Over every run, a voice whose updates arrive with the right generation has them leave so. */
  ghost predicate KeepsTags(v: int)
  {
    forall states, moves | Run(states, moves) && Tagged(History(moves), v) :: Tagged(Sent(moves), v)
  }

  /** That is so for exactly the voices below 512. Updates of the others wait in line instead of in
      a slot, so a start can overtake them. */
  lemma TagsExactly(v: int)
    requires 0 <= v < 1024
    ensures KeepsTags(v) <==> v < NUM_VOICES
  {
    hide Run, Tagged, History, Sent;
    if v < NUM_VOICES {
      forall states, moves | Run(states, moves) && Tagged(History(moves), v)
        ensures Tagged(Sent(moves), v)
      {
        RunConsistent(states, moves);
      }
    } else {
      var states, moves := Overtaking(v);
    }
  }

  /** One-word commands. */
  function Single(opcode: int, v: int, generation: int): Command
    requires 0 <= opcode < 256 && 0 <= v < 1024 && 0 <= generation < TWO_16
  {
    SingleFields(opcode, v);
    [opcode * 0x100_0000 + v * 0x4000 + 1, generation]
  }

  lemma SingleFields(opcode: int, v: int)
    requires 0 <= opcode < 256 && 0 <= v < 1024
    ensures var header := opcode * 0x100_0000 + v * 0x4000 + 1;
            && 0 <= header < TWO_32 && header % 256 == 1 && header / 0x100_0000 == opcode && (header / 0x4000) % 1024 == v
  {
    var header := opcode * 0x100_0000 + v * 0x4000 + 1;
    DivUnique(header, 0x100_0000, opcode);
    DivUnique(header, 0x4000, opcode * 1024 + v);
    ModShift(v, opcode, 1024);
    ModShift(1, opcode * 0x1_0000 + v * 64, 256);
  }

  /** A start leaves, an update of it arrives, the next start arrives and leaves before the update. */
  lemma Overtaking(v: int) returns (states: seq<State>, moves: seq<Move>)
    requires NUM_VOICES <= v < 1024
    ensures Run(states, moves) && Tagged(History(moves), v) && !Tagged(Sent(moves), v)
  {
    hide Only;
    var first, update, second := Single(START, v, 1), Single(0x18, v, 1), Single(START, v, 2);
    SingleFields(START, v);
    SingleFields(0x18, v);
    var slots: Slots := seq(SLOT_COUNT, _ => None);
    var idle := State([], [], slots, 0);
    var both := State([second], [update], slots, 0);
    states := [idle, State([first], [], slots, 0), idle, State([], [update], slots, 0), both, State([], [update], slots, 0), idle];
    moves := [Arrive(first), Depart(first), Arrive(update), Arrive(second), Depart(second), Depart(update)];
    OvertakingRuns(states, moves, first, update, second, slots);
    OvertakingStreams(moves, first, update, second);
    OvertakingTags(v, first, update, second);
  }

  lemma OvertakingRuns(states: seq<State>, moves: seq<Move>, first: Command, update: Command, second: Command, slots: Slots)
    requires slots == seq(SLOT_COUNT, _ => None)
    requires Lifecycle(first) && Normal(update) && Lifecycle(second)
    requires states == [State([], [], slots, 0), State([first], [], slots, 0), State([], [], slots, 0), State([], [update], slots, 0),
                        State([second], [update], slots, 0), State([], [update], slots, 0), State([], [], slots, 0)]
    requires moves == [Arrive(first), Depart(first), Arrive(update), Arrive(second), Depart(second), Depart(update)]
    ensures Run(states, moves)
  {
    hide Moves, Formed;
    NothingWaits([], [], slots);
    QueueMoves([], [], slots, first);
    QueueMoves([], [], slots, update);
    QueueMoves([], [update], slots, second);
    QueueLeaves([], [], slots, first);
    QueueLeaves([], [update], slots, second);
    QueueLeaves([], [], slots, update);
    assert [] + [first] == [first] && [] + [update] == [update] && [] + [second] == [second];
    assert [first] + [] == [first] && [update] + [] == [update] && [second] + [] == [second];
    forall i | 0 <= i < |moves|
      ensures Moves(states[i], moves[i], states[i + 1])
    {
      assert i in {0, 1, 2, 3, 4, 5};
    }
  }

  lemma NothingWaits(l: seq<Command>, n: seq<Command>, slots: Slots)
    requires slots == seq(SLOT_COUNT, _ => None) && l == n == []
    ensures Idle(State(l, n, slots, 0))
  {
  }

  /** While no update waits in a slot, a command of either queue joins its end. */
  lemma QueueMoves(l: seq<Command>, n: seq<Command>, slots: Slots, c: Command)
    requires slots == seq(SLOT_COUNT, _ => None) && (Lifecycle(c) || Normal(c))
    ensures Moves(State(l, n, slots, 0), Arrive(c), if Lifecycle(c) then State(l + [c], n, slots, 0) else State(l, n + [c], slots, 0))
  {
    assert Surviving(slots, c) == slots;
  }

  /** And leaves at its front, the life-cycle commands first. */
  lemma QueueLeaves(l: seq<Command>, n: seq<Command>, slots: Slots, c: Command)
    requires slots == seq(SLOT_COUNT, _ => None) && (Lifecycle(c) || (Normal(c) && l == []))
    requires (forall i | 0 <= i < |l| :: Lifecycle(l[i])) && (forall i | 0 <= i < |n| :: Normal(n[i]))
    ensures Lifecycle(c) ==> Moves(State([c] + l, n, slots, 0), Depart(c), State(l, n, slots, 0))
    ensures Normal(c) ==> Moves(State(l, [c] + n, slots, 0), Depart(c), State(l, n, slots, 0))
  {
    hide Opcode, Kind, VoiceOf;
    assert ([c] + l)[1..] == l && ([c] + n)[1..] == n;
  }

  lemma OvertakingStreams(moves: seq<Move>, first: Command, update: Command, second: Command)
    requires moves == [Arrive(first), Depart(first), Arrive(update), Arrive(second), Depart(second), Depart(update)]
    ensures History(moves) == [first, update, second] && Sent(moves) == [first, second, update]
  {
    hide History, Sent;
    var half := [Arrive(first), Depart(first), Arrive(update)];
    HalfStreams(first, update);
    OneMoreMove(half, Arrive(second));
    OneMoreMove(half + [Arrive(second)], Depart(second));
    OneMoreMove(half + [Arrive(second)] + [Depart(second)], Depart(update));
    assert half + [Arrive(second)] + [Depart(second)] + [Depart(update)] == moves;
  }

  lemma HalfStreams(first: Command, update: Command)
    ensures var half := [Arrive(first), Depart(first), Arrive(update)];
            History(half) == [first, update] && Sent(half) == [first]
  {
    hide History, Sent;
    NoMoves();
    OneMoreMove([], Arrive(first));
    OneMoreMove([] + [Arrive(first)], Depart(first));
    OneMoreMove([] + [Arrive(first)] + [Depart(first)], Arrive(update));
    assert [] + [Arrive(first)] + [Depart(first)] + [Arrive(update)] == [Arrive(first), Depart(first), Arrive(update)];
  }

  lemma NoMoves()
    ensures History([]) == [] && Sent([]) == []
  {
  }

  lemma OneMoreMove(moves: seq<Move>, m: Move)
    ensures History(moves + [m]) == if m.Arrive? then History(moves) + [m.c] else History(moves)
    ensures Sent(moves + [m]) == if m.Depart? then Sent(moves) + [m.c] else Sent(moves)
  {
    assert (moves + [m])[..|moves|] == moves;
  }

  lemma OvertakingTags(v: int, first: Command, update: Command, second: Command)
    requires Opcode(first) == Opcode(second) == START && Updates(update, v) && VoiceOf(first) == VoiceOf(second) == v
    requires GenerationOf(first) == GenerationOf(update) != GenerationOf(second)
    ensures Tagged([first, update, second], v) && !Tagged([first, second, update], v)
  {
    hide LastStart, Tagged, Only;
    NoTags(v);
    Snoc([], first);
    assert [] + [first] == [first];
    Snoc([first], update);
    assert [first] + [update] == [first, update];
    Snoc([first, update], second);
    assert [first, update] + [second] == [first, update, second];
    Snoc([first], second);
    assert [first] + [second] == [first, second];
    Snoc([first, second], update);
    assert [first, second] + [update] == [first, second, update];
  }

  lemma NoTags(v: int)
    ensures Tagged([], v)
  {
  }
}
