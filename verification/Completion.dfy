/**
 The completion protocol between the FPGA and the synthesizer controller, as a state machine: the
 FPGA logs a record when a start finishes, the controller reads the log sixteen records at a time
 and frees the slots whose present owner has finished. Absolute counts stand beside the 16-bit
 sequences and generations the two sides exchange.
 */
module Completion {
  import opened CInt
  import opened Lifecycle
  import opened Wrappers

  const LOG_ENTRIES: int := 512
  const BATCH_ITEMS: int := 16
  const GENERATION_CYCLE: int := 65535

  // ---- Generations ------------------------------------------------------------------------

  /** Generation of the k-th use of a slot. Zero is never used again. */
  function Gen(k: nat): U16
  {
    if k == 0 then 0 else NextGeneration(Gen(k - 1))
  }

  lemma NextOf(g: U16)
    ensures NextGeneration(g) == if g == GENERATION_CYCLE then 1 else g + 1
  {
  }

  lemma {:induction false} GenClosed(k: nat)
    requires k > 0
    ensures Gen(k) == (k - 1) % GENERATION_CYCLE + 1
  {
    hide NextGeneration;
    NextOf(Gen(k - 1));
    if k > 1 {
      GenClosed(k - 1);
      ModSucc(k - 2, GENERATION_CYCLE);
    }
  }

  /** Generations tell two uses of a slot apart exactly when they are not a whole number of cycles
      apart. */
  lemma GenerationsRepeat(j: nat, k: nat)
    requires 0 < j <= k
    ensures Gen(j) == Gen(k) <==> (k - j) % GENERATION_CYCLE == 0
  {
    hide Gen;
    GenClosed(j);
    GenClosed(k);
    SameRemainder(j - 1, k - 1, GENERATION_CYCLE);
  }

  // ---- The response frame -----------------------------------------------------------------

  /** What the controller learns from one record. */
  datatype Item = Item(voice: int, generation: U16, reason: int)

  datatype Batch = Batch(overflow: bool, epoch: U32, writeSequence: U16, items: seq<Item>)

  /** The response payload. `intact` says that its CRC matches. */
  datatype Response = Response(
    intact: bool, status: U8, version: U8, flags: U8, count: U8, epoch: U32,
    writeSequence: U16, startSequence: U16, words: seq<U32>)

  function Pack(item: Item): int { item.generation * 65536 + item.voice * 128 + item.reason * 16 }

  predicate Sound(item: Item) { 0 <= item.voice < 512 && 0 <= item.reason <= 2 }

  /** Bits 0 to 3 and bit 6 are zero; reason 3 does not exist. */
  predicate WordOk(word: U32)
  {
    word % 16 == 0 && (word / 64) % 2 == 0 && (word / 16) % 4 <= 2
  }

  function Unpack(word: U32): Item
  {
    Item((word / 128) % 512, word / 65536, (word / 16) % 4)
  }

  /** The bit fields of a word, from the top. */
  lemma Fields(g: nat, v: nat, low: nat)
    requires v < 512 && low < 128
    ensures var word := 65536 * g + 128 * v + low;
            && word / 65536 == g && (word / 128) % 512 == v
            && word % 16 == low % 16 && (word / 64) % 2 == low / 64 && (word / 16) % 4 == (low / 16) % 4
  {
    var word := 65536 * g + 128 * v + low;
    DivUnique(word, 65536, g);
    DivUnique(word, 128, 512 * g + v);
    DivUnique(word, 64, 1024 * g + 2 * v + low / 64);
    DivUnique(word, 16, 4096 * g + 8 * v + low / 16);
    ModShift(v, g, 512);
    ModShift(low, 4096 * g + 8 * v, 16);
    ModShift(low / 64, 512 * g + v, 2);
    ModShift(low / 16, 1024 * g + 2 * v, 4);
  }

  /** The accepted words are exactly the packed items. */
  lemma WordsAreItems(word: U32)
    ensures WordOk(word) <==> exists item :: Sound(item) && Pack(item) == word
    ensures WordOk(word) ==> Sound(Unpack(word)) && Pack(Unpack(word)) == word
  {
    forall item | Sound(item) && Pack(item) == word
      ensures WordOk(word) && Unpack(word) == item
    {
      UnpackPacked(item);
    }
    var g, rest := word / 65536, word % 65536;
    var v, low := rest / 128, rest % 128;
    assert word == 65536 * g + 128 * v + low;
    Fields(g, v, low);
    if WordOk(word) {
      assert low == 16 * ((low / 16) % 4);
      assert Sound(Unpack(word)) && Pack(Unpack(word)) == word;
    }
  }

  lemma UnpackPacked(item: Item)
    requires Sound(item)
    ensures 0 <= Pack(item) < TWO_32 && WordOk(Pack(item)) && Unpack(Pack(item)) == item
  {
    Fields(item.generation, item.voice, item.reason * 16);
  }

  function Expected(available: U16): int { if available > BATCH_ITEMS then BATCH_ITEMS else available }

  predicate Accepted(r: Response, sequence: U16)
  {
    && r.intact && |r.words| == BATCH_ITEMS
    && r.status == 0 && r.version == 1 && r.flags <= 1 && r.count <= BATCH_ITEMS
    && r.startSequence == sequence
    && r.count == Expected(ToU16(r.writeSequence - sequence))
    && (forall i | 0 <= i < r.count :: WordOk(r.words[i]))
    && (forall i | r.count <= i < BATCH_ITEMS :: r.words[i] == 0)
  }

  function ItemsOf(words: seq<U32>, count: int): (items: seq<Item>)
    requires 0 <= count <= |words|
    ensures |items| == count
  {
    seq(count, i requires 0 <= i < count => Unpack(words[i]))
  }

  /** Validates a response for a request, item by item. */
  method ReadCompletions(r: Response, sequence: U16) returns (batch: Option<Batch>)
    requires |r.words| == BATCH_ITEMS
    ensures batch.Some? <==> Accepted(r, sequence)
    ensures batch.Some? ==> batch.value == Batch(r.flags == 1, r.epoch, r.writeSequence, ItemsOf(r.words, r.count))
  {
    if !r.intact || r.status != 0 || r.version != 1 || r.flags > 1 || r.count > BATCH_ITEMS {
      return None;
    }
    var available := ToU16(r.writeSequence - sequence);
    if r.startSequence != sequence || r.count != Expected(available) {
      return None;
    }
    var items: seq<Item> := [];
    for i := 0 to BATCH_ITEMS
      invariant forall k | 0 <= k < i && k < r.count :: WordOk(r.words[k])
      invariant forall k | r.count <= k < i :: r.words[k] == 0
      invariant |items| == if i < r.count then i else r.count
      invariant forall k | 0 <= k < |items| :: items[k] == Unpack(r.words[k])
    {
      if i >= r.count {
        if r.words[i] != 0 {
          return None;
        }
      } else {
        if !WordOk(r.words[i]) {
          return None;
        }
        items := items + [Unpack(r.words[i])];
      }
    }
    assert items == ItemsOf(r.words, r.count);
    batch := Some(Batch(r.flags == 1, r.epoch, r.writeSequence, items));
  }

  // ---- The two sides ----------------------------------------------------------------------

  /** A start on its way to the FPGA, or one the FPGA has finished: the k-th use of a slot. */
  datatype Use = Use(voice: int, k: nat)

  datatype Record = Record(use: Use, reason: int)

  function Seen(r: Record): Item { Item(r.use.voice, Gen(r.use.k), r.reason) }

  datatype State = State(
    uses: seq<nat>, occupied: seq<bool>, sequence: U16, online: bool, seen: seq<Item>,
    queue: seq<Use>, rendering: seq<Option<nat>>, log: seq<Record>, acked: nat, overflow: bool, epoch: U32)

  predicate Slot(v: int) { 0 <= v < MAX_VOICES }

  ghost predicate Shape(s: State)
  {
    |s.uses| == |s.occupied| == |s.rendering| == MAX_VOICES
  }

  predicate Reason(n: int) { 0 <= n <= 2 }

  /** Starts of one slot are queued, rendered and logged in the order they were made, each once. */
  ghost predicate InOrder(s: State)
    requires Shape(s)
  {
    && (forall i | 0 <= i < |s.queue| :: Slot(s.queue[i].voice) && 0 < s.queue[i].k <= s.uses[s.queue[i].voice])
    && (forall i, j | 0 <= i < j < |s.queue| && s.queue[i].voice == s.queue[j].voice :: s.queue[i].k < s.queue[j].k)
    && (forall v | Slot(v) && s.rendering[v].Some? :: 0 < s.rendering[v].value <= s.uses[v])
    && (forall v, i | Slot(v) && s.rendering[v].Some? && 0 <= i < |s.queue| && s.queue[i].voice == v ::
          s.rendering[v].value < s.queue[i].k)
  }

  ghost predicate Logged(s: State)
    requires Shape(s)
  {
    && (forall i | 0 <= i < |s.log| ::
          var r := s.log[i];
          && Slot(r.use.voice) && 0 < r.use.k <= s.uses[r.use.voice] && Reason(r.reason)
          && (s.rendering[r.use.voice].Some? ==> r.use.k < s.rendering[r.use.voice].value)
          && forall j | 0 <= j < |s.queue| && s.queue[j].voice == r.use.voice :: r.use.k < s.queue[j].k)
    && (forall i, j | 0 <= i < j < |s.log| && s.log[i].use.voice == s.log[j].use.voice ::
          s.log[i].use.k < s.log[j].use.k)
  }

  /** The controller has read a prefix of the log, each record once and in order, and the FPGA keeps
      everything it has not acknowledged. */
  ghost predicate Read(s: State)
  {
    && s.acked <= |s.seen| <= |s.log| <= s.acked + LOG_ENTRIES
    && s.sequence == ToU16(|s.seen|)
    && forall i | 0 <= i < |s.seen| :: s.seen[i] == Seen(s.log[i])
  }

  ghost predicate Inv(s: State)
  {
    Shape(s) && InOrder(s) && Logged(s) && Read(s)
  }

  /** No start of this slot is waiting for the FPGA or sounding in it. */
  ghost predicate Silent(s: State, v: int)
    requires Shape(s) && Slot(v)
  {
    s.rendering[v].None? && forall i | 0 <= i < |s.queue| :: s.queue[i].voice != v
  }

  predicate Initial(s: State)
  {
    && s.uses == seq(MAX_VOICES, _ => 0) && s.occupied == seq(MAX_VOICES, _ => false)
    && s.rendering == seq(MAX_VOICES, _ => None) && s.sequence == 0 && s.online
    && s.seen == [] && s.queue == [] && s.log == [] && s.acked == 0 && !s.overflow
  }

  // ---- Steps ------------------------------------------------------------------------------

  /** The controller takes a slot, free or stolen, and its start is accepted. */
  function Started(s: State, v: int): State
    requires Shape(s) && Slot(v)
  {
    s.(uses := s.uses[v := s.uses[v] + 1], occupied := s.occupied[v := true],
       queue := s.queue + [Use(v, s.uses[v] + 1)])
  }

  /** It takes a slot, but the start is refused. */
  function Abandoned(s: State, v: int): State
    requires Shape(s) && Slot(v)
  {
    s.(uses := s.uses[v := s.uses[v] + 1], occupied := s.occupied[v := false])
  }

  /** A record enters the log if there is room; otherwise the overflow flag sticks. */
  function Log(s: State, r: Record): State
  {
    if |s.log| < s.acked + LOG_ENTRIES then s.(log := s.log + [r]) else s.(overflow := true)
  }

  /** The FPGA takes the next start. A start still sounding in the slot ends; whether that is
      logged is left open. */
  function Delivered(s: State, logs: bool, reason: int): State
    requires Shape(s) && s.queue != [] && Slot(s.queue[0].voice)
  {
    var u := s.queue[0];
    var old_ := s.rendering[u.voice];
    var ended := if old_.Some? && logs then Log(s, Record(Use(u.voice, old_.value), reason)) else s;
    ended.(queue := s.queue[1..], rendering := s.rendering[u.voice := Some(u.k)])
  }

  /** A start ends by itself, by a stop, or by a release. */
  function Ended(s: State, v: int, reason: int): State
    requires Shape(s) && Slot(v) && s.rendering[v].Some?
  {
    Log(s, Record(Use(v, s.rendering[v].value), reason)).(rendering := s.rendering[v := None])
  }

  function AnswerWord(s: State, n: int, i: nat): U32
    requires Shape(s) && Logged(s) && 0 <= n && |s.seen| + n <= |s.log|
  {
    if i < n then PackRecord(s, |s.seen| + i) else 0
  }

  function AnswerWords(s: State, n: int): (words: seq<U32>)
    requires Shape(s) && Logged(s) && 0 <= n && |s.seen| + n <= |s.log|
    ensures |words| == BATCH_ITEMS
  {
    seq(BATCH_ITEMS, i requires 0 <= i < BATCH_ITEMS => AnswerWord(s, n, i))
  }

  /** The FPGA's answer to a request for the next records. */
  function Answer(s: State): Response
    requires Read(s) && Shape(s) && Logged(s)
  {
    var n := Expected(ToU16(|s.log| - |s.seen|));
    Answers(s, n);
    Response(true, 0, 1, if s.overflow then 1 else 0, n, s.epoch, ToU16(|s.log|), s.sequence,
             AnswerWords(s, n))
  }

  function PackRecord(s: State, i: int): U32
    requires Shape(s) && Logged(s) && 0 <= i < |s.log|
  {
    UnpackPacked(Seen(s.log[i]));
    Pack(Seen(s.log[i]))
  }

  /** Sixteen-bit subtraction recovers how much is unread, because the log is small. */
  lemma Answers(s: State, n: int)
    requires Read(s) && n == Expected(ToU16(|s.log| - |s.seen|))
    ensures ToU16(|s.log| - |s.seen|) == |s.log| - |s.seen|
    ensures ToU16(ToU16(|s.log|) - s.sequence) == |s.log| - |s.seen|
    ensures 0 <= n <= |s.log| - |s.seen| && n == if |s.log| - |s.seen| > BATCH_ITEMS then BATCH_ITEMS else |s.log| - |s.seen|
  {
    var w, c := |s.log|, |s.seen|;
    ModShift(w - c, c / TWO_16 - w / TWO_16, TWO_16);
    assert w == TWO_16 * (w / TWO_16) + w % TWO_16 && c == TWO_16 * (c / TWO_16) + c % TWO_16;
    assert ToU16(w) - ToU16(c) == (w - c) + TWO_16 * (c / TWO_16 - w / TWO_16);
  }

  /** Every valid answer is accepted and says what the log says. */
  lemma AnswerAccepted(s: State)
    requires Inv(s)
    ensures var r := Answer(s); var n := r.count;
            && Accepted(r, s.sequence) && n <= |s.log| - |s.seen|
            && (n == 0 <==> |s.seen| == |s.log|)
            && |ItemsOf(r.words, n)| == n
            && forall i | 0 <= i < n :: ItemsOf(r.words, n)[i] == Seen(s.log[|s.seen| + i])
  {
    var n := Expected(ToU16(|s.log| - |s.seen|));
    Answers(s, n);
    var words := AnswerWords(s, n);
    forall i | 0 <= i < n
      ensures WordOk(words[i]) && Unpack(words[i]) == Seen(s.log[|s.seen| + i])
    {
      UnpackPacked(Seen(s.log[|s.seen| + i]));
    }
  }

  // ---- Reading ----------------------------------------------------------------------------

  /** The slots still occupied after some items: an item frees its slot if the slot is in the
      generation the item names. */
  function Kept(uses: seq<nat>, occupied: seq<bool>, items: seq<Item>): (r: seq<bool>)
    requires |uses| == |occupied| == MAX_VOICES && forall i | 0 <= i < |items| :: Slot(items[i].voice)
    ensures |r| == |occupied|
  {
    if items == [] then occupied
    else
      var before, item := Kept(uses, occupied, items[..|items| - 1]), items[|items| - 1];
      assert Slot(item.voice);
      if before[item.voice] && Gen(uses[item.voice]) == item.generation then before[item.voice := false] else before
  }

  /** Consumes a batch item by item. The generations are those the controller holds. */
  method ConsumeItems(generations: seq<U16>, ghost uses: seq<nat>, occupied: seq<bool>, items: seq<Item>)
    returns (r: seq<bool>)
    requires |uses| == |generations| == |occupied| == MAX_VOICES
    requires forall v | Slot(v) :: generations[v] == Gen(uses[v])
    requires forall i | 0 <= i < |items| :: Slot(items[i].voice)
    ensures r == Kept(uses, occupied, items)
  {
    r := occupied;
    for i := 0 to |items|
      invariant r == Kept(uses, occupied, items[..i])
    {
      assert items[..i + 1][..i] == items[..i];
      var v := items[i].voice;
      if r[v] && generations[v] == items[i].generation {
        r := r[v := false];
      }
    }
    assert items[..|items|] == items;
  }

  lemma {:induction false} KeptExactly(uses: seq<nat>, occupied: seq<bool>, items: seq<Item>, v: int)
    requires |uses| == |occupied| == MAX_VOICES && Slot(v)
    requires forall i | 0 <= i < |items| :: Slot(items[i].voice)
    ensures Kept(uses, occupied, items)[v] <==>
              occupied[v] && forall i | 0 <= i < |items| && items[i].voice == v :: items[i].generation != Gen(uses[v])
  {
    if items != [] {
      var n := |items| - 1;
      KeptExactly(uses, occupied, items[..n], v);
      assert forall i | 0 <= i < n :: items[..n][i] == items[i];
      assert items[n] == items[|items| - 1];
    }
  }

  /** How many records the next answer carries. */
  function BatchSize(s: State): (n: nat)
    requires Read(s)
    ensures n <= |s.log| - |s.seen|
  {
    if |s.log| - |s.seen| > BATCH_ITEMS then BATCH_ITEMS else |s.log| - |s.seen|
  }

  function BatchItems(s: State): (items: seq<Item>)
    requires Inv(s)
    ensures |items| == BatchSize(s) && forall i | 0 <= i < |items| :: items[i] == Seen(s.log[|s.seen| + i])
  {
    var r := Answer(s);
    AnswerAccepted(s);
    Answers(s, r.count);
    ItemsOf(r.words, r.count)
  }

  /** A poll that gets through. Overflow means the session must be reset. */
  function Polled(s: State): State
    requires Inv(s)
  {
    var acked := s.(acked := |s.seen|);
    if s.overflow then acked.(online := false)
    else
      var items := BatchItems(s);
      acked.(occupied := Kept(s.uses, s.occupied, items), seen := s.seen + items,
             sequence := ToU16(s.sequence + |items|))
  }

  datatype Step =
    | StartStep(v: int)
    | AbandonStep(v: int)
    | DeliverStep(logs: bool, reason: int)
    | EndStep(v: int, reason: int)
    | FailedPoll(reached: bool)
    | PollStep
    | OfflineStep

  ghost predicate Enabled(s: State, step: Step)
    requires Inv(s)
  {
    s.online &&
    match step
    case StartStep(v) => Slot(v)
    case AbandonStep(v) => Slot(v)
    case DeliverStep(logs, reason) => s.queue != [] && Reason(reason)
    case EndStep(v, reason) => Slot(v) && s.rendering[v].Some? && Reason(reason)
    case FailedPoll(reached) => true
    case PollStep => true
    case OfflineStep => true
  }

  function Next(s: State, step: Step): State
    requires Inv(s) && Enabled(s, step)
  {
    match step
    case StartStep(v) => Started(s, v)
    case AbandonStep(v) => Abandoned(s, v)
    case DeliverStep(logs, reason) => Delivered(s, logs, reason)
    case EndStep(v, reason) => Ended(s, v, reason)
    case FailedPoll(reached) => if reached then s.(acked := |s.seen|) else s
    case PollStep => Polled(s)
    case OfflineStep => s.(online := false)
  }

  lemma InitialInv(s: State)
    requires Initial(s)
    ensures Inv(s)
  {
  }

  lemma StartKeeps(s: State, v: int)
    requires Inv(s) && Slot(v)
    ensures Inv(Started(s, v)) && Inv(Abandoned(s, v))
  {
    hide Gen, Seen;
  }

  lemma EndKeeps(s: State, v: int, reason: int)
    requires Inv(s) && Slot(v) && s.rendering[v].Some? && Reason(reason)
    ensures Inv(Ended(s, v, reason))
  {
    hide Gen, Seen, Logged;
    EndLogs(s, v, reason);
  }

  lemma EndLogs(s: State, v: int, reason: int)
    requires Inv(s) && Slot(v) && s.rendering[v].Some? && Reason(reason)
    ensures Logged(Ended(s, v, reason))
  {
    hide Gen, Seen, Read;
  }

  lemma DeliverKeeps(s: State, logs: bool, reason: int)
    requires Inv(s) && s.queue != [] && Reason(reason)
    ensures Inv(Delivered(s, logs, reason))
  {
    hide Gen, Seen, InOrder, Logged, Log;
    var v := s.queue[0].voice;
    TakeKeeps(s);
    if s.rendering[v].Some? && logs {
      EndKeeps(s, v, reason);
      SameDelivery(s, reason);
      TakeKeeps(Ended(s, v, reason));
    }
  }

  /** The next start takes its slot over. */
  function Taken(s: State): State
    requires Shape(s) && s.queue != [] && Slot(s.queue[0].voice)
  {
    s.(queue := s.queue[1..], rendering := s.rendering[s.queue[0].voice := Some(s.queue[0].k)])
  }

  lemma TakeKeeps(s: State)
    requires Inv(s) && s.queue != []
    ensures Slot(s.queue[0].voice) && Inv(Taken(s))
  {
    hide Gen, Seen;
  }

  lemma SameDelivery(s: State, reason: int)
    requires Inv(s) && s.queue != [] && Slot(s.queue[0].voice) && s.rendering[s.queue[0].voice].Some?
    ensures var e := Ended(s, s.queue[0].voice, reason);
            Shape(e) && e.queue == s.queue && Taken(e) == Delivered(s, true, reason)
  {
    hide Gen, Seen, InOrder, Logged;
    var v := s.queue[0].voice;
    var k := s.queue[0].k;
    assert s.rendering[v := None][v := Some(k)] == s.rendering[v := Some(k)];
  }

  lemma SameStarts(s: State, t: State)
    requires Shape(s) && Shape(t) && InOrder(s) && Logged(s)
    requires t.uses == s.uses && t.queue == s.queue && t.rendering == s.rendering && t.log == s.log
    ensures InOrder(t) && Logged(t)
  {
  }

  lemma PollKeeps(s: State)
    requires Inv(s)
    ensures Inv(Polled(s)) && Inv(s.(acked := |s.seen|))
    ensures s.overflow ==> !Polled(s).online && Polled(s).occupied == s.occupied && Polled(s).seen == s.seen
    ensures !s.overflow ==> Polled(s).online == s.online
  {
    hide Gen, Kept, InOrder, Logged, Answer;
    SameStarts(s, s.(acked := |s.seen|));
    SameStarts(s, Polled(s));
    WrapAdd16(|s.seen|, BatchSize(s));
  }

  lemma WrapAdd16(a: int, b: int)
    ensures ToU16(ToU16(a) + b) == ToU16(a + b)
  {
    ModAdd(a, b, TWO_16);
  }

  lemma StepKeepsInv(s: State, step: Step)
    requires Inv(s) && Enabled(s, step)
    ensures Inv(Next(s, step))
  {
    hide InOrder, Logged, Gen, Kept, Answer;
    match step
    case StartStep(v) => StartKeeps(s, v);
    case AbandonStep(v) => StartKeeps(s, v);
    case DeliverStep(logs, reason) => DeliverKeeps(s, logs, reason);
    case EndStep(v, reason) => EndKeeps(s, v, reason);
    case FailedPoll(reached) => PollKeeps(s);
    case PollStep => PollKeeps(s);
    case OfflineStep => SameStarts(s, s.(online := false));
  }

  /** A run of the protocol: which steps were taken from which state. */
  ghost predicate Runs(s: State, steps: seq<Step>, t: State)
    decreases |steps|
  {
    Inv(s) &&
    if steps == [] then t == s
    else Enabled(s, steps[0]) && Runs(Next(s, steps[0]), steps[1..], t)
  }

  lemma {:induction false} RunGrows(s: State, steps: seq<Step>, t: State)
    requires Runs(s, steps, t)
    ensures Inv(t) && s.log <= t.log && s.seen <= t.seen
    decreases |steps|
  {
    hide InOrder, Logged, Next, Enabled, Seen;
    if steps != [] {
      StepKeepsInv(s, steps[0]);
      StepGrows(s, steps[0]);
      RunGrows(Next(s, steps[0]), steps[1..], t);
    }
  }

  /** Over every run from the start, the controller has read each record of a prefix of the log once
      and in order, however the 16-bit sequences wrapped, and the log never outgrew its memory. What
      it has read it has read for good. */
  lemma ReadsInOrder(s: State, first: seq<Step>, t: State, later: seq<Step>, u: State)
    requires Initial(s) && Runs(s, first, t) && Runs(t, later, u)
    ensures t.log <= u.log && t.seen <= u.seen
    ensures |u.seen| <= |u.log| <= u.acked + LOG_ENTRIES && u.sequence == |u.seen| % TWO_16
    ensures forall i | 0 <= i < |u.seen| :: u.seen[i] == Seen(u.log[i])
  {
    hide InOrder, Logged, Seen;
    RunGrows(s, first, t);
    RunGrows(t, later, u);
  }

  lemma StepGrows(s: State, step: Step)
    requires Inv(s) && Enabled(s, step)
    ensures s.log <= Next(s, step).log && s.seen <= Next(s, step).seen
  {
    hide InOrder, Logged, Gen, Kept, Answer;
  }

  /** No unread record is so old that its slot has been used a whole generation cycle since. */
  ghost predicate Timely(s: State)
    requires Shape(s) && Logged(s)
  {
    forall i | |s.seen| <= i < |s.log| :: s.uses[s.log[i].use.voice] - s.log[i].use.k < GENERATION_CYCLE
  }

  /** Exactly what a poll frees. */
  lemma PollFrees(s: State, v: int)
    requires Inv(s) && !s.overflow && Slot(v)
    ensures Polled(s).occupied[v] <==>
              s.occupied[v] && forall i | |s.seen| <= i < |s.seen| + BatchSize(s) && s.log[i].use.voice == v ::
                (s.uses[v] - s.log[i].use.k) % GENERATION_CYCLE != 0
  {
    hide InOrder, Kept, Gen, Answer;
    var items := BatchItems(s);
    KeptExactly(s.uses, s.occupied, items, v);
    forall i | |s.seen| <= i < |s.seen| + BatchSize(s) && s.log[i].use.voice == v
      ensures items[i - |s.seen|] == Seen(s.log[i])
      ensures Gen(s.log[i].use.k) == Gen(s.uses[v]) <==> (s.uses[v] - s.log[i].use.k) % GENERATION_CYCLE == 0
    {
      GenerationsRepeat(s.log[i].use.k, s.uses[v]);
    }
  }

  /** A timely poll frees a slot exactly when it reads the record of its present use; that start is
      then neither waiting nor sounding. */
  lemma FreesOnlyFinished(s: State, v: int)
    requires Inv(s) && Timely(s) && !s.overflow && Slot(v) && s.occupied[v]
    ensures !Polled(s).occupied[v] <==>
              exists i :: |s.seen| <= i < |s.seen| + BatchSize(s) && s.log[i].use == Use(v, s.uses[v])
    ensures !Polled(s).occupied[v] ==> Silent(s, v)
  {
    hide Polled, BatchSize, Read, InOrder;
    PollFrees(s, v);
    forall i | |s.seen| <= i < |s.seen| + BatchSize(s) && s.log[i].use.voice == v
      ensures (s.uses[v] - s.log[i].use.k) % GENERATION_CYCLE == 0 <==> s.log[i].use == Use(v, s.uses[v])
      ensures s.log[i].use == Use(v, s.uses[v]) ==> Silent(s, v)
    {
      var d := s.uses[v] - s.log[i].use.k;
      assert 0 <= d < GENERATION_CYCLE;
      if s.log[i].use == Use(v, s.uses[v]) {
        LoggedIsSilent(s, i);
      }
    }
  }

  /** A slot whose present start has been logged neither waits nor sounds. */
  lemma LoggedIsSilent(s: State, i: nat)
    requires Inv(s) && i < |s.log| && s.log[i].use.k == s.uses[s.log[i].use.voice]
    ensures Silent(s, s.log[i].use.voice)
  {
    hide Read;
  }

  // ---- Slots over whole runs --------------------------------------------------------------

  /** The slot's present start is waiting for the FPGA or sounding. */
  ghost predicate Pending(s: State, v: int)
    requires Shape(s) && Slot(v)
  {
    s.rendering[v] == Some(s.uses[v]) || Use(v, s.uses[v]) in s.queue
  }

  /** The record of the slot's present start is in the log, not yet read. */
  ghost predicate Unread(s: State, v: int)
    requires Shape(s) && Slot(v) && |s.seen| <= |s.log|
  {
    exists i :: |s.seen| <= i < |s.log| && s.log[i].use == Use(v, s.uses[v])
  }

  /** The controller holds a slot exactly while it must; after an overflow it may also hold slots
      whose record was lost. */
  ghost predicate Tracks(s: State, v: int)
    requires Shape(s) && Slot(v) && |s.seen| <= |s.log|
  {
    && (Pending(s, v) || Unread(s, v) ==> s.occupied[v])
    && (s.occupied[v] ==> Pending(s, v) || Unread(s, v) || s.overflow)
  }

  lemma StartTracks(s: State, u: int, v: int)
    requires Inv(s) && Slot(u) && Slot(v) && Tracks(s, v)
    ensures Tracks(Started(s, u), v) && Tracks(Abandoned(s, u), v)
  {
    hide Gen, Seen;
    var t := Started(s, u);
    assert t.queue[|s.queue|] == Use(u, s.uses[u] + 1);
    assert forall x :: x in t.queue <==> x in s.queue || x == Use(u, s.uses[u] + 1);
  }

  lemma EndTracks(s: State, u: int, reason: int, v: int)
    requires Inv(s) && Slot(u) && s.rendering[u].Some? && Slot(v) && Tracks(s, v)
    ensures Tracks(Ended(s, u, reason), v)
  {
    hide Gen, Seen;
    var t := Ended(s, u, reason);
    assert |s.log| <= |t.log| && t.log[..|s.log|] == s.log;
    if Unread(s, v) {
      var i :| |s.seen| <= i < |s.log| && s.log[i].use == Use(v, s.uses[v]);
      assert t.log[i].use == Use(v, s.uses[v]);
    }
    if |t.log| > |s.log| {
      assert t.log[|s.log|].use == Use(u, s.rendering[u].value);
    }
    forall i | |s.seen| <= i < |t.log| && t.log[i].use == Use(v, s.uses[v])
      ensures Pending(s, v) || Unread(s, v)
    {
      if i < |s.log| {
        assert s.log[i] == t.log[i];
      }
    }
  }

  lemma TakeTracks(s: State, v: int)
    requires Inv(s) && s.queue != [] && Slot(s.queue[0].voice) && Slot(v) && Tracks(s, v)
    ensures Tracks(Taken(s), v)
  {
    hide Gen, Seen, Logged;
    var t := Taken(s);
    assert forall x :: x in s.queue <==> x in t.queue || x == s.queue[0];
    var w := s.queue[0].voice;
    assert s.rendering[w].Some? ==> s.rendering[w].value < s.queue[0].k;
    assert Unread(s, v) == Unread(t, v);
  }

  lemma DeliverTracks(s: State, logs: bool, reason: int, v: int)
    requires Inv(s) && s.queue != [] && Slot(s.queue[0].voice) && Reason(reason) && Slot(v) && Tracks(s, v)
    ensures Tracks(Delivered(s, logs, reason), v)
  {
    hide Gen, Seen, InOrder, Logged, Log, Tracks;
    var u := s.queue[0].voice;
    TakeTracks(s, v);
    if s.rendering[u].Some? && logs {
      EndKeeps(s, u, reason);
      EndTracks(s, u, reason, v);
      SameDelivery(s, reason);
      TakeTracks(Ended(s, u, reason), v);
    }
  }

  lemma PollTracks(s: State, v: int)
    requires Inv(s) && Slot(v) && Tracks(s, v) && Timely(s)
    ensures |Polled(s).seen| <= |s.log| && Tracks(Polled(s), v)
  {
    hide Gen, Kept, Answer, InOrder, Logged, Seen, Timely;
    var t := Polled(s);
    assert Pending(t, v) == Pending(s, v);
    if s.overflow {
      assert Unread(t, v) == Unread(s, v);
    } else {
      PollFrees(s, v);
      if Unread(t, v) {
        var i :| |t.seen| <= i < |t.log| && t.log[i].use == Use(v, t.uses[v]);
        assert s.log[i].use == Use(v, s.uses[v]);
      }
      if s.occupied[v] {
        FreesOnlyFinished(s, v);
        PresentOnce(s, v);
        if t.occupied[v] && Unread(s, v) {
          var i :| |s.seen| <= i < |s.log| && s.log[i].use == Use(v, s.uses[v]);
          assert t.log[i].use == Use(v, t.uses[v]);
        }
      }
    }
  }

  /** A slot whose present start has been logged is silent, and no other record is of that start. */
  lemma PresentOnce(s: State, v: int)
    requires Inv(s) && Slot(v)
    ensures forall i, j | 0 <= i < j < |s.log| && s.log[i].use == Use(v, s.uses[v]) :: s.log[j].use != Use(v, s.uses[v])
    ensures Silent(s, v) ==> !Pending(s, v)
  {
  }

  lemma StepTracks(s: State, step: Step, v: int)
    requires Inv(s) && Enabled(s, step) && Slot(v) && Tracks(s, v) && (step.PollStep? ==> Timely(s))
    ensures Inv(Next(s, step)) && Tracks(Next(s, step), v)
  {
    hide InOrder, Logged, Gen, Kept, Answer, Tracks, Timely, Delivered, Ended, Started, Abandoned, Polled;
    StepKeepsInv(s, step);
    match step
    case StartStep(u) => StartTracks(s, u, v);
    case AbandonStep(u) => StartTracks(s, u, v);
    case DeliverStep(logs, reason) =>
      TakeKeeps(s);
      DeliverTracks(s, logs, reason, v);
    case EndStep(u, reason) => EndTracks(s, u, reason, v);
    case FailedPoll(reached) => SameTracks(s, s.(acked := |s.seen|), v);
    case PollStep => PollTracks(s, v);
    case OfflineStep => SameTracks(s, s.(online := false), v);
  }

  lemma SameTracks(s: State, t: State, v: int)
    requires Shape(s) && Slot(v) && |s.seen| <= |s.log| && Tracks(s, v)
    requires t == s.(acked := t.acked, online := t.online)
    ensures Tracks(t, v)
  {
  }

  /** Every poll of the run is timely. */
  ghost predicate TimelyRun(s: State, steps: seq<Step>)
    decreases |steps|
  {
    steps != [] && Inv(s) && Enabled(s, steps[0]) ==>
      (steps[0].PollStep? ==> Timely(s)) && TimelyRun(Next(s, steps[0]), steps[1..])
  }

  lemma {:induction false} RunTracks(s: State, steps: seq<Step>, t: State, v: int)
    requires Runs(s, steps, t) && TimelyRun(s, steps) && Slot(v) && Tracks(s, v)
    ensures Inv(t) && Tracks(t, v)
    decreases |steps|
  {
    hide InOrder, Logged, Next, Enabled, Seen, Tracks, Timely;
    if steps != [] {
      StepTracks(s, steps[0], v);
      RunTracks(Next(s, steps[0]), steps[1..], t, v);
    }
  }

  /** Over every run from the start whose polls are timely, no slot is freed early and, unless the
      log has overflowed, none is held for ever: a slot is occupied exactly while its present start
      is waiting, sounding, or logged and not yet read. */
  lemma OccupiedExactly(s: State, steps: seq<Step>, t: State, v: int)
    requires Initial(s) && Runs(s, steps, t) && TimelyRun(s, steps) && Slot(v)
    ensures Inv(t) && (Pending(t, v) || Unread(t, v) ==> t.occupied[v])
    ensures !t.overflow ==> (t.occupied[v] <==> Pending(t, v) || Unread(t, v))
  {
    InitialInv(s);
    RunTracks(s, steps, t, v);
  }

  // ---- Why polls must be timely -----------------------------------------------------------

  /** The next record to be read is of a slot's first use, and the slot now sounds in a use of the
      same generation. */
  ghost predicate Stale(s: State, v: int)
  {
    && Inv(s) && !s.overflow && Slot(v) && s.occupied[v] && |s.seen| < |s.log|
    && s.log[|s.seen|].use == Use(v, 1) && s.uses[v] == 1 + GENERATION_CYCLE
    && s.rendering[v] == Some(s.uses[v])
  }

  /** A record left unread for a whole cycle of generations frees a slot that sounds. */
  lemma StaleRecordFreesSounding(s: State, v: int)
    requires Stale(s, v)
    ensures !Timely(s) && !Polled(s).occupied[v] && Pending(s, v)
  {
    PollFrees(s, v);
  }

  lemma {:induction false} RunsJoin(s: State, first: seq<Step>, t: State, later: seq<Step>, u: State)
    requires Runs(s, first, t) && Runs(t, later, u)
    ensures Runs(s, first + later, u)
    decreases |first|
  {
    hide InOrder, Logged, Read, Next, Enabled;
    if first == [] {
      assert first + later == later;
    } else {
      assert (first + later)[1..] == first[1..] + later;
      RunsJoin(Next(s, first[0]), first[1..], t, later, u);
    }
  }

  lemma OneStep(s: State, step: Step)
    requires Inv(s) && Enabled(s, step)
    ensures Runs(s, [step], Next(s, step))
  {
    StepKeepsInv(s, step);
    assert [step][1..] == [];
  }

  /** The slot is taken n times over, and every start is refused. */
  function Churned(s: State, v: int, n: nat): State
    requires Shape(s) && Slot(v)
  {
    if n == 0 then s else s.(uses := s.uses[v := s.uses[v] + n], occupied := s.occupied[v := false])
  }

  lemma {:induction false} ChurnRuns(s: State, v: int, n: nat)
    requires Inv(s) && s.online && Slot(v)
    ensures Runs(s, seq(n, _ => AbandonStep(v)), Churned(s, v, n))
    decreases n
  {
    hide InOrder, Logged, Gen;
    if n > 0 {
      var step := AbandonStep(v);
      StepKeepsInv(s, step);
      var next := Next(s, step);
      ChurnRuns(next, v, n - 1);
      assert seq(n, _ => step)[1..] == seq(n - 1, _ => step);
      assert Churned(next, v, n - 1) == Churned(s, v, n);
    }
  }

  /** A start is accepted and taken up at once. */
  function Sounding(s: State, v: int): State
    requires Shape(s) && Slot(v)
  {
    var k := s.uses[v] + 1;
    s.(uses := s.uses[v := k], occupied := s.occupied[v := true], rendering := s.rendering[v := Some(k)])
  }

  lemma SoundRuns(s: State, v: int)
    requires Inv(s) && s.online && s.queue == [] && Slot(v)
    ensures Runs(s, [StartStep(v), DeliverStep(false, 0)], Sounding(s, v)) && Inv(Sounding(s, v))
  {
    hide Runs, InOrder, Logged, Gen;
    var step, then_ := StartStep(v), DeliverStep(false, 0);
    OneStep(s, step);
    StepKeepsInv(s, step);
    var started := Next(s, step);
    assert started.queue == [Use(v, s.uses[v] + 1)] && started.queue[1..] == [];
    OneStep(started, then_);
    StepKeepsInv(started, then_);
    assert Next(started, then_) == Sounding(s, v);
    RunsJoin(s, [step], started, [then_], Sounding(s, v));
    assert [step] + [then_] == [step, then_];
  }

  /** The protocol reaches such a state: a slot's first start ends and is logged, the slot is taken
      65535 times more before the next poll, and the last of those starts sounds. */
  lemma StaleReached(s: State) returns (steps: seq<Step>, t: State)
    requires Initial(s)
    ensures Runs(s, steps, t) && Stale(t, 0)
  {
    hide Runs, InOrder, Logged, Gen, Read;
    InitialInv(s);
    var use, end := [StartStep(0), DeliverStep(false, 0)], EndStep(0, 0);
    var churn := seq(GENERATION_CYCLE - 1, _ => AbandonStep(0));
    var s2 := Sounding(s, 0);
    var s3 := Ended(s2, 0, 0);
    var s4 := Churned(s3, 0, GENERATION_CYCLE - 1);
    SoundRuns(s, 0);
    OneStep(s2, end);
    StepKeepsInv(s2, end);
    RunsJoin(s, use, s2, [end], s3);
    ChurnRuns(s3, 0, GENERATION_CYCLE - 1);
    RunsJoin(s, use + [end], s3, churn, s4);
    RunGrows(s3, churn, s4);
    SoundRuns(s4, 0);
    t := Sounding(s4, 0);
    RunsJoin(s, use + [end] + churn, s4, use, t);
    steps := use + [end] + churn + use;
  }

  // ---- Sessions ---------------------------------------------------------------------------

  /** The controller and the FPGA are in one session, in different ones, or apart. */
  datatype Link = Live(state: State) | Foreign | Offline

  /** What can happen to them. A poll that finds an overflow or a foreign epoch resets the session, and
      so does a recovery; `begun` is the session that opens then, if the reset gets through. */
  datatype Turn =
    | Within(step: Step)
    | Poll(begun: Option<State>)
    | Restart
    | Recover(begun: Option<State>)

  ghost predicate SoundLink(l: Link) { l.Live? ==> Inv(l.state) && l.state.online }

  ghost predicate Possible(l: Link, turn: Turn)
    requires SoundLink(l)
  {
    match turn
    case Within(step) => !step.PollStep? && (l.Foreign? || (l.Live? && Enabled(l.state, step)))
    case Poll(begun) =>
      !l.Offline? && (begun.Some? ==> Initial(begun.value) && (l.Live? ==> begun.value.epoch != l.state.epoch))
    case Restart => l.Live?
    case Recover(begun) => l.Offline? && (begun.Some? ==> Initial(begun.value))
  }

  function Opened(begun: Option<State>): Link { if begun.None? then Offline else Live(begun.value) }

  function Turned(l: Link, turn: Turn): Link
    requires SoundLink(l) && Possible(l, turn)
  {
    match turn
    case Within(step) =>
      if l.Foreign? then (if step.OfflineStep? then Offline else Foreign)
      else
        var s := Next(l.state, step);
        if s.online then Live(s) else Offline
    case Poll(begun) => if l.Foreign? || l.state.overflow then Opened(begun) else Live(Polled(l.state))
    case Restart => Foreign
    case Recover(begun) => Opened(begun)
  }

  lemma TurnKeeps(l: Link, turn: Turn)
    requires SoundLink(l) && Possible(l, turn)
    ensures SoundLink(Turned(l, turn))
  {
    hide InOrder, Logged, Read, Gen, Kept, Answer, Polled, Initial;
    match turn
    case Within(step) => if l.Live? { StepKeepsInv(l.state, step); }
    case Poll(begun) =>
      if l.Foreign? || l.state.overflow { OpenedSound(begun); } else { PollKeeps(l.state); }
    case Restart =>
    case Recover(begun) => OpenedSound(begun);
  }

  lemma OpenedSound(begun: Option<State>)
    requires begun.Some? ==> Initial(begun.value)
    ensures SoundLink(Opened(begun))
  {
    hide InOrder, Logged, Read;
    if begun.Some? {
      InitialInv(begun.value);
    }
  }

  /** A run across sessions. */
  ghost predicate Turns(l: Link, turns: seq<Turn>, m: Link)
    decreases |turns|
  {
    SoundLink(l) &&
    if turns == [] then m == l else Possible(l, turns[0]) && Turns(Turned(l, turns[0]), turns[1..], m)
  }

  /** Every poll that reads records is timely. */
  ghost predicate TimelyTurns(l: Link, turns: seq<Turn>)
    decreases |turns|
  {
    turns != [] && SoundLink(l) && Possible(l, turns[0]) ==>
      && (turns[0].Poll? && l.Live? && !l.state.overflow ==> Timely(l.state))
      && TimelyTurns(Turned(l, turns[0]), turns[1..])
  }

  ghost predicate LinkTracks(l: Link, v: int)
    requires SoundLink(l) && Slot(v)
  {
    l.Live? ==> Tracks(l.state, v)
  }

  lemma TurnTracks(l: Link, turn: Turn, v: int)
    requires SoundLink(l) && Possible(l, turn) && Slot(v) && LinkTracks(l, v)
    requires turn.Poll? && l.Live? && !l.state.overflow ==> Timely(l.state)
    ensures SoundLink(Turned(l, turn)) && LinkTracks(Turned(l, turn), v)
  {
    hide InOrder, Logged, Read, Gen, Kept, Answer, Polled, Tracks, Timely, Initial;
    TurnKeeps(l, turn);
    match turn
    case Within(step) => if l.Live? { StepTracks(l.state, step, v); }
    case Poll(begun) =>
      if l.Foreign? || l.state.overflow { OpenedTracks(begun, v); } else { PollTracks(l.state, v); }
    case Restart =>
    case Recover(begun) => OpenedTracks(begun, v);
  }

  lemma OpenedTracks(begun: Option<State>, v: int)
    requires (begun.Some? ==> Initial(begun.value)) && Slot(v)
    ensures SoundLink(Opened(begun)) && LinkTracks(Opened(begun), v)
  {
    OpenedSound(begun);
  }

  lemma {:induction false} TurnsTrack(l: Link, turns: seq<Turn>, m: Link, v: int)
    requires Turns(l, turns, m) && TimelyTurns(l, turns) && Slot(v) && LinkTracks(l, v)
    ensures SoundLink(m) && LinkTracks(m, v)
    decreases |turns|
  {
    hide SoundLink, Possible, Turned, LinkTracks, Timely;
    if turns != [] {
      TurnTracks(l, turns[0], v);
      TurnsTrack(Turned(l, turns[0]), turns[1..], m, v);
    }
  }

  lemma {:induction false} TurnsSound(l: Link, turns: seq<Turn>, m: Link)
    requires Turns(l, turns, m)
    ensures SoundLink(m)
    decreases |turns|
  {
    hide SoundLink, Possible, Turned;
    if turns != [] {
      TurnsSound(Turned(l, turns[0]), turns[1..], m);
    }
  }

  /** Over every run across sessions, whenever the two are in one session the records read in it are
      the log's prefix, each once and in order. If the polls were timely, a slot is also occupied
      while its present start is waiting, sounding, or logged and not yet read, and only then unless
      the log has overflowed. */
  lemma SessionsKeep(s: State, turns: seq<Turn>, m: Link, v: int)
    requires Initial(s) && Turns(Live(s), turns, m) && Slot(v)
    ensures m.Live? ==>
              && Inv(m.state) && m.state.sequence == |m.state.seen| % TWO_16
              && (forall i | 0 <= i < |m.state.seen| :: m.state.seen[i] == Seen(m.state.log[i]))
    ensures m.Live? && TimelyTurns(Live(s), turns) ==>
              && (Pending(m.state, v) || Unread(m.state, v) ==> m.state.occupied[v])
              && (!m.state.overflow ==> (m.state.occupied[v] <==> Pending(m.state, v) || Unread(m.state, v)))
  {
    InitialInv(s);
    TurnsSound(Live(s), turns, m);
    if TimelyTurns(Live(s), turns) {
      TurnsTrack(Live(s), turns, m, v);
    }
  }

  /** A poll that meets an overflow or a foreign epoch reads nothing: it leaves the two apart, or in a
      new session in which no slot is occupied and nothing waits or sounds. */
  lemma ResetStartsOver(l: Link, begun: Option<State>, v: int)
    requires SoundLink(l) && Possible(l, Poll(begun)) && (l.Foreign? || l.state.overflow) && Slot(v)
    ensures var m := Turned(l, Poll(begun));
            m.Offline? || (m.Live? && m.state.seen == [] && !m.state.occupied[v] && Silent(m.state, v)
                           && (l.Live? ==> m.state.epoch != l.state.epoch))
  {
  }
}
