/**
 The MIDI queue between the two cores: one producer, one consumer, a ring of 256 packets and two
 counters that wrap at 2^32. Every method is one atomic load or store of one of the cores, so any
 order of calls is an interleaving.
 */
module IngressQueue {
  import opened CInt

  const CAPACITY: int := 256

  type Packet = p: seq<U8> | |p| == 4 witness [0, 0, 0, 0]

  function Word(a: int, b: int, c: int, d: int): int { a + b * 0x100 + c * 0x1_0000 + d * 0x100_0000 }

  function Pack(p: Packet): U32 { Word(p[0], p[1], p[2], p[3]) }

  function Unpack(w: U32): Packet { [w % 0x100, (w / 0x100) % 0x100, (w / 0x1_0000) % 0x100, w / 0x100_0000] }

  lemma UnpackPacked(p: Packet)
    ensures Unpack(Pack(p)) == p
  {
    WordBytes(p[0], p[1], p[2], p[3]);
  }

  lemma WordBytes(a: int, b: int, c: int, d: int)
    requires 0 <= a < 0x100 && 0 <= b < 0x100 && 0 <= c < 0x100 && 0 <= d < 0x100
    ensures var w := Word(a, b, c, d);
            w % 0x100 == a && (w / 0x100) % 0x100 == b && (w / 0x1_0000) % 0x100 == c && w / 0x100_0000 == d
  {
    var w := Word(a, b, c, d);
    DivUnique(w, 0x100_0000, d);
    DivUnique(w, 0x1_0000, d * 0x100 + c);
    DivUnique(w, 0x100, d * 0x1_0000 + c * 0x100 + b);
    ModShift(c, d, 0x100);
    ModShift(b, d * 0x100 + c, 0x100);
    ModShift(a, d * 0x1_0000 + c * 0x100 + b, 0x100);
  }

  /** Where each core stands inside its call, with the values it has loaded. */
  datatype Producer =
    | Resting
    | Begun(write: U32)
    | Checked(write: U32, depth: U32)
    | Stored(write: U32, depth: U32)

  datatype Consumer =
    | Waiting
    | Popping(read: U32)
    | Available(read: U32)
    | Fetched(read: U32, packed: U32)
    | Discarding(read: U32)
    | Snapped(read: U32, write: U32)

  function InRing(ring: seq<U32>, first: nat, n: nat): (r: seq<U32>)
    requires |ring| == CAPACITY
    ensures |r| == n
  {
    seq(n, i requires 0 <= i < n => ring[(first + i) % CAPACITY])
  }

  /** The fates of a run of published packets that are dropped. */
  function Dropped(pushed: seq<Packet>, first: nat, upTo: nat): (r: seq<Fate>)
    requires first <= upTo <= |pushed|
    ensures |r| == upTo - first && forall i | 0 <= i < |r| :: r[i] == Discarded(pushed[first + i])
  {
    seq(upTo - first, i requires 0 <= i < upTo - first => Discarded(pushed[first + i]))
  }

  /** What became of a packet. */
  datatype Fate = Popped(packet: Packet) | Discarded(packet: Packet)

  class Queue {
    const packets: array<U32>
    var writeCount: U32
    var readCount: U32
    var producer: Producer
    var consumer: Consumer
    var incoming: Packet

    /** Every packet published, and what became of the ones taken off again. */
    ghost var pushed: seq<Packet>
    ghost var fates: seq<Fate>
    /** How far the consumer's last view of the write counter reached. */
    ghost var upTo: nat

    ghost predicate Valid()
      reads this, packets
    {
      && packets.Length == CAPACITY
      && |fates| <= |pushed| <= |fates| + CAPACITY
      && writeCount == ToU32(|pushed|) && readCount == ToU32(|fates|)
      && (forall i | 0 <= i < |fates| :: fates[i].packet == pushed[i])
      && (forall i | |fates| <= i < |pushed| :: packets[i % CAPACITY] == Pack(pushed[i]))
      && Producing() && Consuming()
    }

    /** A depth the producer has seen can only have shrunk since. */
    ghost predicate Producing()
      reads this, packets
    {
      packets.Length == CAPACITY &&
      match producer
      case Resting => true
      case Begun(write) => write == writeCount
      case Checked(write, depth) => write == writeCount && |pushed| - |fates| <= depth < CAPACITY
      case Stored(write, depth) =>
        write == writeCount && |pushed| - |fates| <= depth < CAPACITY && packets[|pushed| % CAPACITY] == Pack(incoming)
    }

    /** Packets the consumer has seen can only have been joined by others. */
    ghost predicate Consuming()
      reads this
    {
      match consumer
      case Waiting => true
      case Popping(read) => read == readCount
      case Available(read) => read == readCount && |fates| < |pushed|
      case Fetched(read, packed) => read == readCount && |fates| < |pushed| && packed == Pack(pushed[|fates|])
      case Discarding(read) => read == readCount
      case Snapped(read, write) => read == readCount && |fates| <= upTo <= |pushed| && write == ToU32(upTo)
    }

    /** The packets still to be taken, read out of the ring. */
    ghost function Queued(): seq<U32>
      reads this, packets
      requires packets.Length == CAPACITY && |fates| <= |pushed|
    {
      InRing(packets[..], |fates|, |pushed| - |fates|)
    }

    constructor ()
      ensures Valid() && pushed == [] && fates == [] && fresh(packets)
    {
      packets := new U32[CAPACITY](_ => 0);
      writeCount, readCount, producer, consumer, incoming := 0, 0, Resting, Waiting, [0, 0, 0, 0];
      pushed, fates, upTo := [], [], 0;
    }

    // ---- Producer -------------------------------------------------------------------------

    method BeginPush(packet: Packet)
      requires Valid() && producer == Resting
      modifies this`producer, this`incoming
      ensures Valid() && producer == Begun(writeCount) && incoming == packet
    {
      incoming, producer := packet, Begun(writeCount);
    }

    /** Loads the other counter; a full queue refuses the packet. */
    method CheckDepth() returns (refused: bool)
      requires Valid() && producer.Begun?
      modifies this`producer
      ensures Valid() && refused == (|pushed| - |fates| == CAPACITY)
      ensures if refused then producer == Resting else producer == Checked(writeCount, |pushed| - |fates|)
    {
      WrapSub(|pushed|, |fates|);
      var depth := ToU32(producer.write - readCount);
      refused := depth == CAPACITY;
      producer := if refused then Resting else Checked(producer.write, depth);
    }

    /** Writes the slot. No unread packet lives there. */
    method StorePacket()
      requires Valid() && producer.Checked?
      modifies packets, this`producer
      ensures Valid() && producer == Stored(old(producer).write, old(producer).depth)
      ensures Queued() == old(Queued())
    {
      SlotOf(|pushed|);
      ghost var unread := Queued();
      forall i | |fates| <= i < |pushed|
        ensures i % CAPACITY != |pushed| % CAPACITY
      {
        SlotsDiffer(i, |pushed|);
      }
      packets[producer.write % CAPACITY] := Pack(incoming);
      producer := Stored(producer.write, producer.depth);
      assert Queued() == unread;
    }

    /** Publishes the packet. */
    method PublishPush()
      requires Valid() && producer.Stored?
      modifies this`writeCount, this`producer, this`pushed
      ensures Valid() && producer == Resting && pushed == old(pushed) + [incoming]
    {
      WrapAdd(|pushed|, 1);
      writeCount := ToU32(producer.write + 1);
      producer := Resting;
      pushed := pushed + [incoming];
    }

    // ---- Consumer -------------------------------------------------------------------------

    method BeginPop()
      requires Valid() && consumer == Waiting
      modifies this`consumer
      ensures Valid() && consumer == Popping(readCount)
    {
      consumer := Popping(readCount);
    }

    method CheckEmpty() returns (empty: bool)
      requires Valid() && consumer.Popping?
      modifies this`consumer
      ensures Valid() && empty == (|fates| == |pushed|)
      ensures consumer == if empty then Waiting else Available(readCount)
    {
      SameRemainder(|fates|, |pushed|, TWO_32);
      empty := consumer.read == writeCount;
      consumer := if empty then Waiting else Available(consumer.read);
    }

    method FetchPacket()
      requires Valid() && consumer.Available?
      modifies this`consumer
      ensures Valid() && consumer == Fetched(readCount, Pack(pushed[|fates|]))
    {
      SlotOf(|fates|);
      consumer := Fetched(consumer.read, packets[consumer.read % CAPACITY]);
    }

    /** Hands the oldest packet out and gives its slot back. */
    method PublishPop() returns (packet: Packet)
      requires Valid() && consumer.Fetched?
      modifies this`readCount, this`consumer, this`fates
      ensures Valid() && consumer == Waiting
      ensures |old(fates)| < |pushed| && packet == pushed[|old(fates)|] && fates == old(fates) + [Popped(packet)]
    {
      UnpackPacked(pushed[|fates|]);
      WrapAdd(|fates|, 1);
      packet := Unpack(consumer.packed);
      readCount := ToU32(consumer.read + 1);
      consumer := Waiting;
      fates := fates + [Popped(packet)];
    }

    method BeginDiscard()
      requires Valid() && consumer == Waiting
      modifies this`consumer
      ensures Valid() && consumer == Discarding(readCount)
    {
      consumer := Discarding(readCount);
    }

    method SnapWrite()
      requires Valid() && consumer.Discarding?
      modifies this`consumer, this`upTo
      ensures Valid() && consumer == Snapped(readCount, writeCount) && upTo == |pushed|
    {
      consumer, upTo := Snapped(consumer.read, writeCount), |pushed|;
    }

    /** Drops everything published up to the moment the write counter was read. */
    method PublishDiscard() returns (count: U32)
      requires Valid() && consumer.Snapped?
      modifies this`readCount, this`consumer, this`fates
      ensures Valid() && consumer == Waiting && |fates| == upTo && count == |fates| - |old(fates)|
      ensures old(fates) <= fates
      ensures forall i | |old(fates)| <= i < |fates| :: fates[i] == Discarded(pushed[i])
    {
      hide ToU32, Dropped, Pack;
      WrapSub(upTo, |fates|);
      SmallCount(upTo - |fates|);
      count := ToU32(consumer.write - consumer.read);
      readCount := consumer.write;
      consumer := Waiting;
      fates := fates + Dropped(pushed, |fates|, upTo);
    }
  }

  lemma SmallCount(n: int)
    requires 0 <= n <= CAPACITY
    ensures ToU32(n) == n
  {
  }

  datatype Turn = ProducerTurn(packet: Packet) | ConsumerTurn(discard: bool)

  /** Any interleaving: at each turn one core takes its next atomic step. */
  method Interleave(q: Queue, schedule: seq<Turn>)
    requires q.Valid()
    modifies q, q.packets
    ensures q.Valid() && old(q.pushed) <= q.pushed && old(q.fates) <= q.fates
  {
    for i := 0 to |schedule|
      invariant q.Valid() && old(q.pushed) <= q.pushed && old(q.fates) <= q.fates
    {
      match schedule[i] {
        case ProducerTurn(packet) => ProducerStep(q, packet);
        case ConsumerTurn(discard) => ConsumerStep(q, discard);
      }
    }
  }

  method ProducerStep(q: Queue, packet: Packet)
    requires q.Valid()
    modifies q`writeCount, q`producer, q`incoming, q`pushed, q.packets
    ensures q.Valid() && old(q.pushed) <= q.pushed
  {
    match q.producer {
      case Resting => q.BeginPush(packet);
      case Begun(_) => var _ := q.CheckDepth();
      case Checked(_, _) => q.StorePacket();
      case Stored(_, _) => q.PublishPush();
    }
  }

  method ConsumerStep(q: Queue, discard: bool)
    requires q.Valid()
    modifies q`readCount, q`consumer, q`fates, q`upTo
    ensures q.Valid() && old(q.fates) <= q.fates
  {
    match q.consumer {
      case Waiting =>
        if discard {
          q.BeginDiscard();
        } else {
          q.BeginPop();
        }
      case Popping(_) => var _ := q.CheckEmpty();
      case Available(_) => q.FetchPacket();
      case Fetched(_, _) => var _ := q.PublishPop();
      case Discarding(_) => q.SnapWrite();
      case Snapped(_, _) => var _ := q.PublishDiscard();
    }
  }

  /** The slot mask sees through the counter's wrap. */
  lemma SlotOf(n: nat)
    ensures ToU32(n) % CAPACITY == n % CAPACITY
  {
    var q := n / TWO_32;
    assert n == ToU32(n) + CAPACITY * (q * 0x100_0000);
    ModShift(ToU32(n), q * 0x100_0000, CAPACITY);
  }

  lemma SlotsDiffer(i: nat, j: nat)
    requires i < j < i + CAPACITY
    ensures i % CAPACITY != j % CAPACITY
  {
    SameRemainder(i, j, CAPACITY);
  }

  /** In every reachable state, what was popped or discarded and what is still queued are together
      exactly what was pushed, in order; at most 256 packets are queued. */
  lemma NothingLost(q: Queue)
    requires q.Valid()
    ensures |q.Queued()| <= CAPACITY && |q.fates| + |q.Queued()| == |q.pushed|
    ensures forall i | 0 <= i < |q.pushed| ::
              if i < |q.fates| then q.fates[i].packet == q.pushed[i]
              else Unpack(q.Queued()[i - |q.fates|]) == q.pushed[i]
  {
    forall i | |q.fates| <= i < |q.pushed|
      ensures Unpack(q.Queued()[i - |q.fates|]) == q.pushed[i]
    {
      UnpackPacked(q.pushed[i]);
      assert q.Queued()[i - |q.fates|] == q.packets[i % CAPACITY];
    }
  }
}
