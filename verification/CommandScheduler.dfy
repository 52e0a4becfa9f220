/**
 The asynchronous command scheduler: two ring queues, a table of replaceable updates, producers
 that enqueue under the lock, and a worker that packs transactions under the lock and sends them
 outside it. Every method is one critical section or one transport call.
 */
module CommandScheduler {
  import opened CInt
  import opened CommandQueue
  import opened Wrappers

  /** A bounded queue in a circular array. */
  class Ring {
    const capacity: int
    const entries: array<Command>
    var head: int
    var tail: int
    var count: int
    ghost var contents: seq<Command>

    ghost predicate Valid()
      reads this, entries
    {
      && 0 < capacity == entries.Length && 0 <= head < capacity && 0 <= tail < capacity
      && count == |contents| <= capacity && tail == (head + count) % capacity
      && forall i | 0 <= i < count :: entries[At(head, i, capacity)] == contents[i]
    }

    constructor (capacity: int)
      requires capacity > 0
      ensures Valid() && contents == [] && this.capacity == capacity && fresh(entries)
    {
      this.capacity := capacity;
      entries := new Command[capacity](_ => [0]);
      head, tail, count, contents := 0, 0, 0, [];
    }

    /** Appends, or reports an overflow. */
    method Push(c: Command) returns (ok: bool)
      requires Valid()
      modifies this, entries
      ensures Valid() && ok == (|old(contents)| < capacity)
      ensures contents == if ok then old(contents) + [c] else old(contents)
    {
      ok := count != capacity;
      if ok {
        Steps(head, count, capacity);
        entries[tail] := c;
        tail := (tail + 1) % capacity;
        count := count + 1;
        contents := contents + [c];
      }
    }

    method Pop() returns (r: Option<Command>)
      requires Valid()
      modifies this`head, this`count, this`contents
      ensures Valid()
      ensures old(contents) == [] ==> r.None? && contents == []
      ensures old(contents) != [] ==> r == Some(old(contents)[0]) && contents == old(contents)[1..]
    {
      if count == 0 {
        return None;
      }
      Steps(head, count, capacity);
      r := Some(entries[head]);
      head := (head + 1) % capacity;
      count := count - 1;
      contents := contents[1..];
    }

    /** Puts a command back in front; the caller has just taken one. */
    method PushFront(c: Command)
      requires Valid() && |contents| < capacity
      modifies this`head, this`count, this`contents, entries
      ensures Valid() && contents == [c] + old(contents)
    {
      Steps(head, count, capacity);
      head := (head + capacity - 1) % capacity;
      entries[head] := c;
      count := count + 1;
      contents := [c] + contents;
    }
  }

  function At(head: int, i: int, capacity: int): (r: int)
    requires 0 <= head < capacity && 0 <= i < capacity
    ensures 0 <= r < capacity
  {
    if head + i < capacity then head + i else head + i - capacity
  }

  /** Moving either end of a ring by one moves every position by one. */
  lemma Steps(head: int, count: int, capacity: int)
    requires 0 <= head < capacity && 0 <= count <= capacity
    ensures (head + 1) % capacity == if head + 1 < capacity then head + 1 else 0
    ensures (head + capacity - 1) % capacity == if head == 0 then capacity - 1 else head - 1
    ensures (head + count) % capacity == if head + count < capacity then head + count else head + count - capacity
    ensures ((head + count) % capacity + 1) % capacity == (head + count + 1) % capacity
    ensures count > 0 ==> ((head + 1) % capacity + (count - 1)) % capacity == (head + count) % capacity
    ensures ((head + capacity - 1) % capacity + (count + 1)) % capacity == (head + count) % capacity
  {
    Reduce(head + 1, capacity);
    Reduce(head + capacity - 1, capacity);
    Reduce(head + count, capacity);
    ModAdd(head + count, 1, capacity);
    ModAdd(head + 1, count - 1, capacity);
    ModAdd(head + capacity - 1, count + 1, capacity);
    ModShift(head + count, 1, capacity);
  }

  lemma Reduce(x: int, n: int)
    requires n > 0 && 0 <= x < 2 * n
    ensures x % n == if x < n then x else x - n
  {
    if x >= n {
      ModShift(x - n, 1, n);
    }
  }

  function Flatten(cs: seq<Command>): Words
  {
    if cs == [] then [] else Flatten(cs[..|cs| - 1]) + cs[|cs| - 1]
  }

  lemma FlattenNone()
    ensures Flatten([]) == []
  {
  }

  lemma FlattenSnoc(cs: seq<Command>, c: Command)
    ensures Flatten(cs + [c]) == Flatten(cs) + c
  {
    assert (cs + [c])[..|cs|] == cs;
  }

  datatype Phase = Idle | Sending | Delivered | Abandoned | Exited

  datatype Status = Ok | StoppingError | ArgumentError | OverflowError

  class AsyncScheduler {
    const lifecycle: Ring
    const normal: Ring
    const slots: array<Option<Command>>
    const transaction: array<U32>
    var replaceableCount: int
    var cursor: int
    var batchDepth: int
    var stopping: bool
    var phase: Phase
    var transactionWords: int
    var commandCount: int
    var enqueued: int
    var emitted: int
    var coalesced: int
    var dropped: int
    var abandoned: int

    /** Every command that arrived, every command packed, the ones the transport has taken, and the
        ones in the transaction being sent. */
    ghost var history: seq<Command>
    ghost var sent: seq<Command>
    ghost var wire: seq<Command>
    ghost var inFlight: seq<Command>

    ghost predicate Shape()
      reads this, lifecycle, lifecycle.entries, normal, normal.entries
    {
      && lifecycle != normal && lifecycle.entries != normal.entries
      && lifecycle.Valid() && normal.Valid()
      && lifecycle.capacity == LIFECYCLE_CAPACITY && normal.capacity == NORMAL_CAPACITY
      && slots.Length == SLOT_COUNT && transaction.Length == TRANSACTION_WORDS
      && 0 <= cursor < SLOT_COUNT && 0 <= batchDepth
    }

    ghost function Queued(): State
      reads this, lifecycle, normal, slots
    {
      State(lifecycle.contents, normal.contents, slots[..], cursor)
    }

    /** The lock's invariant: every queue and slot accounts for what arrived. */
    ghost predicate Locked()
      reads this, lifecycle, lifecycle.entries, normal, normal.entries, slots
    {
      && Shape()
      && Consistent(history, Queued(), sent)
      && replaceableCount == Filled(slots[..])
      && enqueued == |history|
    }

    /** Nothing is lost or counted twice. */
    ghost predicate Conserved()
      reads this, lifecycle, normal, slots
    {
      enqueued == emitted + coalesced + dropped + abandoned + Pending(Queued()) + |inFlight|
    }

    /** The transaction being sent is a nonempty run of whole commands that fits one transfer. */
    ghost predicate Transacting()
      reads this, transaction
    {
      && 0 <= transactionWords <= transaction.Length
      && (phase == Sending || phase == Abandoned ==>
            inFlight != [] && commandCount == |inFlight| && transaction[..transactionWords] == Flatten(inFlight))
      && (phase == Idle || phase == Delivered || phase == Exited ==> inFlight == [])
      && 0 <= abandoned && (abandoned == 0 ==> wire + inFlight == sent)
    }

    ghost predicate Valid()
      reads this, lifecycle, lifecycle.entries, normal, normal.entries, slots, transaction
    {
      Locked() && Conserved() && Transacting()
    }

    constructor ()
      ensures Valid() && phase == Idle && history == [] && !stopping
      ensures fresh(lifecycle) && fresh(lifecycle.entries) && fresh(normal) && fresh(normal.entries)
      ensures fresh(slots) && fresh(transaction)
    {
      lifecycle := new Ring(LIFECYCLE_CAPACITY);
      normal := new Ring(NORMAL_CAPACITY);
      slots := new Option<Command>[SLOT_COUNT](_ => None);
      transaction := new U32[TRANSACTION_WORDS](_ => 0);
      replaceableCount, cursor, batchDepth, stopping, phase := 0, 0, 0, false, Idle;
      transactionWords, commandCount := 0, 0;
      enqueued, emitted, coalesced, dropped, abandoned := 0, 0, 0, 0, 0;
      history, sent, wire, inFlight := [], [], [], [];
      new;
      hide Consistent, Filled, Formed, Ring.Valid;
      NothingQueued(Queued());
      assert Shape();
      assert Transacting() && Conserved();
    }

    lemma NothingQueued(s: State)
      requires |s.slots| == SLOT_COUNT && (forall i | 0 <= i < SLOT_COUNT :: s.slots[i] == None)
      requires s.lifecycle == [] && s.normal == [] && s.cursor == 0
      ensures Consistent([], s, []) && Filled(s.slots) == 0
    {
      hide Consistent, Filled;
      FilledZero(s.slots);
      ConsistentStart(s);
    }

    // ---- Producers ------------------------------------------------------------------------

    /** A start or stop drops the waiting updates it makes obsolete. */
    method InvalidateUpdates(c: Command)
      requires Shape() && Formed(Queued()) && replaceableCount == Filled(slots[..])
      requires Opcode(c) == START || Opcode(c) == STOP
      modifies slots, this`replaceableCount, this`dropped
      ensures slots[..] == Surviving(old(slots[..]), c)
      ensures replaceableCount == Filled(slots[..])
      ensures dropped + replaceableCount == old(dropped + replaceableCount)
    {
      hide Filled;
      ghost var before := slots[..];
      var voice := VoiceOf(c);
      if voice < NUM_VOICES {
        for kind := 0 to 3
          invariant forall i | 0 <= i < SLOT_COUNT ::
                      slots[i] == if voice * 3 <= i < voice * 3 + kind then Surviving(before, c)[i] else before[i]
          invariant replaceableCount == Filled(slots[..])
          invariant dropped + replaceableCount == old(dropped + replaceableCount)
        {
          var flat := voice * 3 + kind;
          if slots[flat].Some? && (Opcode(c) == STOP || GenerationOf(slots[flat].value) != GenerationOf(c)) {
            ghost var was := slots[..];
            FilledUpdate(was, flat, None);
            slots[flat] := None;
            assert slots[..] == was[flat := None];
            replaceableCount := replaceableCount - 1;
            dropped := dropped + 1;
          }
        }
      }
      assert forall i | 0 <= i < SLOT_COUNT :: slots[i] == Surviving(before, c)[i];
    }

    /** Accepts one command, or reports that its queue is full. */
    method EnqueueOne(c: Command) returns (ok: bool)
      requires Locked() && Conserved()
      modifies this`replaceableCount, this`dropped, this`coalesced, this`enqueued, this`history
      modifies slots, lifecycle, lifecycle.entries, normal, normal.entries
      ensures Locked() && Conserved()
      ensures ok ==> history == old(history) + [c] && Queued() == Arrived(old(Queued()), c)
      ensures !ok ==>
                && history == old(history)
                && Queued() == old(Queued()).(slots := slots[..])
                && (slots[..] == old(slots[..]) || slots[..] == Surviving(old(slots[..]), c))
                && (if Lifecycle(c) then |lifecycle.contents| == LIFECYCLE_CAPACITY
                    else Normal(c) && |normal.contents| == NORMAL_CAPACITY)
    {
      hide Consistent, Filled, Formed, Surviving, Ring.Valid;
      ghost var before := Queued();
      ConsistentForms(history, before, sent);
      if Opcode(c) == START || Opcode(c) == STOP {
        InvalidateUpdates(c);
        FewerConsistent(history, before, sent, c);
        assert Queued() == before.(slots := Surviving(before.slots, c));
      } else if Lifecycle(c) {
        NothingForgotten(before.slots, c);
      }
      if Replaceable(c) {
        ok := true;
        FillSlot(c);
      } else if Lifecycle(c) {
        ok := lifecycle.Push(c);
      } else {
        ok := normal.Push(c);
      }
      if ok {
        ArrivalConsistent(history, before, sent, c);
        assert Queued() == Arrived(before, c);
        history := history + [c];
        enqueued := enqueued + 1;
      }
    }

    method FillSlot(c: Command)
      requires Shape() && Replaceable(c) && replaceableCount == Filled(slots[..])
      modifies slots, this`replaceableCount, this`coalesced
      ensures slots[..] == old(slots[..])[SlotOf(c) := Some(c)]
      ensures replaceableCount == Filled(slots[..])
      ensures replaceableCount + coalesced == old(replaceableCount + coalesced) + 1
    {
      hide Filled;
      var flat := SlotOf(c);
      FilledUpdate(slots[..], flat, Some(c));
      ghost var was := slots[..];
      if slots[flat].Some? {
        coalesced := coalesced + 1;
      } else {
        replaceableCount := replaceableCount + 1;
      }
      slots[flat] := Some(c);
      assert slots[..] == was[flat := Some(c)];
    }

    lemma ConsistentForms(history: seq<Command>, s: State, sent: seq<Command>)
      requires Consistent(history, s, sent)
      ensures Formed(s) && |s.slots| == SLOT_COUNT
    {
    }

    /** A release forgets nothing. */
    lemma NothingForgotten(slots: Slots, c: Command)
      requires Opcode(c) == RELEASE
      ensures Surviving(slots, c) == slots
    {
    }

    /** A producer's write: whole commands, in order, as far as they are whole and fit. */
    method WriteCommandWords(words: Words) returns (status: Status, ghost accepted: seq<Command>)
      requires Valid()
      modifies this`replaceableCount, this`dropped, this`coalesced, this`enqueued, this`history
      modifies slots, lifecycle, lifecycle.entries, normal, normal.entries
      ensures Valid() && history == old(history) + accepted
      ensures |Flatten(accepted)| <= |words| && Flatten(accepted) == words[..|Flatten(accepted)|]
      ensures status == Ok <==> Flatten(accepted) == words
      ensures status == StoppingError <==> words != [] && stopping
      ensures status == ArgumentError ==>
                var rest := words[|Flatten(accepted)|..];
                rest != [] && (rest[0] % 256 + 1 > MAX_COMMAND_WORDS || rest[0] % 256 + 1 > |rest|)
      ensures status == OverflowError ==>
                |lifecycle.contents| == LIFECYCLE_CAPACITY || |normal.contents| == NORMAL_CAPACITY
    {
      hide Filled, Surviving, Arrived, Flatten, Ring.Valid, AsyncScheduler.Locked, AsyncScheduler.Conserved;
      FlattenNone();
      accepted := [];
      if words == [] {
        return Ok, [];
      }
      if stopping {
        return StoppingError, [];
      }
      var offset := 0;
      while offset < |words|
        invariant 0 <= offset <= |words|
        invariant Valid() && history == old(history) + accepted
        invariant |Flatten(accepted)| == offset && Flatten(accepted) == words[..offset]
      {
        var commandWords := words[offset] % 256 + 1;
        if commandWords > MAX_COMMAND_WORDS || commandWords > |words| - offset {
          return ArgumentError, accepted;
        }
        var c: Command := words[offset..offset + commandWords];
        ghost var grown := accepted + [c];
        FlattenSnoc(accepted, c);
        var ok := EnqueueOne(c);
        if !ok {
          return OverflowError, accepted;
        }
        accepted := grown;
        offset := offset + commandWords;
        assert words[..offset] == words[..offset - commandWords] + c;
      }
      assert words[..offset] == words;
      status := Ok;
    }

    method BeginBatch() returns (ok: bool)
      requires Valid()
      modifies this`batchDepth
      ensures Valid() && ok == !stopping && batchDepth == old(batchDepth) + if ok then 1 else 0
    {
      ok := !stopping;
      if ok {
        batchDepth := batchDepth + 1;
      }
    }

    method EndBatch()
      requires Valid()
      modifies this`batchDepth
      ensures Valid() && batchDepth == if old(batchDepth) == 0 then 0 else old(batchDepth) - 1
    {
      if batchDepth != 0 {
        batchDepth := batchDepth - 1;
      }
    }

    method Shutdown()
      requires Valid()
      modifies this`stopping, this`batchDepth
      ensures Valid() && stopping && batchDepth == 0
    {
      stopping, batchDepth := true, 0;
    }

    // ---- The worker -----------------------------------------------------------------------

    /** Takes the next command: life cycle, then the rest in order, then updates in rotation. */
    method TakeNext() returns (r: Option<Command>)
      requires Shape() && Formed(Queued()) && replaceableCount == Filled(slots[..])
      modifies lifecycle`head, lifecycle`count, lifecycle`contents, normal`head, normal`count, normal`contents
      modifies slots, this`replaceableCount, this`cursor
      ensures Shape() && replaceableCount == Filled(slots[..])
      ensures r.None? <==> Pending(old(Queued())) == 0
      ensures r.None? ==> Queued() == old(Queued())
      ensures r.Some? ==> Departs(old(Queued()), r.value, Queued())
    {
      hide Filled, Ring.Valid, IsNext;
      ghost var before := Queued();
      FilledZero(before.slots);
      if lifecycle.count != 0 {
        CountsContents();
        r := lifecycle.Pop();
        return;
      }
      if normal.count != 0 {
        CountsContents();
        r := normal.Pop();
        return;
      }
      CountsContents();
      r := TakeUpdate();
    }

    lemma CountsContents()
      requires Shape()
      ensures lifecycle.count == |lifecycle.contents| <= LIFECYCLE_CAPACITY
      ensures normal.count == |normal.contents| <= NORMAL_CAPACITY
    {
    }

    method TakeUpdate() returns (r: Option<Command>)
      requires Shape() && Formed(Queued()) && replaceableCount == Filled(slots[..])
      modifies slots, this`replaceableCount, this`cursor
      ensures Shape() && replaceableCount == Filled(slots[..])
      ensures r.None? ==> slots[..] == old(slots[..]) && cursor == old(cursor)
      ensures r.None? <==> Filled(old(slots[..])) == 0
      ensures r.Some? ==> exists k ::
                && IsNext(old(slots[..]), old(cursor), k)
                && old(slots[..])[Around(old(cursor), k)] == r
                && cursor == (Around(old(cursor), k) + 1) % SLOT_COUNT
                && slots[..] == old(slots[..])[Around(old(cursor), k) := None]
    {
      hide Filled, Ring.Valid;
      ghost var before, start := slots[..], cursor;
      FilledZero(before);
      for scanned := 0 to SLOT_COUNT
        invariant slots[..] == before && cursor == start
        invariant forall k | 0 <= k < scanned :: before[Around(start, k)].None?
      {
        var flat := Around(cursor, scanned);
        if slots[flat].Some? {
          r := slots[flat];
          FilledUpdate(before, flat, None);
          slots[flat] := None;
          assert slots[..] == before[flat := None];
          replaceableCount := replaceableCount - 1;
          cursor := (flat + 1) % SLOT_COUNT;
          assert IsNext(before, start, scanned);
          return;
        }
      }
      forall i | 0 <= i < SLOT_COUNT
        ensures before[i].None?
      {
        ReachedAround(start, i);
      }
      r := None;
    }

    /** Gives a command back to the place it was just taken from. */
    method ReturnCommand(c: Command)
      requires Shape()
      requires Lifecycle(c) ==> |lifecycle.contents| < LIFECYCLE_CAPACITY
      requires Normal(c) ==> |normal.contents| < NORMAL_CAPACITY
      requires replaceableCount == Filled(slots[..])
      modifies lifecycle`head, lifecycle`count, lifecycle`contents, lifecycle.entries
      modifies normal`head, normal`count, normal`contents, normal.entries, slots, this`replaceableCount
      ensures Shape() && replaceableCount == Filled(slots[..])
      ensures Queued() == Returned(old(Queued()), c)
    {
      hide Filled, Ring.Valid;
      if Lifecycle(c) {
        lifecycle.PushFront(c);
      } else if Replaceable(c) {
        var flat := SlotOf(c);
        FilledUpdate(slots[..], flat, Some(c));
        ghost var was := slots[..];
        if slots[flat].None? {
          replaceableCount := replaceableCount + 1;
        }
        slots[flat] := Some(c);
        assert slots[..] == was[flat := Some(c)];
      } else {
        normal.PushFront(c);
      }
    }

    /** Copies a command behind the words already in the transaction. */
    method AppendWords(c: Command)
      requires 0 <= transactionWords && transactionWords + |c| <= transaction.Length
      modifies transaction, this`transactionWords
      ensures transactionWords == old(transactionWords) + |c|
      ensures transaction[..transactionWords] == old(transaction[..transactionWords]) + c
    {
      ghost var start, before := transactionWords, transaction[..transactionWords];
      for i := 0 to |c|
        invariant transactionWords == start + i
        invariant transaction[..transactionWords] == before + c[..i]
      {
        transaction[transactionWords] := c[i];
        transactionWords := transactionWords + 1;
        assert c[..i + 1] == c[..i] + [c[i]];
      }
      assert c[..|c|] == c;
    }

    /** What holds between two commands while a transaction is packed. */
    ghost predicate Packing()
      reads this, lifecycle, lifecycle.entries, normal, normal.entries, slots, transaction
    {
      && Locked()
      && 0 <= transactionWords <= transaction.Length && commandCount == |inFlight|
      && transaction[..transactionWords] == Flatten(inFlight) && (transactionWords == 0 <==> inFlight == [])
    }

    /** Packs one more command, or finds that none is left or that the next does not fit. */
    method PackOne() returns (more: bool)
      requires Packing()
      modifies lifecycle`head, lifecycle`count, lifecycle`contents, lifecycle.entries
      modifies normal`head, normal`count, normal`contents, normal.entries, slots, transaction
      modifies this`replaceableCount, this`cursor, this`transactionWords, this`commandCount, this`sent, this`inFlight
      ensures Packing()
      ensures Pending(old(Queued())) > 0 && old(inFlight) == [] ==> inFlight != []
      ensures Pending(Queued()) + |inFlight| == Pending(old(Queued())) + |old(inFlight)|
      ensures |old(inFlight)| <= |inFlight| && old(sent) <= sent && sent == old(sent) + inFlight[|old(inFlight)|..]
      ensures old(inFlight) <= inFlight
      ensures more ==> Pending(Queued()) < Pending(old(Queued()))
      ensures !more ==> Pending(Queued()) == 0 || transactionWords + MAX_COMMAND_WORDS > TRANSACTION_WORDS
    {
      hide Consistent, Filled, Flatten, Formed, Departs, Returned, Pending, Ring.Valid;
      ghost var before := Queued();
      CountsContents();
      ConsistentForms(history, before, sent);
      var next := TakeNext();
      if next.None? {
        return false;
      }
      var c := next.value;
      ghost var taken := Queued();
      DepartureConsistent(history, before, sent, c, taken);
      DepartureForms(before, c, taken);
      if transactionWords != 0 && transactionWords + |c| > transaction.Length {
        ReturnConsistent(history, before, sent, c, taken);
        RoomToReturn(before, c, taken);
        ReturnCommand(c);
        return false;
      }
      FlattenSnoc(inFlight, c);
      AppendWords(c);
      sent, inFlight := sent + [c], inFlight + [c];
      commandCount := commandCount + 1;
      more := transactionWords != transaction.Length;
    }

    lemma RoomToReturn(before: State, c: Command, taken: State)
      requires Shape() && Departs(before, c, taken) && taken == Queued()
      requires |before.lifecycle| <= LIFECYCLE_CAPACITY && |before.normal| <= NORMAL_CAPACITY
      ensures Lifecycle(c) ==> |lifecycle.contents| < LIFECYCLE_CAPACITY
      ensures Normal(c) ==> |normal.contents| < NORMAL_CAPACITY
    {
    }

    /** The worker's critical section. Woken with work to do, it fills a transaction; told to stop
        with nothing left, it exits; otherwise it waits. */
    method Pack()
      requires Valid() && phase == Idle
      modifies lifecycle`head, lifecycle`count, lifecycle`contents, lifecycle.entries
      modifies normal`head, normal`count, normal`contents, normal.entries, slots, transaction
      modifies this`replaceableCount, this`cursor, this`transactionWords, this`commandCount
      modifies this`sent, this`inFlight, this`phase
      ensures Valid()
      ensures var pending := Pending(old(Queued()));
              if pending > 0 && batchDepth == 0 then
                && phase == Sending && inFlight != [] && sent == old(sent) + inFlight
                && Pending(Queued()) == pending - |inFlight|
                && (Pending(Queued()) == 0 || transactionWords + MAX_COMMAND_WORDS > TRANSACTION_WORDS)
              else
                && Queued() == old(Queued()) && sent == old(sent)
                && phase == if stopping && pending == 0 then Exited else Idle
    {
      hide Consistent, Filled, Flatten, Pending, Ring.Valid;
      FlattenNone();
      ghost var pending := Pending(Queued());
      PendingIsCounted();
      var depth := lifecycle.count + normal.count + replaceableCount;
      if !(stopping || (batchDepth == 0 && depth != 0)) {
        return;
      }
      if stopping && depth == 0 {
        phase := Exited;
        return;
      }
      if batchDepth != 0 {
        return;
      }
      FillTransaction();
      phase := Sending;
    }

    lemma PendingIsCounted()
      requires Locked()
      ensures lifecycle.count + normal.count + replaceableCount == Pending(Queued())
    {
      hide Consistent, Filled;
    }

    method FillTransaction()
      requires Locked() && inFlight == [] && transaction.Length == TRANSACTION_WORDS && Pending(Queued()) > 0
      modifies lifecycle`head, lifecycle`count, lifecycle`contents, lifecycle.entries
      modifies normal`head, normal`count, normal`contents, normal.entries, slots, transaction
      modifies this`replaceableCount, this`cursor, this`transactionWords, this`commandCount, this`sent, this`inFlight
      ensures Packing() && inFlight != [] && sent == old(sent) + inFlight
      ensures Pending(Queued()) + |inFlight| == Pending(old(Queued()))
      ensures Pending(Queued()) == 0 || transactionWords + MAX_COMMAND_WORDS > TRANSACTION_WORDS
    {
      hide Consistent, Filled, Flatten, Pending, Ring.Valid;
      FlattenNone();
      transactionWords, commandCount := 0, 0;
      ghost var pending, before := Pending(Queued()), sent;
      var more := true;
      while more
        invariant Packing() && sent == before + inFlight
        invariant Pending(Queued()) + |inFlight| == pending
        invariant !more ==> inFlight != []
        invariant !more ==> Pending(Queued()) == 0 || transactionWords + MAX_COMMAND_WORDS > TRANSACTION_WORDS
        decreases Pending(Queued()) + if more then 1 else 0
      {
        ghost var packed := inFlight;
        more := PackOne();
        assert inFlight == packed + inFlight[|packed|..];
      }
    }

    /** One transport call for the transaction. A refused one is kept and tried again, unless the
        scheduler is stopping. */
    method Attempt(taken: bool) returns (words: Words)
      requires Valid() && phase == Sending
      modifies this`phase, this`emitted, this`wire, this`inFlight
      ensures Valid() && words == Flatten(old(inFlight)) && 0 < |words| <= TRANSACTION_WORDS
      ensures taken ==> phase == Delivered && inFlight == [] && wire == old(wire) + old(inFlight)
                        && emitted == old(emitted) + |old(inFlight)|
      ensures !taken ==> inFlight == old(inFlight) && wire == old(wire) && emitted == old(emitted)
                         && phase == if stopping then Abandoned else Sending
    {
      hide Consistent, Filled, Flatten, Pending, Ring.Valid;
      words := transaction[..transactionWords];
      SomeWords(inFlight);
      if taken {
        emitted := emitted + commandCount;
        assert wire + inFlight + [] == wire + inFlight;
        wire, inFlight, phase := wire + inFlight, [], Delivered;
      } else if stopping {
        phase := Abandoned;
      }
    }

    lemma SomeWords(cs: seq<Command>)
      requires cs != []
      ensures |Flatten(cs)| > 0
    {
    }

    /** The end of a round. Only a stopping scheduler gives a transaction up. */
    method Finish()
      requires Valid() && (phase == Delivered || phase == Abandoned)
      modifies this`phase, this`abandoned, this`inFlight
      ensures Valid() && phase == Idle
      ensures abandoned == old(abandoned) + |old(inFlight)|
    {
      hide Consistent, Filled, Flatten, Pending, Ring.Valid;
      if phase == Abandoned {
        abandoned := abandoned + commandCount;
        inFlight := [];
      }
      phase := Idle;
    }

    /** With producers quiet and a transport that takes every transaction, the worker drains all
        queues: everything that arrived was sent, replaced or forgotten. */
    method Drain()
      requires Valid() && phase == Idle && batchDepth == 0
      modifies lifecycle`head, lifecycle`count, lifecycle`contents, lifecycle.entries
      modifies normal`head, normal`count, normal`contents, normal.entries, slots, transaction
      modifies this`replaceableCount, this`cursor, this`transactionWords, this`commandCount
      modifies this`sent, this`inFlight, this`phase, this`emitted, this`wire, this`abandoned
      ensures Valid() && Pending(Queued()) == 0 && |inFlight| == 0
      ensures enqueued == emitted + coalesced + dropped + abandoned
      ensures abandoned == old(abandoned)
    {
      hide Locked, Flatten, Pending;
      PendingIsCounted();
      var depth := lifecycle.count + normal.count + replaceableCount;
      while depth != 0
        invariant Valid() && phase == Idle && abandoned == old(abandoned)
        invariant depth == Pending(Queued())
        decreases depth
      {
        Pack();
        var _ := Attempt(true);
        Finish();
        PendingIsCounted();
        depth := lifecycle.count + normal.count + replaceableCount;
      }
    }
  }
}
