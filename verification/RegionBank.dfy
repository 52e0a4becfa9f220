/**
 The real-time region bank: a bounded cache of prepared regions, keyed by program, bank, key and
 velocity, with least-recently-used eviction that spares regions a voice is using.
 */
module RegionBank {
  import opened CInt
  import opened Wrappers

  /** The arguments of a lookup, as a caller passes them. */
  datatype Args = Args(program: int, bank: int, key: int, velocity: int)

  predicate InRange(a: Args)
  {
    0 <= a.program < 128 && 0 <= a.bank < 16384 && 0 <= a.key < 128 && 0 <= a.velocity < 128
  }

  /** The cache key keeps the low bits of each argument. */
  function MakeKey(a: Args): int
  {
    a.program % 128 + (a.bank % 16384) * 0x80 + (a.key % 128) * 0x20_0000 + (a.velocity % 128) * 0x1000_0000
  }

  /** Two lookups share a key exactly when their arguments agree in the bits the key keeps. */
  lemma KeyMeaning(a: Args, b: Args)
    ensures MakeKey(a) == MakeKey(b) <==>
              a.program % 128 == b.program % 128 && a.bank % 16384 == b.bank % 16384
              && a.key % 128 == b.key % 128 && a.velocity % 128 == b.velocity % 128
    ensures InRange(a) && InRange(b) && MakeKey(a) == MakeKey(b) ==> a == b
  {
    KeyFields(a);
    KeyFields(b);
    if MakeKey(a) == MakeKey(b) && InRange(a) && InRange(b) {
      hide MakeKey;
      KeptWhole(a);
      KeptWhole(b);
    }
  }

  lemma KeptWhole(a: Args)
    requires InRange(a)
    ensures a == Args(a.program % 128, a.bank % 16384, a.key % 128, a.velocity % 128)
  {
  }

  lemma LowDigit(low: int, base: int, high: int)
    requires 0 <= low < base
    ensures (low + base * high) % base == low && (low + base * high) / base == high
  {
    DivUnique(low + base * high, base, high);
  }

  /** The fields of a key, from the bottom. */
  lemma KeyFields(a: Args)
    ensures var key := MakeKey(a);
            && key % 128 == a.program % 128 && (key / 0x80) % 16384 == a.bank % 16384
            && (key / 0x80 / 0x4000) % 128 == a.key % 128 && key / 0x80 / 0x4000 / 0x80 == a.velocity % 128
  {
    var p, b, k, v := a.program % 128, a.bank % 16384, a.key % 128, a.velocity % 128;
    assert MakeKey(a) == p + 128 * (b + 16384 * (k + 128 * v));
    LowDigit(p, 128, b + 16384 * (k + 128 * v));
    LowDigit(b, 16384, k + 128 * v);
    LowDigit(k, 128, v);
  }

  /** A prepared region, by its parameters. */
  datatype Region = Blank | Prepared(parameters: seq<int>)

  datatype Entry = Entry(indices: seq<int>, lastUse: int)

  /** Who a region slot belongs to: nobody, a position in an entry, or a lookup being built. */
  datatype Owner = Nobody | Held(key: int, position: int) | Claimed

  // ---- What the bank keeps ----------------------------------------------------------------

  /** Used slots and entries match one to one. */
  ghost predicate Owned(entries: map<int, Entry>, used: seq<bool>, owner: seq<Owner>)
  {
    && |used| == |owner|
    && (forall i | 0 <= i < |used| :: used[i] <==> owner[i] != Nobody)
    && (forall k, j | k in entries && 0 <= j < |entries[k].indices| ::
          0 <= entries[k].indices[j] < |used| && owner[entries[k].indices[j]] == Held(k, j))
    && (forall i | 0 <= i < |owner| && owner[i].Held? ::
          && owner[i].key in entries && 0 <= owner[i].position < |entries[owner[i].key].indices|
          && entries[owner[i].key].indices[owner[i].position] == i)
  }

  /** Use counts order the entries. */
  ghost predicate Dated(entries: map<int, Entry>, useCounter: int)
  {
    && (forall k | k in entries :: 0 < entries[k].lastUse <= useCounter)
    && (forall k, l | k in entries && l in entries && k != l :: entries[k].lastUse != entries[l].lastUse)
  }

  /** Read without the owners: every used slot lies in exactly one entry, at one position. */
  lemma EverySlotOnce(entries: map<int, Entry>, used: seq<bool>, owner: seq<Owner>)
    requires Owned(entries, used, owner) && forall i | 0 <= i < |owner| :: owner[i] != Claimed
    ensures forall i | 0 <= i < |used| && used[i] ::
              exists k, j :: k in entries && 0 <= j < |entries[k].indices| && entries[k].indices[j] == i
    ensures forall k, j, l, m | k in entries && l in entries && 0 <= j < |entries[k].indices| && 0 <= m < |entries[l].indices|
              && entries[k].indices[j] == entries[l].indices[m] :: k == l && j == m
  {
    forall i | 0 <= i < |used| && used[i]
      ensures exists k, j :: k in entries && 0 <= j < |entries[k].indices| && entries[k].indices[j] == i
    {
      assert entries[owner[i].key].indices[owner[i].position] == i;
    }
    forall k, j, l, m | k in entries && l in entries && 0 <= j < |entries[k].indices| && 0 <= m < |entries[l].indices|
      && entries[k].indices[j] == entries[l].indices[m]
      ensures k == l && j == m
    {
      assert owner[entries[k].indices[j]] == Held(k, j) && owner[entries[l].indices[m]] == Held(l, m);
    }
  }

  function CountFree(used: seq<bool>): (n: nat)
    ensures n <= |used|
  {
    if used == [] then 0 else CountFree(used[..|used| - 1]) + if used[|used| - 1] then 0 else 1
  }

  lemma CountFreeStep(used: seq<bool>, i: nat)
    requires i < |used|
    ensures CountFree(used[..i + 1]) == CountFree(used[..i]) + if used[i] then 0 else 1
  {
    assert used[..i + 1][..i] == used[..i];
  }

  predicate Belongs(o: Owner, key: int) { o.Held? && o.key == key }

  /** Owners, marks and contents of the slots after an entry is gone. */
  function Freed(owner: seq<Owner>, key: int): (r: seq<Owner>)
    ensures |r| == |owner|
  {
    seq(|owner|, i requires 0 <= i < |owner| => if Belongs(owner[i], key) then Nobody else owner[i])
  }

  function Unmarked(used: seq<bool>, owner: seq<Owner>, key: int): (r: seq<bool>)
    requires |used| == |owner|
    ensures |r| == |used|
  {
    seq(|used|, i requires 0 <= i < |used| => used[i] && !Belongs(owner[i], key))
  }

  function Blanked(regions: seq<Region>, owner: seq<Owner>, key: int): (r: seq<Region>)
    requires |regions| == |owner|
    ensures |r| == |regions|
  {
    seq(|regions|, i requires 0 <= i < |regions| => if Belongs(owner[i], key) then Blank else regions[i])
  }

  /** Each entry's slots still hold what the backing lookup returned when it was prepared. */
  ghost predicate Agrees(entries: map<int, Entry>, origin: map<int, Args>, regions: seq<Region>, backing: Args -> seq<Region>)
  {
    && origin.Keys == entries.Keys
    && forall k | k in entries ::
         && MakeKey(origin[k]) == k && |entries[k].indices| == |backing(origin[k])|
         && forall j | 0 <= j < |entries[k].indices| ::
              0 <= entries[k].indices[j] < |regions| && regions[entries[k].indices[j]] == backing(origin[k])[j]
  }

  /** Evicting one entry leaves all others as they were. */
  lemma EvictedOwned(entries: map<int, Entry>, used: seq<bool>, owner: seq<Owner>, key: int)
    requires Owned(entries, used, owner)
    ensures Owned(entries - {key}, Unmarked(used, owner, key), Freed(owner, key))
  {
  }

  lemma EvictedAgrees(entries: map<int, Entry>, used: seq<bool>, owner: seq<Owner>, origin: map<int, Args>,
                      regions: seq<Region>, backing: Args -> seq<Region>, key: int)
    requires Owned(entries, used, owner) && Agrees(entries, origin, regions, backing) && |regions| == |owner|
    ensures Agrees(entries - {key}, origin - {key}, Blanked(regions, owner, key), backing)
  {
  }

  lemma OneFewer(entries: map<int, Entry>, key: int)
    requires key in entries
    ensures |entries - {key}| == |entries| - 1
  {
    assert (entries - {key}).Keys == entries.Keys - {key};
    assert |entries.Keys - {key}| == |entries.Keys| - 1;
    assert |entries| == |entries.Keys| && |entries - {key}| == |(entries - {key}).Keys|;
  }

  lemma EvictedDated(entries: map<int, Entry>, useCounter: int, key: int)
    requires Dated(entries, useCounter)
    ensures Dated(entries - {key}, useCounter)
  {
  }

  lemma EvictedUndisturbed(entries: map<int, Entry>, used: seq<bool>, owner: seq<Owner>, regions: seq<Region>,
                           key: int, inUse: int -> bool)
    requires Owned(entries, used, owner) && |regions| == |owner| && key in entries && !Spared(entries, key, inUse)
    ensures Undisturbed(owner, Freed(owner, key), regions, Blanked(regions, owner, key), inUse)
  {
  }

  ghost predicate Spared(entries: map<int, Entry>, key: int, inUse: int -> bool)
    requires key in entries
  {
    exists j :: 0 <= j < |entries[key].indices| && inUse(entries[key].indices[j])
  }

  lemma SomeKey(keys: set<int>)
    requires keys != {}
    ensures exists k :: k in keys
  {
    NoKey(keys);
  }

  lemma NoKey(keys: set<int>)
    ensures (forall k :: k !in keys) ==> keys == {}
  {
    assert (forall k :: k !in keys) ==> keys == {};
  }

  /** The entry to evict: not in use, and used longer ago than every other such entry. */
  ghost predicate IsVictim(entries: map<int, Entry>, victim: int, inUse: int -> bool)
  {
    && victim in entries && !Spared(entries, victim, inUse)
    && forall k | k in entries && !Spared(entries, k, inUse) :: entries[victim].lastUse <= entries[k].lastUse
  }

  /** Only entries that are not in use have gone, and the others have not changed. */
  ghost predicate Shrunk(entries: map<int, Entry>, entries': map<int, Entry>, inUse: int -> bool)
  {
    && (forall k | k in entries' :: k in entries && entries'[k] == entries[k])
    && (forall k | k in entries && Spared(entries, k, inUse) :: k in entries')
  }

  ghost predicate OriginsKept(origin: map<int, Args>, origin': map<int, Args>)
  {
    forall k | k in origin' :: k in origin && origin'[k] == origin[k]
  }

  /** Every entry left has a region in use. */
  ghost predicate AllSpared(entries: map<int, Entry>, inUse: int -> bool)
  {
    forall k | k in entries :: Spared(entries, k, inUse)
  }

  lemma ShrunkTransitive(a: map<int, Entry>, b: map<int, Entry>, c: map<int, Entry>, inUse: int -> bool)
    requires Shrunk(a, b, inUse) && Shrunk(b, c, inUse)
    ensures Shrunk(a, c, inUse)
  {
    forall k | k in a && Spared(a, k, inUse)
      ensures k in c
    {
      assert Spared(b, k, inUse);
    }
  }

  lemma ShrunkOne(a: map<int, Entry>, victim: int, inUse: int -> bool)
    requires victim in a && !Spared(a, victim, inUse)
    ensures Shrunk(a, a - {victim}, inUse)
  {
  }

  lemma ShrunkNone(a: map<int, Entry>, inUse: int -> bool)
    ensures Shrunk(a, a, inUse)
  {
  }

  lemma UndisturbedTransitive(a: seq<Owner>, b: seq<Owner>, c: seq<Owner>, ra: seq<Region>, rb: seq<Region>, rc: seq<Region>, inUse: int -> bool)
    requires Undisturbed(a, b, ra, rb, inUse) && Undisturbed(b, c, rb, rc, inUse)
    ensures Undisturbed(a, c, ra, rc, inUse)
  {
  }

  /** Regions that voices are using keep their slots and contents. */
  ghost predicate Undisturbed(owner: seq<Owner>, owner': seq<Owner>, regions: seq<Region>, regions': seq<Region>, inUse: int -> bool)
  {
    |owner| == |owner'| == |regions| == |regions'| &&
    forall i | 0 <= i < |owner| && owner[i].Held? && inUse(i) :: owner'[i] == owner[i] && regions'[i] == regions[i]
  }

  /** Claimed slots become the positions of a new entry. */
  function HeldBy(owner: seq<Owner>, key: int, slots: seq<int>): (r: seq<Owner>)
    ensures |r| == |owner|
  {
    seq(|owner|, i requires 0 <= i < |owner| =>
          if i in slots then Held(key, PositionOf(slots, i)) else owner[i])
  }

  function PositionOf(slots: seq<int>, i: int): (j: nat)
    requires i in slots
    ensures j < |slots| && slots[j] == i
  {
    if slots[0] == i then 0 else 1 + PositionOf(slots[1..], i)
  }

  lemma InsertedOwned(entries: map<int, Entry>, used: seq<bool>, owner: seq<Owner>, key: int, slots: seq<int>, lastUse: int)
    requires Owned(entries, used, owner) && key !in entries
    requires forall j | 0 <= j < |slots| :: 0 <= slots[j] < |owner| && owner[slots[j]] == Claimed
    requires forall j, k | 0 <= j < k < |slots| :: slots[j] < slots[k]
    ensures Owned(entries[key := Entry(slots, lastUse)], used, HeldBy(owner, key, slots))
  {
  }

  lemma InsertedDated(entries: map<int, Entry>, key: int, slots: seq<int>, useCounter: int)
    requires Dated(entries, useCounter) && useCounter >= 0
    ensures Dated(entries[key := Entry(slots, useCounter + 1)], useCounter + 1)
  {
  }

  lemma InsertedSize(entries: map<int, Entry>, key: int, entry: Entry)
    requires key !in entries
    ensures |entries[key := entry]| == |entries| + 1
  {
    assert entries[key := entry].Keys == entries.Keys + {key};
    assert |entries| == |entries.Keys| && |entries[key := entry]| == |entries[key := entry].Keys|;
  }

  class Bank {
    const entryCapacity: int
    const regionCapacity: int
    const backing: Args -> seq<Region>
    const regions: array<Region>
    const slotUsed: array<bool>
    var entries: map<int, Entry>
    var useCounter: int
    var usedRegionSlots: int
    ghost var owner: seq<Owner>
    /** The arguments each entry was prepared for. */
    ghost var origin: map<int, Args>

    ghost predicate Shape()
      reads this
    {
      && entryCapacity > 0 && regionCapacity > 0
      && regions.Length == slotUsed.Length == regionCapacity == |owner|
    }

    /** The bank's invariant, but for slots that a lookup has claimed. */
    ghost predicate Building()
      reads this, regions, slotUsed
    {
      && Shape() && Owned(entries, slotUsed[..], owner) && Dated(entries, useCounter) && Agrees(entries, origin, regions[..], backing)
      && |entries| <= entryCapacity && useCounter >= 0
      && usedRegionSlots == regionCapacity - CountFree(slotUsed[..])
    }

    ghost predicate Valid()
      reads this, regions, slotUsed
    {
      Building() && forall i | 0 <= i < |owner| :: owner[i] != Claimed
    }

    constructor (backing: Args -> seq<Region>, entryCapacity: int, regionCapacity: int)
      requires entryCapacity > 0 && regionCapacity > 0
      ensures Valid() && entries == map[] && this.backing == backing && fresh(regions) && fresh(slotUsed)
    {
      this.entryCapacity, this.regionCapacity, this.backing := entryCapacity, regionCapacity, backing;
      regions := new Region[regionCapacity](_ => Blank);
      slotUsed := new bool[regionCapacity](_ => false);
      entries, useCounter, usedRegionSlots, origin := map[], 0, 0, map[];
      owner := seq(regionCapacity, _ => Nobody);
      new;
      AllFree(slotUsed[..]);
    }

    lemma {:induction false} AllFree(used: seq<bool>)
      requires forall i | 0 <= i < |used| :: !used[i]
      ensures CountFree(used) == |used|
    {
      if used != [] {
        AllFree(used[..|used| - 1]);
      }
    }

    // ---- Eviction -------------------------------------------------------------------------

    method EntryInUse(indices: seq<int>, inUse: int -> bool) returns (busy: bool)
      ensures busy <==> exists j :: 0 <= j < |indices| && inUse(indices[j])
    {
      busy := false;
      for j := 0 to |indices|
        invariant !busy && forall k | 0 <= k < j :: !inUse(indices[k])
      {
        if inUse(indices[j]) {
          return true;
        }
      }
    }

    /** Scans all entries, in no particular order, for the one to evict. */
    method FindVictim(inUse: int -> bool) returns (victim: Option<int>)
      ensures victim.None? ==> AllSpared(entries, inUse)
      ensures victim.Some? ==> IsVictim(entries, victim.value, inUse)
    {
      victim := None;
      var remaining := entries.Keys;
      while remaining != {}
        invariant remaining <= entries.Keys
        invariant victim.None? ==> forall k | k in entries && k !in remaining :: Spared(entries, k, inUse)
        invariant victim.Some? ==>
                    && victim.value in entries && !Spared(entries, victim.value, inUse)
                    && forall k | k in entries && k !in remaining && !Spared(entries, k, inUse) ::
                         entries[victim.value].lastUse <= entries[k].lastUse
        decreases remaining
      {
        SomeKey(remaining);
        var k :| k in remaining;
        remaining := remaining - {k};
        var busy := EntryInUse(entries[k].indices, inUse);
        if !busy && (victim.None? || entries[k].lastUse < entries[victim.value].lastUse) {
          victim := Some(k);
        }
      }
    }

    /** Frees the region slots of one entry. */
    method ReleaseSlots(indices: seq<int>, ghost key: int)
      requires Building() && key in entries && entries[key].indices == indices
      modifies regions, slotUsed, this`usedRegionSlots
      ensures slotUsed[..] == Unmarked(old(slotUsed[..]), owner, key)
      ensures regions[..] == Blanked(old(regions[..]), owner, key)
      ensures usedRegionSlots == regionCapacity - CountFree(slotUsed[..])
    {
      hide CountFree;
      for j := 0 to |indices|
        invariant forall i | 0 <= i < regionCapacity ::
                    var gone := Belongs(owner[i], key) && owner[i].position < j;
                    && slotUsed[i] == (old(slotUsed[i]) && !gone)
                    && regions[i] == if gone then Blank else old(regions[i])
        invariant usedRegionSlots == regionCapacity - CountFree(slotUsed[..])
      {
        var region := indices[j];
        ghost var used := slotUsed[..];
        assert owner[region] == Held(key, j);
        slotUsed[region] := false;
        regions[region] := Blank;
        assert slotUsed[..] == used[region := false];
        FreeOne(used, region);
        usedRegionSlots := usedRegionSlots - 1;
      }
    }

    lemma {:induction false} FreeOne(used: seq<bool>, i: nat)
      requires i < |used| && used[i]
      ensures CountFree(used[i := false]) == CountFree(used) + 1
    {
      var n := |used| - 1;
      if i == n {
        assert used[i := false][..n] == used[..n];
      } else {
        assert used[i := false][..n] == used[..n][i := false];
        FreeOne(used[..n], i);
      }
    }

    /** Removes an entry with its slots. */
    method EvictEntry(victim: int)
      requires Valid() && victim in entries
      modifies regions, slotUsed, this`entries, this`usedRegionSlots, this`owner, this`origin
      ensures Valid() && entries == old(entries) - {victim} && origin == old(origin) - {victim}
      ensures owner == Freed(old(owner), victim) && regions[..] == Blanked(old(regions[..]), old(owner), victim)
      ensures |entries| == |old(entries)| - 1
    {
      hide CountFree, Dated, Owned, Agrees, Unmarked, Blanked;
      ghost var used, was := slotUsed[..], regions[..];
      ReleaseSlots(entries[victim].indices, victim);
      EvictedOwned(entries, used, owner, victim);
      EvictedAgrees(entries, used, owner, origin, was, backing, victim);
      EvictedDated(entries, useCounter, victim);
      OneFewer(entries, victim);
      owner := Freed(owner, victim);
      origin := origin - {victim};
      entries := entries - {victim};
    }

    /** Evicts the least recently used entry that no voice is using, if there is one. */
    method EvictOne(inUse: int -> bool) returns (evicted: bool)
      requires Valid()
      modifies regions, slotUsed, this`entries, this`usedRegionSlots, this`owner, this`origin
      ensures Valid()
      ensures !evicted ==> entries == old(entries) && slotUsed[..] == old(slotUsed[..]) && AllSpared(entries, inUse)
      ensures evicted ==> exists victim :: IsVictim(old(entries), victim, inUse) && entries == old(entries) - {victim}
      ensures evicted ==> |entries| == |old(entries)| - 1
      ensures Shrunk(old(entries), entries, inUse) && OriginsKept(old(origin), origin)
      ensures Undisturbed(old(owner), owner, old(regions[..]), regions[..], inUse)
    {
      hide CountFree, Dated, IsVictim, Owned, Agrees, Spared, Shrunk, AllSpared, Undisturbed, Blanked, Freed;
      var found := FindVictim(inUse);
      if found.None? {
        NothingDisturbed(owner, regions[..], inUse);
        ShrunkNone(entries, inUse);
        return false;
      }
      var victim := found.value;
      VictimIsThere(entries, victim, inUse);
      EvictedUndisturbed(entries, slotUsed[..], owner, regions[..], victim, inUse);
      ShrunkOne(entries, victim, inUse);
      EvictEntry(victim);
      evicted := true;
    }

    lemma NothingDisturbed(owner: seq<Owner>, regions: seq<Region>, inUse: int -> bool)
      requires |owner| == |regions|
      ensures Undisturbed(owner, owner, regions, regions, inUse)
    {
    }

    lemma VictimIsThere(entries: map<int, Entry>, victim: int, inUse: int -> bool)
      requires IsVictim(entries, victim, inUse)
      ensures victim in entries && !Spared(entries, victim, inUse)
    {
    }

    // ---- Claiming -------------------------------------------------------------------------

    /** How many slots are free. */
    method Available() returns (n: int)
      requires slotUsed.Length == regionCapacity
      ensures n == CountFree(slotUsed[..])
    {
      n := 0;
      for i := 0 to regionCapacity
        invariant n == CountFree(slotUsed[..][..i])
      {
        CountFreeStep(slotUsed[..], i);
        if !slotUsed[i] {
          n := n + 1;
        }
      }
      assert slotUsed[..][..regionCapacity] == slotUsed[..];
    }

    /** Evicts until enough slots are free, or until every entry left is in use. */
    method MakeRoom(count: int, inUse: int -> bool) returns (ok: bool)
      requires Valid()
      modifies regions, slotUsed, this`entries, this`usedRegionSlots, this`owner, this`origin
      ensures Valid() && ok == (CountFree(slotUsed[..]) >= count)
      ensures !ok ==> AllSpared(entries, inUse)
      ensures Shrunk(old(entries), entries, inUse) && OriginsKept(old(origin), origin) && |entries| <= |old(entries)|
      ensures Undisturbed(old(owner), owner, old(regions[..]), regions[..], inUse)
    {
      hide CountFree, Dated, Owned, Agrees, Spared, Shrunk, AllSpared, Undisturbed, IsVictim;
      ghost var e, o, r := entries, owner, regions[..];
      NothingDisturbed(o, r, inUse);
      ShrunkNone(e, inUse);
      var available := Available();
      while available < count
        invariant Valid() && available == CountFree(slotUsed[..])
        invariant Shrunk(e, entries, inUse) && OriginsKept(old(origin), origin) && |entries| <= |e|
        invariant Undisturbed(o, owner, r, regions[..], inUse)
        decreases |entries|
      {
        ghost var e', o', r' := entries, owner, regions[..];
        var evicted := EvictOne(inUse);
        ShrunkTransitive(e, e', entries, inUse);
        UndisturbedTransitive(o, o', owner, r, r', regions[..], inUse);
        if !evicted {
          return false;
        }
        available := Available();
      }
      ok := true;
    }

    /** Takes the lowest free slots. */
    method TakeSlots(count: nat) returns (claimed: seq<int>)
      requires Valid() && count <= CountFree(slotUsed[..])
      modifies slotUsed, this`usedRegionSlots, this`owner
      ensures Building() && |claimed| == count
      ensures forall j | 0 <= j < |claimed| :: 0 <= claimed[j] < regionCapacity && !old(slotUsed[claimed[j]])
      ensures forall j, k | 0 <= j < k < |claimed| :: claimed[j] < claimed[k]
      ensures forall i | 0 <= i < regionCapacity :: owner[i] == if i in claimed then Claimed else old(owner)[i]
    {
      hide CountFree, Dated, Owned, Agrees;
      ghost var used := slotUsed[..];
      claimed := [];
      assert CountFree(used[..0]) == 0 by { NoneFree(); }
      var index := 0;
      while index < regionCapacity && |claimed| < count
        invariant 0 <= index <= regionCapacity && |claimed| <= count
        invariant Shape() && Owned(entries, slotUsed[..], owner)
        invariant |claimed| == CountFree(used[..index])
        invariant usedRegionSlots + |claimed| == regionCapacity - CountFree(slotUsed[..])
        invariant forall i | index <= i < regionCapacity :: slotUsed[i] == used[i]
        invariant forall j | 0 <= j < |claimed| :: 0 <= claimed[j] < index && !used[claimed[j]]
        invariant forall j, k | 0 <= j < k < |claimed| :: claimed[j] < claimed[k]
        invariant forall i | 0 <= i < regionCapacity :: owner[i] == if i in claimed then Claimed else old(owner)[i]
      {
        CountFreeStep(used, index);
        if !slotUsed[index] {
          ghost var marks := slotUsed[..];
          ClaimOwned(entries, marks, owner, index);
          FreeOne(marks[index := true], index);
          assert marks[index := true][index := false] == marks;
          slotUsed[index] := true;
          assert slotUsed[..] == marks[index := true];
          owner := owner[index := Claimed];
          claimed := claimed + [index];
        }
        index := index + 1;
      }
      assert used[..regionCapacity] == used;
      usedRegionSlots := usedRegionSlots + |claimed|;
    }

    lemma NoneFree()
      ensures CountFree([]) == 0
    {
    }

    lemma ClaimOwned(entries: map<int, Entry>, used: seq<bool>, owner: seq<Owner>, i: int)
      requires Owned(entries, used, owner) && 0 <= i < |used| && !used[i]
      ensures Owned(entries, used[i := true], owner[i := Claimed])
    {
    }

    // ---- Lookup ---------------------------------------------------------------------------

    /** Marks an entry as the most recently used. */
    method Touch(key: int)
      requires Valid() && key in entries
      modifies this`entries, this`useCounter
      ensures Valid() && useCounter == old(useCounter) + 1
      ensures entries == old(entries)[key := old(entries)[key].(lastUse := useCounter)]
    {
      hide CountFree, Owned, Dated, Agrees;
      TouchKeeps(entries, slotUsed[..], owner, useCounter, origin, regions[..], backing, key);
      useCounter := useCounter + 1;
      entries := entries[key := entries[key].(lastUse := useCounter)];
    }

    /** A later use count changes neither whose the slots are nor what they hold. */
    static lemma TouchKeeps(entries: map<int, Entry>, used: seq<bool>, owner: seq<Owner>, useCounter: int,
                            origin: map<int, Args>, regions: seq<Region>, backing: Args -> seq<Region>, key: int)
      requires key in entries && Owned(entries, used, owner) && Dated(entries, useCounter) && useCounter >= 0
      requires Agrees(entries, origin, regions, backing)
      ensures var touched := entries[key := entries[key].(lastUse := useCounter + 1)];
              && |touched| == |entries| && Owned(touched, used, owner) && Dated(touched, useCounter + 1)
              && Agrees(touched, origin, regions, backing)
    {
      hide Owned, Agrees;
      var touched := entries[key := entries[key].(lastUse := useCounter + 1)];
      SameSize(entries, key, touched[key]);
      SameIndices(entries, touched, used, owner, origin, regions, backing);
    }

    static lemma SameSize(entries: map<int, Entry>, key: int, e: Entry)
      requires key in entries
      ensures entries[key := e].Keys == entries.Keys && |entries[key := e]| == |entries|
    {
      var touched := entries[key := e];
      assert touched.Keys == entries.Keys;
      assert |touched.Keys| == |touched| && |entries.Keys| == |entries|;
    }

    /** Who owns what, and what it holds, depends on the slots of the entries alone. */
    static lemma SameIndices(entries: map<int, Entry>, touched: map<int, Entry>, used: seq<bool>, owner: seq<Owner>,
                             origin: map<int, Args>, regions: seq<Region>, backing: Args -> seq<Region>)
      requires touched.Keys == entries.Keys && forall k | k in entries :: touched[k].indices == entries[k].indices
      requires Owned(entries, used, owner) && Agrees(entries, origin, regions, backing)
      ensures Owned(touched, used, owner) && Agrees(touched, origin, regions, backing)
    {
    }

    /** Writes prepared regions into claimed slots. */
    method FillSlots(slots: seq<int>, prepared: seq<Region>)
      requires Building() && |slots| == |prepared|
      requires forall j | 0 <= j < |slots| :: 0 <= slots[j] < regionCapacity && owner[slots[j]] == Claimed
      requires forall j, k | 0 <= j < k < |slots| :: slots[j] < slots[k]
      modifies regions
      ensures Building()
      ensures forall j | 0 <= j < |slots| :: regions[slots[j]] == prepared[j]
      ensures forall i | 0 <= i < regionCapacity && i !in slots :: regions[i] == old(regions[i])
    {
      hide CountFree, Dated;
      for index := 0 to |slots|
        invariant Building()
        invariant forall j | 0 <= j < index :: regions[slots[j]] == prepared[j]
        invariant forall i | 0 <= i < regionCapacity && i !in slots[..index] :: regions[i] == old(regions[i])
      {
        ghost var was := regions[..];
        ClaimedIsNobodys(slots[index]);
        regions[slots[index]] := prepared[index];
        assert regions[..] == was[slots[index] := prepared[index]];
      }
    }

    lemma ClaimedIsNobodys(slot: int)
      requires Building() && 0 <= slot < regionCapacity && owner[slot] == Claimed
      ensures forall k, j | k in entries && 0 <= j < |entries[k].indices| :: entries[k].indices[j] != slot
    {
    }

    /** Makes the claimed slots a new entry, the most recently used one. */
    method Insert(args: Args, slots: seq<int>)
      requires Building() && MakeKey(args) !in entries && |entries| < entryCapacity && |slots| == |backing(args)|
      requires forall j | 0 <= j < |slots| :: 0 <= slots[j] < regionCapacity && regions[slots[j]] == backing(args)[j]
      requires forall j, k | 0 <= j < k < |slots| :: slots[j] < slots[k]
      requires forall i | 0 <= i < regionCapacity :: owner[i] == Claimed <==> i in slots
      modifies this`entries, this`useCounter, this`owner, this`origin
      ensures Valid() && useCounter == old(useCounter) + 1
      ensures entries == old(entries)[MakeKey(args) := Entry(slots, useCounter)] && origin == old(origin)[MakeKey(args) := args]
      ensures forall i | 0 <= i < regionCapacity && i !in slots :: owner[i] == old(owner)[i]
    {
      hide CountFree, Owned, Agrees, Dated, MakeKey;
      var key := MakeKey(args);
      InsertedOwned(entries, slotUsed[..], owner, key, slots, useCounter + 1);
      InsertedDated(entries, key, slots, useCounter);
      InsertedAgrees(entries, origin, regions[..], key, args, slots, useCounter + 1);
      InsertedSize(entries, key, Entry(slots, useCounter + 1));
      useCounter := useCounter + 1;
      owner := HeldBy(owner, key, slots);
      origin := origin[key := args];
      entries := entries[key := Entry(slots, useCounter)];
    }

    lemma InsertedAgrees(entries: map<int, Entry>, origin: map<int, Args>, regions: seq<Region>, key: int, args: Args,
                         slots: seq<int>, lastUse: int)
      requires Agrees(entries, origin, regions, backing) && key == MakeKey(args) && key !in entries
      requires |slots| == |backing(args)|
      requires forall j | 0 <= j < |slots| :: 0 <= slots[j] < |regions| && regions[slots[j]] == backing(args)[j]
      ensures Agrees(entries[key := Entry(slots, lastUse)], origin[key := args], regions, backing)
    {
    }

    /** What a lookup promises about the slots it returns: they hold what the backing lookup
        returned for arguments with the same key, and for the very arguments if everything that was
        ever looked up was in range. */
    ghost predicate Serves(args: Args, slots: seq<int>)
      reads this, regions
    {
      MakeKey(args) in origin &&
      var prepared := backing(origin[MakeKey(args)]);
      && |slots| == |prepared| && forall j | 0 <= j < |slots| :: 0 <= slots[j] < regions.Length && regions[slots[j]] == prepared[j]
    }

    ghost predicate AllInRange()
      reads this
    {
      forall k | k in origin :: InRange(origin[k])
    }

    /** With arguments in range throughout, the cached answer is the backing lookup's answer. */
    lemma ServesExactly(args: Args, slots: seq<int>)
      requires Valid() && Serves(args, slots) && AllInRange() && InRange(args)
      ensures origin[MakeKey(args)] == args
      ensures |slots| == |backing(args)| && forall j | 0 <= j < |slots| :: 0 <= slots[j] < regions.Length && regions[slots[j]] == backing(args)[j]
    {
      hide CountFree, Owned, Dated, MakeKey;
      assert Agrees(entries, origin, regions[..], backing);
      KeyMeaning(args, origin[MakeKey(args)]);
    }

    /** Evicts until an entry fits. */
    method RoomForEntry(inUse: int -> bool) returns (ok: bool)
      requires Valid()
      modifies regions, slotUsed, this`entries, this`usedRegionSlots, this`owner, this`origin
      ensures Valid() && ok == (|entries| < entryCapacity) && (!ok ==> AllSpared(entries, inUse))
      ensures Shrunk(old(entries), entries, inUse) && OriginsKept(old(origin), origin)
      ensures Undisturbed(old(owner), owner, old(regions[..]), regions[..], inUse)
    {
      hide CountFree, Dated, Owned, Agrees, Spared, Shrunk, AllSpared, Undisturbed, IsVictim;
      ghost var e, o, r := entries, owner, regions[..];
      NothingDisturbed(o, r, inUse);
      ShrunkNone(e, inUse);
      while |entries| >= entryCapacity
        invariant Valid()
        invariant Shrunk(e, entries, inUse) && OriginsKept(old(origin), origin)
        invariant Undisturbed(o, owner, r, regions[..], inUse)
        decreases |entries|
      {
        ghost var e', o', r' := entries, owner, regions[..];
        var evicted := EvictOne(inUse);
        ShrunkTransitive(e, e', entries, inUse);
        UndisturbedTransitive(o, o', owner, r, r', regions[..], inUse);
        if !evicted {
          return false;
        }
      }
      ok := true;
    }

    /** A lookup. A hit only touches its entry. A miss prepares the regions, evicting entries that
        are not in use, least recently used first; it is refused only when every entry left is in
        use and there is still no room. */
    method RegionsForPreset(args: Args, inUse: int -> bool) returns (r: Option<seq<int>>)
      requires Valid()
      modifies regions, slotUsed, this`entries, this`useCounter, this`usedRegionSlots, this`owner, this`origin
      ensures Valid()
      ensures r.Some? ==>
                && Serves(args, r.value) && MakeKey(args) in entries
                && entries[MakeKey(args)] == Entry(r.value, useCounter)
      ensures MakeKey(args) in old(entries) ==>
                && r.Some? && origin == old(origin) && regions[..] == old(regions[..]) && slotUsed[..] == old(slotUsed[..])
                && entries == old(entries)[MakeKey(args) := Entry(old(entries)[MakeKey(args)].indices, useCounter)]
      ensures MakeKey(args) !in old(entries) && r.Some? ==> origin[MakeKey(args)] == args
      ensures r.None? ==>
                && MakeKey(args) !in entries && AllSpared(entries, inUse)
                && (|entries| >= entryCapacity || CountFree(slotUsed[..]) < |backing(args)|)
      ensures forall k | k in old(entries) && Spared(old(entries), k, inUse) ::
                k in entries && entries[k].indices == old(entries)[k].indices
      ensures Undisturbed(old(owner), owner, old(regions[..]), regions[..], inUse)
      ensures old(AllInRange()) && InRange(args) ==> AllInRange()
    {
      hide CountFree, Dated, Owned, Agrees, MakeKey, Spared, AllSpared, Undisturbed;
      var key := MakeKey(args);
      if key in entries {
        NothingDisturbed(owner, regions[..], inUse);
        HitServes(args);
        Touch(key);
        return Some(entries[key].indices);
      }
      r := Prepare(args, inUse);
    }

    lemma HitServes(args: Args)
      requires Valid() && MakeKey(args) in entries
      ensures Serves(args, entries[MakeKey(args)].indices)
    {
    }

    method Prepare(args: Args, inUse: int -> bool) returns (r: Option<seq<int>>)
      requires Valid() && MakeKey(args) !in entries
      modifies regions, slotUsed, this`entries, this`useCounter, this`usedRegionSlots, this`owner, this`origin
      ensures Valid()
      ensures r.Some? ==>
                && Serves(args, r.value) && origin[MakeKey(args)] == args && MakeKey(args) in entries
                && entries[MakeKey(args)] == Entry(r.value, useCounter)
      ensures r.None? ==>
                && MakeKey(args) !in entries && AllSpared(entries, inUse)
                && (|entries| >= entryCapacity || CountFree(slotUsed[..]) < |backing(args)|)
      ensures forall k | k in old(entries) && Spared(old(entries), k, inUse) ::
                k in entries && entries[k].indices == old(entries)[k].indices
      ensures Undisturbed(old(owner), owner, old(regions[..]), regions[..], inUse)
      ensures old(AllInRange()) && InRange(args) ==> AllInRange()
    {
      hide CountFree, Dated, Owned, Agrees, MakeKey, Spared, AllSpared, Undisturbed;
      ghost var e, o, was := entries, owner, regions[..];
      var prepared := backing(args);
      var ok := RoomForEntry(inUse);
      if !ok {
        return None;
      }
      ghost var e', o', was' := entries, owner, regions[..];
      ok := MakeRoom(|prepared|, inUse);
      ShrunkTransitive(e, e', entries, inUse);
      UndisturbedTransitive(o, o', owner, was, was', regions[..], inUse);
      if !ok {
        return None;
      }
      ghost var o2, was2 := owner, regions[..];
      var slots := Build(args, inUse);
      UndisturbedTransitive(o, o2, owner, was, was2, regions[..], inUse);
      r := Some(slots);
    }

    lemma HeldIsUsed()
      requires Building()
      ensures forall i | 0 <= i < regionCapacity && owner[i].Held? :: slotUsed[i]
    {
    }

    /** Claims, fills and inserts: nothing held is disturbed. */
    method Build(args: Args, ghost inUse: int -> bool) returns (slots: seq<int>)
      requires Valid() && MakeKey(args) !in entries && |entries| < entryCapacity
      requires |backing(args)| <= CountFree(slotUsed[..])
      modifies regions, slotUsed, this`entries, this`useCounter, this`usedRegionSlots, this`owner, this`origin
      ensures Valid() && Serves(args, slots)
      ensures entries == old(entries)[MakeKey(args) := Entry(slots, useCounter)] && origin == old(origin)[MakeKey(args) := args]
      ensures Undisturbed(old(owner), owner, old(regions[..]), regions[..], inUse)
    {
      hide CountFree, Dated, Owned, Agrees, MakeKey;
      var prepared := backing(args);
      HeldIsUsed();
      slots := TakeSlots(|prepared|);
      FillSlots(slots, prepared);
      Insert(args, slots);
    }
  }
}
