/** The process-wide table of published trampoline sets and its address lookup. */
module TrampolineRegistry {
  import opened WordSize
  import opened Options
  import opened TrampolineSet

  /** generation 0 marks a free slot. */
  datatype Slot = Slot(start: nat, end: nat, generation: nat, entries: seq<Entry>)

  const FREE := Slot(0, 0, 0, [])

  /** A set that was created and not yet destroyed. */
  datatype Owner = Owner(generation: nat, t: Trampolines)

  function SlotOf(o: Owner): Slot { Slot(o.t.start, o.t.end, o.generation, o.t.entries) }

  predicate Disjoint(a: Trampolines, b: Trampolines) { a.end <= b.start || b.end <= a.start }

  ghost predicate Sound(t: Trampolines) { t.start < t.end && GoodEntries(t) }

  /** Mappings that are live at once never overlap. */
  ghost predicate Apart(live: set<Owner>) {
    && (forall o :: o in live ==> o.generation != 0 && Sound(o.t))
    && (forall o, p :: o in live && p in live && o != p ==> Disjoint(o.t, p.t))
  }

  /** The occupied slots are the live owners, each once. */
  ghost predicate Tracks(slots: seq<Slot>, live: set<Owner>) {
    && (forall o :: o in live ==> SlotOf(o) in slots)
    && (forall k :: 0 <= k < |slots| && slots[k].generation != 0 ==> OwnerOf(slots[k], live))
    && (forall j, k :: 0 <= j < k < |slots| && slots[j].generation != 0 && slots[k].generation != 0 ==>
          slots[j].start != slots[k].start)
  }

  ghost predicate HasFree(slots: seq<Slot>) {
    exists k :: 0 <= k < |slots| && slots[k].generation == 0
  }

  ghost predicate OwnerOf(slot: Slot, live: set<Owner>) {
    exists o :: o in live && SlotOf(o) == slot
  }

  /** The bits of the live requests mapped to an address. */
  ghost function LiveMask(live: set<Owner>, address: nat): Mask {
    if exists o :: o in live && GoodEntries(o.t) && address in o.t.requested then
      var o :| o in live && GoodEntries(o.t) && address in o.t.requested;
      RequestedMask(o.t, address)
    else {}
  }

  /** An address belongs to at most one live set, so the lookup has one answer. */
  lemma LiveMaskOf(live: set<Owner>, o: Owner, address: nat)
    requires Apart(live) && o in live && address in o.t.requested
    ensures LiveMask(live, address) == RequestedMask(o.t, address)
  {
    InRange(o.t, address);
    var p :| p in live && GoodEntries(p.t) && address in p.t.requested
             && LiveMask(live, address) == RequestedMask(p.t, address);
    InRange(p.t, address);
  }

  lemma InRange(t: Trampolines, address: nat)
    requires GoodEntries(t) && address in t.requested
    ensures t.start <= address < t.end
  {
    var i :| 0 <= i < |t.requested| && t.requested[i] == address;
    assert HasEntry(t.entries, t.requested[i]);
  }

  /** A live request's entry always has a nonzero mask: its own bit is in it. */
  lemma LiveEntryHasBit(live: set<Owner>, o: Owner, i: nat)
    requires Apart(live) && o in live && i < |o.t.requests| && OneBit(o.t.requests[i].mask)
    ensures o.t.requests[i].mask <= LiveMask(live, o.t.requested[i]) && LiveMask(live, o.t.requested[i]) != {}
  {
    LiveMaskOf(live, o, o.t.requested[i]);
    var bits := o.t.requests[i].mask;
    assert bits <= RequestedMask(o.t, o.t.requested[i]);
    assert |bits| == 1;
  }

  /** The first 2^64 - 1 creations are told apart by their generations. */
  ghost predicate Numbered(live: set<Owner>, made: nat) {
    made < TWO_64 ==>
      && (forall o :: o in live ==> o.generation <= made)
      && (forall o, p :: o in live && p in live && o.generation == p.generation ==> o == p)
  }

  class Registry {
    var slots: seq<Slot>
    var next: nat
    ghost var live: set<Owner>
    /** How many sets were to be published so far. */
    ghost var made: nat

    ghost predicate Valid()
      reads this
    {
      Apart(live) && Tracks(slots, live) && Numbered(live, made) && next == (made + 1) % TWO_64
    }

    constructor ()
      ensures Valid() && live == {} && made == 0
    {
      slots, next, live, made := [], 1, {}, 0;
    }

    /** The tail of CreateTrampolines: a fresh generation, then the first free slot, or a new one. */
    method Publish(t: Trampolines) returns (owner: Option<Owner>)
      requires Valid() && Sound(t) && forall o :: o in live ==> Disjoint(o.t, t)
      modifies this
      ensures Valid() && made == old(made) + 1
      ensures owner.None? <==> made % TWO_64 == 0
      ensures owner.None? ==> live == old(live)
      ensures HasFree(old(slots)) ==> |slots| == |old(slots)|
      ensures owner.Some? ==>
                owner.value == Owner(made % TWO_64, t) && owner.value !in old(live) && live == old(live) + {owner.value}
    {
      hide GoodEntries, RequestedMask, Tracks, Apart, Numbered, Sound, Disjoint;
      Counted(live, made, t);
      var generation := next;
      next := (next + 1) % TWO_64;
      made := made + 1;
      if generation == 0 { return None; }
      var entry := Slot(t.start, t.end, generation, t.entries);
      var o := Owner(generation, t);
      NotYet(live, o);
      var k := 0;
      while k < |slots| && slots[k].generation != 0
        invariant 0 <= k <= |slots|
        invariant forall j :: 0 <= j < k ==> slots[j].generation != 0
      {
        k := k + 1;
      }
      Occupied(slots, live, t, k, entry, o);
      if k < |slots| {
        slots := slots[k := entry];
      } else {
        slots := slots + [entry];
      }
      live := live + {o};
      owner := Some(o);
    }

    /** DestroyRegularTrampolines: clears the slot of exactly this owner. */
    method Unpublish(owner: Owner)
      requires Valid() && owner in live
      modifies this
      ensures Valid() && live == old(live) - {owner} && made == old(made)
    {
      hide GoodEntries, RequestedMask;
      var k := 0;
      while k < |slots|
        invariant 0 <= k <= |slots|
        invariant forall j :: 0 <= j < k ==>
                    !(slots[j].generation == owner.generation && slots[j].start == owner.t.start)
      {
        if slots[k].generation == owner.generation && slots[k].start == owner.t.start {
          Vacated(slots, live, k, owner);
          slots := slots[k := FREE];
          live := live - {owner};
          return;
        }
        k := k + 1;
      }
      TrackedIsMet(slots, live, owner);
    }

    /** TrampolineEntryMask: the bits of the live requests mapped to the address. */
    method EntryMask(address: nat) returns (mask: Mask)
      requires Valid()
      ensures mask == LiveMask(live, address)
    {
      hide GoodEntries, RequestedMask;
      var k := 0;
      while k < |slots|
        invariant 0 <= k <= |slots|
        invariant forall j :: 0 <= j < k ==> !Lists(slots[j], address)
      {
        var slot := slots[k];
        if slot.generation != 0 && slot.start <= address < slot.end {
          var g := 0;
          while g < |slot.entries|
            invariant 0 <= g <= |slot.entries|
            invariant forall h :: 0 <= h < g ==> slot.entries[h].address != address
          {
            if slot.entries[g].address == address {
              Found(slots, live, k, g);
              return slot.entries[g].mask;
            }
            g := g + 1;
          }
        }
        k := k + 1;
      }
      Absent(slots, live, address);
      mask := {};
    }
  }

  /** The counter after a creation, and the owners with and without the new one. */
  lemma Counted(live: set<Owner>, made: nat, t: Trampolines)
    requires Numbered(live, made)
    ensures ((made + 1) % TWO_64 + 1) % TWO_64 == (made + 2) % TWO_64
    ensures (made + 1) % TWO_64 != 0 ==> Numbered(live + {Owner((made + 1) % TWO_64, t)}, made + 1)
    ensures Numbered(live, made + 1)
  {
  }

  lemma NotYet(live: set<Owner>, o: Owner)
    requires Sound(o.t) && forall p :: p in live ==> Disjoint(p.t, o.t)
    ensures o !in live
  {
    assert o in live ==> Disjoint(o.t, o.t);
  }

  /** A slot that answers for the address. */
  ghost predicate Lists(slot: Slot, address: nat) {
    slot.generation != 0 && slot.start <= address < slot.end && HasEntry(slot.entries, address)
  }

  lemma Occupied(slots: seq<Slot>, live: set<Owner>, t: Trampolines, k: nat, entry: Slot, o: Owner)
    requires Apart(live) && Tracks(slots, live) && Sound(t) && (forall p :: p in live ==> Disjoint(p.t, t))
    requires o.generation != 0 && o.t == t && entry == SlotOf(o) && k <= |slots|
    requires k < |slots| ==> slots[k].generation == 0
    ensures Apart(live + {o})
    ensures Tracks(if k < |slots| then slots[k := entry] else slots + [entry], live + {o})
  {
    hide GoodEntries;
    var more := if k < |slots| then slots[k := entry] else slots + [entry];
    forall p | p in live + {o} ensures SlotOf(p) in more {
      if p == o {
        assert more[k] == entry;
      } else {
        var j :| 0 <= j < |slots| && slots[j] == SlotOf(p);
        assert more[j] == slots[j];
      }
    }
    forall j | 0 <= j < |more| && more[j].generation != 0 ensures OwnerOf(more[j], live + {o}) {
      if j == k {
        assert SlotOf(o) == more[j];
      } else {
        assert OwnerOf(slots[j], live);
        var p :| p in live && SlotOf(p) == slots[j];
        assert p in live + {o};
      }
    }
    forall j | 0 <= j < |slots| && slots[j].generation != 0 ensures slots[j].start != t.start {
      assert OwnerOf(slots[j], live);
      var p :| p in live && SlotOf(p) == slots[j];
      assert Disjoint(p.t, t) && Sound(p.t);
    }
  }

  /** Looking through every slot, the owner's own is met. */
  lemma TrackedIsMet(slots: seq<Slot>, live: set<Owner>, owner: Owner)
    requires Tracks(slots, live) && owner in live
    ensures exists j :: 0 <= j < |slots| && slots[j].generation == owner.generation && slots[j].start == owner.t.start
  {
    var j :| 0 <= j < |slots| && slots[j] == SlotOf(owner);
  }

  lemma Vacated(slots: seq<Slot>, live: set<Owner>, k: nat, owner: Owner)
    requires Apart(live) && Tracks(slots, live) && owner in live && k < |slots|
    requires slots[k].generation == owner.generation && slots[k].start == owner.t.start
    ensures Apart(live - {owner}) && Tracks(slots[k := FREE], live - {owner})
  {
    hide GoodEntries;
    var less := slots[k := FREE];
    assert OwnerOf(slots[k], live);
    var q :| q in live && SlotOf(q) == slots[k];
    assert Sound(q.t) && Sound(owner.t) && (q != owner ==> Disjoint(q.t, owner.t));
    forall p | p in live - {owner} ensures SlotOf(p) in less {
      var j :| 0 <= j < |slots| && slots[j] == SlotOf(p);
      assert Disjoint(p.t, owner.t) && Sound(p.t) && Sound(owner.t);
      assert j != k;
      assert less[j] == slots[j];
    }
    forall j | 0 <= j < |less| && less[j].generation != 0 ensures OwnerOf(less[j], live - {owner}) {
      assert OwnerOf(slots[j], live);
      var p :| p in live && SlotOf(p) == slots[j];
      assert p != owner;
    }
  }

  lemma Found(slots: seq<Slot>, live: set<Owner>, k: nat, g: nat)
    requires Apart(live) && Tracks(slots, live) && k < |slots| && slots[k].generation != 0 && g < |slots[k].entries|
    ensures LiveMask(live, slots[k].entries[g].address) == slots[k].entries[g].mask
  {
    assert OwnerOf(slots[k], live);
    var o :| o in live && SlotOf(o) == slots[k];
    assert o.t.entries[g].address in o.t.requested;
    LiveMaskOf(live, o, o.t.entries[g].address);
  }

  lemma ListedBySlot(slots: seq<Slot>, live: set<Owner>, o: Owner, address: nat)
    requires Apart(live) && Tracks(slots, live) && o in live
    ensures address in o.t.requested ==> exists j :: 0 <= j < |slots| && Lists(slots[j], address)
  {
    if address in o.t.requested {
      InRange(o.t, address);
      var i :| 0 <= i < |o.t.requested| && o.t.requested[i] == address;
      assert HasEntry(o.t.entries, o.t.requested[i]);
      var j :| 0 <= j < |slots| && slots[j] == SlotOf(o);
      assert Lists(slots[j], address);
    }
  }

  lemma Absent(slots: seq<Slot>, live: set<Owner>, address: nat)
    requires Apart(live) && Tracks(slots, live) && forall j :: 0 <= j < |slots| ==> !Lists(slots[j], address)
    ensures LiveMask(live, address) == {}
  {
    hide Lists, Apart, Tracks, GoodEntries;
    forall o | o in live ensures address in o.t.requested ==> exists j :: 0 <= j < |slots| && Lists(slots[j], address) {
      ListedBySlot(slots, live, o, address);
    }
  }
}
