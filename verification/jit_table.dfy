/** The table of JIT code ranges when one thread at a time uses it. */
module JitTable {
  const UINTPTR_MAX := 0xFFFF_FFFF_FFFF_FFFF
  const TAIL := 4096

  /** A start of 0 marks a free entry, a start of 1 one that is being published. */
  datatype Entry = Entry(start: nat, end: nat, method_: nat)

  const FREE := Entry(0, 0, 0)

  /** The end of a published range: code, size and tail, saturating at the top of the address space. */
  function EndOf(code: nat, size: nat): (end: nat)
    requires code <= UINTPTR_MAX && size <= UINTPTR_MAX
    ensures end == if code + size + TAIL <= UINTPTR_MAX then code + size + TAIL else UINTPTR_MAX
  {
    var end := if code > UINTPTR_MAX - size then UINTPTR_MAX else code + size;
    if end == UINTPTR_MAX then end else if end > UINTPTR_MAX - TAIL then UINTPTR_MAX else end + TAIL
  }

  predicate Covers(e: Entry, pc: nat) { e.start > 1 && e.start <= pc < e.end }

  /** Registered codes in the order they were first registered, each once. */
  ghost predicate Distinct(list: seq<Entry>) {
    && (forall i :: 0 <= i < |list| ==> list[i].start != 0)
    && (forall i, j :: 0 <= i < j < |list| ==> list[i].start != list[j].start)
  }

  /** A code registered again keeps its place and takes the new end and method. */
  function Upsert(list: seq<Entry>, e: Entry): seq<Entry> {
    if list == [] then [e] else if list[0].start == e.start then [e] + list[1..] else [list[0]] + Upsert(list[1..], e)
  }

  /** The first registered range that holds pc. */
  function First(list: seq<Entry>, pc: nat): (i: nat)
    ensures i <= |list| && (i < |list| ==> Covers(list[i], pc)) && forall j :: 0 <= j < i ==> !Covers(list[j], pc)
  {
    if list == [] || Covers(list[0], pc) then 0 else 1 + First(list[1..], pc)
  }

  lemma {:induction false} UpsertAt(list: seq<Entry>, e: Entry, i: nat)
    requires i <= |list| && (forall j :: 0 <= j < i ==> list[j].start != e.start)
    requires i < |list| ==> list[i].start == e.start
    ensures Upsert(list, e) == if i < |list| then list[i := e] else list + [e]
  {
    if i > 0 {
      var rest := list[1..];
      UpsertAt(rest, e, i - 1);
      if i < |list| {
        assert list[i := e] == [list[0]] + rest[i - 1 := e];
      } else {
        assert list + [e] == [list[0]] + (rest + [e]);
      }
    }
  }

  lemma UpsertDistinct(list: seq<Entry>, e: Entry, i: nat)
    requires i <= |list| && (forall j :: 0 <= j < i ==> list[j].start != e.start)
    requires i < |list| ==> list[i].start == e.start
    requires Distinct(list) && e.start != 0
    ensures Distinct(Upsert(list, e))
  {
    UpsertAt(list, e, i);
  }

  class Table {
    const entries: array<Entry>
    ghost var list: seq<Entry>

    /** A gap-free prefix of the table holds the list; the rest is free. */
    ghost predicate Valid()
      reads this, entries
    {
      && |list| <= entries.Length && entries[..|list|] == list && Distinct(list)
      && forall i :: |list| <= i < entries.Length ==> entries[i] == FREE
    }

    constructor (size: nat)
      ensures Valid() && list == [] && fresh(entries) && entries.Length == size
    {
      entries := new Entry[size](_ => FREE);
      list := [];
    }

    /** DarwinArtRegisterJitMethod: a code that finds neither itself nor room is dropped. */
    method Register(code: nat, size: nat, method_: nat)
      requires Valid() && code <= UINTPTR_MAX && size <= UINTPTR_MAX
      modifies this, entries
      ensures Valid()
      ensures code == 0 || size == 0 ==> list == old(list)
      ensures code != 0 && size != 0 ==>
                var more := Upsert(old(list), Entry(code, EndOf(code, size), method_));
                list == if |more| <= entries.Length then more else old(list)
    {
      if code == 0 || size == 0 { return; }
      var e := Entry(code, EndOf(code, size), method_);
      var i := 0;
      while i < entries.Length
        invariant 0 <= i <= |list| && i <= entries.Length
        invariant forall j :: 0 <= j < i ==> entries[j].start != code
      {
        var current := entries[i].start;
        if current == code || current == 0 {
          assert i < |list| ==> entries[i] == list[i];
          assert forall j :: 0 <= j < i ==> list[j] == entries[j];
          UpsertAt(list, e, i);
          UpsertDistinct(list, e, i);
          entries[i] := e;
          list := Upsert(list, e);
          return;
        }
        assert i < |list|;
        i := i + 1;
      }
      assert forall j :: 0 <= j < i ==> list[j] == entries[j];
      UpsertAt(list, e, i);
    }

    /** DarwinArtLookupJitMethod: the method of the first registered range that holds pc, or 0. */
    method LookupMethod(pc: nat) returns (method_: nat)
      requires Valid()
      ensures method_ == if pc != 0 && First(list, pc) < |list| then list[First(list, pc)].method_ else 0
    {
      var i := Find(pc);
      method_ := if i < entries.Length then entries[i].method_ else 0;
    }

    /** DarwinArtLookupJitCode. */
    method LookupCode(pc: nat) returns (found: bool)
      requires Valid()
      ensures found <==> exists i :: 0 <= i < |list| && Covers(list[i], pc)
    {
      var i := Find(pc);
      found := i < entries.Length;
    }

    method Find(pc: nat) returns (i: nat)
      requires Valid()
      ensures i < entries.Length <==> First(list, pc) < |list|
      ensures i < entries.Length ==> i == First(list, pc) && pc != 0 && entries[i] == list[i]
    {
      i := 0;
      if pc == 0 { return entries.Length; }
      while i < entries.Length
        invariant 0 <= i <= entries.Length && forall j :: 0 <= j < i ==> !Covers(entries[j], pc)
      {
        if entries[i].start > 1 && entries[i].start <= pc < entries[i].end {
          assert i < |list|;
          assert forall j :: 0 <= j < |list| ==> list[j] == entries[j];
          return;
        }
        i := i + 1;
      }
      assert forall j :: 0 <= j < |list| ==> list[j] == entries[j];
    }
  }
}
