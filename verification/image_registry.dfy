/**
 * The process registry of loaded Android images and the owners that publish into it.  Any number of
 * owners share one registry; each owner publishes the images of one graph in its planned order.
 */
module ImageRegistry {
  import opened Bytes
  import opened Options
  import opened ElfHeaders
  import opened PublicationPlan

  datatype Image = Image(id: nat, loadBias: nat, start: nat, end: nat, soname: string, path: string, phdrs: seq<Phdr>)

  datatype Published = Published(id: nat, start: nat, end: nat) {
    predicate HasRange(start: nat, end: nat) { this.start == start && this.end == end }
  }

  /** Ids are handed out in order and never again: the list stays sorted by id below the next one. */
  ghost predicate Sorted(images: seq<Image>, next: nat) {
    && (forall i :: 0 <= i < |images| ==> 1 <= images[i].id < next)
    && (forall i, j :: 0 <= i < j < |images| ==> images[i].id < images[j].id)
  }

  /** The list without the image of an id. */
  function Erased(images: seq<Image>, id: nat): seq<Image> {
    if images == [] then [] else if images[0].id == id then images[1..] else [images[0]] + Erased(images[1..], id)
  }

  ghost predicate HasId(images: seq<Image>, id: nat) {
    exists i :: 0 <= i < |images| && images[i].id == id
  }

  ghost predicate FirstHolding(images: seq<Image>, address: nat, i: nat) {
    && i < |images| && images[i].start <= address < images[i].end
    && forall j :: 0 <= j < i ==> !(images[j].start <= address < images[j].end)
  }

  ghost function Receipt(image: Image): Published { Published(image.id, image.start, image.end) }

  ghost function Own(image: Image, holder: map<nat, Owner>, o: Owner): seq<Published> {
    if image.id in holder && holder[image.id] == o then [Receipt(image)] else []
  }

  /** The part of the registry that one owner published, in registry order. */
  ghost function Held(images: seq<Image>, holder: map<nat, Owner>, o: Owner): seq<Published> {
    if images == [] then [] else Own(images[0], holder, o) + Held(images[1..], holder, o)
  }

  /** Every PT_LOAD segment, moved by the load bias, lies inside the published range. */
  ghost predicate SegmentsInside(image: Image) {
    forall i :: 0 <= i < |image.phdrs| && Loads(image.phdrs[i]) ==>
      && image.start <= image.loadBias + image.phdrs[i].vaddr
      && image.loadBias + image.phdrs[i].vaddr + image.phdrs[i].memsz <= image.end
  }

  class Registry {
    var images: seq<Image>
    var nextId: nat
    var loads: nat
    var unloads: nat
    ghost var owners: set<Owner>
    ghost var holder: map<nat, Owner>

    /** The counters and the list agree. */
    ghost predicate Counted()
      reads this
    {
      && Sorted(images, nextId) && nextId == loads + 1 && |images| == loads - unloads && loads < UINT64_MAX
      && forall i :: 0 <= i < |images| ==> images[i].end <= UINT64_MAX && SegmentsInside(images[i])
    }

    /** Every image is held by one owner, and every owner's list is exactly what it holds. */
    ghost predicate Valid()
      reads this, owners
    {
      && Counted()
      && (forall i :: 0 <= i < |images| ==> images[i].id in holder && holder[images[i].id] in owners)
      && (forall o :: o in owners ==> o.registry == this && o.Ready() && o.published == Held(images, holder, o))
    }

    /** The same while one owner is changing its list and really holds only some of it. */
    ghost predicate ValidFor(who: Owner, list: seq<Published>)
      reads this, owners
    {
      && Counted() && who in owners
      && (forall i :: 0 <= i < |images| ==> images[i].id in holder && holder[images[i].id] in owners)
      && (forall o :: o in owners ==> o.registry == this && o.Ready())
      && (forall o :: o in owners ==> Held(images, holder, o) == if o == who then list else o.published)
    }

    constructor ()
      ensures Valid() && images == [] && owners == {} && loads == 0
    {
      images, nextId, loads, unloads := [], 1, 0, 0;
      owners, holder := {}, map[];
    }

    method Publish(loadBias: nat, start: nat, end: nat, soname: string, path: string, phdrs: seq<Phdr>)
      returns (id: nat)
      requires Counted() && end <= UINT64_MAX && SegmentsInside(Image(0, loadBias, start, end, soname, path, phdrs))
      modifies this`images, this`nextId, this`loads
      ensures Counted()
      ensures id == 0 <==> old(loads) == UINT64_MAX - 1
      ensures id == 0 ==> images == old(images) && loads == old(loads) && nextId == old(nextId)
      ensures id != 0 ==> id == old(nextId) && loads == old(loads) + 1
      ensures id != 0 ==> images == old(images) + [Image(id, loadBias, start, end, soname, path, phdrs)]
    {
      if nextId == 0 || nextId == UINT64_MAX || loads == UINT64_MAX { return 0; }
      id := nextId;
      var image := Image(id, loadBias, start, end, soname, path, phdrs);
      assert SegmentsInside(image) by { assert SegmentsInside(image.(id := 0)); }
      images := images + [image];
      nextId := nextId + 1;
      loads := loads + 1;
    }

    /** A live image is always removed: the saturation guard on the unload count cannot fire. */
    method Unpublish(id: nat) returns (found: bool)
      requires Counted()
      modifies this`images, this`unloads
      ensures Counted() && images == Erased(old(images), id)
      ensures found <==> HasId(old(images), id)
    {
      hide SegmentsInside, Sorted, Erased;
      var i := 0;
      while i < |images| && images[i].id != id
        invariant 0 <= i <= |images|
        invariant forall j :: 0 <= j < i ==> images[j].id != id
      {
        i := i + 1;
      }
      ErasedAt(images, id, i);
      if i == |images| || unloads == UINT64_MAX { return false; }
      CutSorted(images, nextId, i);
      images := images[..i] + images[i + 1..];
      unloads := unloads + 1;
      found := true;
    }

    /** The dladdr lookup: the first image whose range holds the address. */
    method Lookup(address: nat) returns (found: Option<Image>)
      ensures found.Some? ==>
                address != 0 && exists i: nat :: FirstHolding(images, address, i) && images[i] == found.value
      ensures found.None? ==>
                address == 0 || forall i :: 0 <= i < |images| ==> !(images[i].start <= address < images[i].end)
    {
      if address == 0 { return None; }
      var i := 0;
      while i < |images|
        invariant 0 <= i <= |images|
        invariant forall j :: 0 <= j < i ==> !(images[j].start <= address < images[j].end)
      {
        if images[i].start <= address < images[i].end {
          assert FirstHolding(images, address, i);
          return Some(images[i]);
        }
        i := i + 1;
      }
      found := None;
    }
  }

  lemma {:induction false} ErasedAt(images: seq<Image>, id: nat, i: nat)
    requires i <= |images| && (i < |images| ==> images[i].id == id)
    requires forall j :: 0 <= j < i ==> images[j].id != id
    ensures Erased(images, id) == if i < |images| then images[..i] + images[i + 1..] else images
  {
    if 0 < i {
      ErasedAt(images[1..], id, i - 1);
    }
  }

  /** Withdrawing the newest image undoes its publication. */
  lemma RollbackRestores(images: seq<Image>, image: Image)
    requires Sorted(images, image.id)
    ensures Erased(images + [image], image.id) == images
  {
    var more := images + [image];
    assert forall j :: 0 <= j < |images| ==> more[j] == images[j];
    ErasedAt(more, image.id, |images|);
  }

  lemma CutSorted(images: seq<Image>, next: nat, i: nat)
    requires Sorted(images, next) && i < |images|
    ensures var less := images[..i] + images[i + 1..];
            && Sorted(less, next) && |less| == |images| - 1
            && forall k :: 0 <= k < |less| ==> less[k] == images[if k < i then k else k + 1]
  {
  }

  lemma {:induction false} HeldAppend(images: seq<Image>, image: Image, holder: map<nat, Owner>, o: Owner)
    ensures Held(images + [image], holder, o) == Held(images, holder, o) + Own(image, holder, o)
  {
    hide Own;
    if images == [] {
      assert images + [image] == [image];
    } else {
      assert (images + [image])[1..] == images[1..] + [image];
      HeldAppend(images[1..], image, holder, o);
    }
  }

  /** Who holds other ids does not matter. */
  lemma {:induction false} HeldFrame(images: seq<Image>, h0: map<nat, Owner>, h1: map<nat, Owner>, o: Owner)
    requires forall i :: 0 <= i < |images| ==>
      (images[i].id in h0 && h0[images[i].id] == o <==> images[i].id in h1 && h1[images[i].id] == o)
    ensures Held(images, h0, o) == Held(images, h1, o)
  {
    if images != [] { HeldFrame(images[1..], h0, h1, o); }
  }

  /** Publishing extends the publisher's list and nobody else's. */
  lemma HeldPublish(images: seq<Image>, image: Image, next: nat, holder: map<nat, Owner>, who: Owner, o: Owner)
    requires Sorted(images, next) && image.id == next
    ensures Held(images + [image], holder[image.id := who], o)
         == Held(images, holder, o) + (if o == who then [Receipt(image)] else [])
  {
    HeldAppend(images, image, holder[image.id := who], o);
    HeldFrame(images, holder, holder[image.id := who], o);
  }

  /** Removing an image takes its one receipt out of its holder's list and leaves the others alone. */
  lemma {:induction false} HeldErase(images: seq<Image>, next: nat, holder: map<nat, Owner>, o: Owner, id: nat)
    requires Sorted(images, next)
    ensures Held(Erased(images, id), holder, o) == Dropped(Held(images, holder, o), id)
  {
    hide Own, Dropped, Sorted;
    if images == [] {
      DroppedAbsent([], id);
    } else {
      var rest := images[1..];
      SortedRest(images, next);
      HeldErase(rest, next, holder, o, id);
      OwnOne(images[0], holder, o);
      if images[0].id == id {
        NotHeld(rest, holder, o, id);
        DroppedFirst(Own(images[0], holder, o), Held(rest, holder, o), id);
      } else {
        DroppedLater(Own(images[0], holder, o), Held(rest, holder, o), id);
      }
    }
  }

  ghost function Dropped(ps: seq<Published>, id: nat): seq<Published> {
    if ps == [] then [] else if ps[0].id == id then ps[1..] else [ps[0]] + Dropped(ps[1..], id)
  }

  lemma {:induction false} DroppedAbsent(ps: seq<Published>, id: nat)
    requires forall i :: 0 <= i < |ps| ==> ps[i].id != id
    ensures Dropped(ps, id) == ps
  {
    if ps != [] { DroppedAbsent(ps[1..], id); }
  }

  lemma SortedRest(images: seq<Image>, next: nat)
    requires Sorted(images, next) && images != []
    ensures Sorted(images[1..], next) && !HasId(images[1..], images[0].id)
  {
  }

  lemma OwnOne(image: Image, holder: map<nat, Owner>, o: Owner)
    ensures |Own(image, holder, o)| <= 1
    ensures forall i :: 0 <= i < |Own(image, holder, o)| ==> Own(image, holder, o)[i].id == image.id
  {
  }

  lemma DroppedFirst(first: seq<Published>, ps: seq<Published>, id: nat)
    requires |first| <= 1 && forall i :: 0 <= i < |first| ==> first[i].id == id
    requires forall i :: 0 <= i < |ps| ==> ps[i].id != id
    ensures Dropped(first + ps, id) == ps
  {
    if |first| == 1 {
      assert (first + ps)[1..] == ps;
    } else {
      assert first + ps == ps;
      DroppedAbsent(ps, id);
    }
  }

  lemma DroppedLater(first: seq<Published>, ps: seq<Published>, id: nat)
    requires |first| <= 1 && forall i :: 0 <= i < |first| ==> first[i].id != id
    ensures Dropped(first + ps, id) == first + Dropped(ps, id)
  {
    if |first| == 1 {
      assert (first + ps)[1..] == ps;
      assert first == [first[0]];
    } else {
      assert first + ps == ps;
    }
  }

  lemma {:induction false} DroppedAt(ps: seq<Published>, i: nat)
    requires i < |ps| && forall j :: 0 <= j < i ==> ps[j].id != ps[i].id
    ensures Dropped(ps, ps[i].id) == ps[..i] + ps[i + 1..]
  {
    if i > 0 { DroppedAt(ps[1..], i - 1); }
  }

  lemma {:induction false} NotHeld(images: seq<Image>, holder: map<nat, Owner>, o: Owner, id: nat)
    requires !HasId(images, id)
    ensures forall i :: 0 <= i < |Held(images, holder, o)| ==> Held(images, holder, o)[i].id != id
  {
    if images != [] {
      assert images[0].id != id;
      forall i | 0 <= i < |images[1..]| ensures images[1..][i].id != id { assert images[i + 1].id != id; }
      NotHeld(images[1..], holder, o, id);
    }
  }

  /** A receipt names a live image with the same range, held by that owner. */
  lemma {:induction false} HeldIsLive(images: seq<Image>, holder: map<nat, Owner>, o: Owner, k: nat) returns (i: nat)
    requires k < |Held(images, holder, o)|
    ensures i < |images| && Receipt(images[i]) == Held(images, holder, o)[k]
    ensures images[i].id in holder && holder[images[i].id] == o
  {
    var own := images[0].id in holder && holder[images[0].id] == o;
    if own && k == 0 {
      i := 0;
    } else {
      var j := HeldIsLive(images[1..], holder, o, if own then k - 1 else k);
      i := j + 1;
    }
  }

  /** Receipts come in increasing id order, so no two name the same image. */
  lemma {:induction false} HeldSorted(images: seq<Image>, next: nat, holder: map<nat, Owner>, o: Owner, j: nat, k: nat)
    requires Sorted(images, next) && j < k < |Held(images, holder, o)|
    ensures Held(images, holder, o)[j].id < Held(images, holder, o)[k].id
  {
    var own := images[0].id in holder && holder[images[0].id] == o;
    if own && j == 0 {
      var i := HeldIsLive(images[1..], holder, o, k - 1);
      assert images[i + 1].id == Held(images, holder, o)[k].id;
    } else {
      HeldSorted(images[1..], next, holder, o, if own then j - 1 else j, if own then k - 1 else k);
    }
  }

  /** What an owner says it has published, and how far it is in its order. */
  datatype Progress = Progress(next: nat, published: seq<Published>) {
    /** How many images were finalized, as far as the numbers tell. */
    function Finalized(): int { next - |published| }
  }

  /**
   * before[i] is the owner's progress just before it published receipt i.  Since then receipts after i may
   * have been finalized, which the order index does not take back, and so may receipts before i.
   */
  ghost predicate Tracks(now: Progress, before: seq<Progress>) {
    && |before| == |now.published|
    && forall i :: 0 <= i < |before| ==> Precedes(before[i], now, i)
  }

  ghost predicate Precedes(was: Progress, now: Progress, i: nat)
    requires i < |now.published|
  {
    && was.next + |now.published| - i <= now.next && i <= |was.published|
    && (|was.published| == i ==> was.published == now.published[..i])
  }

  lemma TracksPublish(now: Progress, before: seq<Progress>, receipt: Published)
    requires Tracks(now, before)
    ensures Tracks(Progress(now.next + 1, now.published + [receipt]), before + [now])
  {
    var later := Progress(now.next + 1, now.published + [receipt]);
    assert later.published[..|before|] == now.published;
    forall i | 0 <= i < |before| ensures Precedes(before[i], later, i) {
      assert Precedes(before[i], now, i) && later.published[..i] == now.published[..i];
    }
  }

  lemma TracksRollback(now: Progress, before: seq<Progress>)
    requires Tracks(now, before) && before != [] && now.next > 0
    ensures Tracks(Progress(now.next - 1, now.published[..|before| - 1]), before[..|before| - 1])
  {
    var later := Progress(now.next - 1, now.published[..|before| - 1]);
    forall i | 0 <= i < |before| - 1 ensures Precedes(before[i], later, i) {
      assert Precedes(before[i], now, i) && later.published[..i] == now.published[..i];
    }
  }

  lemma TracksFinalize(now: Progress, before: seq<Progress>, k: nat)
    requires Tracks(now, before) && k < |before|
    ensures Tracks(Progress(now.next, now.published[..k] + now.published[k + 1..]), before[..k] + before[k + 1..])
  {
    var later := Progress(now.next, now.published[..k] + now.published[k + 1..]);
    var left := before[..k] + before[k + 1..];
    forall i | 0 <= i < |left| ensures Precedes(left[i], later, i) {
      var j := if i < k then i else i + 1;
      assert left[i] == before[j] && Precedes(before[j], now, j);
      assert i < k ==> later.published[..i] == now.published[..i];
    }
  }

  /** Taking the last receipt back gives the progress before it exactly when nothing was finalized since. */
  lemma RestoresIff(now: Progress, before: seq<Progress>)
    requires Tracks(now, before) && before != [] && now.next > 0
    ensures var k := |before| - 1;
            Progress(now.next - 1, now.published[..k]) == before[k] <==> now.Finalized() == before[k].Finalized()
  {
    assert Precedes(before[|before| - 1], now, |before| - 1);
  }

  class Owner {
    const registry: Registry
    const order: seq<PreparedImage>
    const libraryDirectory: string
    const admittedPaths: map<string, string>
    const pageSize: nat
    var next: nat
    var published: seq<Published>
    ghost var before: seq<Progress>

    ghost function Now(): Progress
      reads this
    {
      Progress(next, published)
    }

    /** The list reserved for |order| receipts never outgrows its reservation. */
    ghost predicate Ready()
      reads this
    {
      && |published| <= next <= |order| && Tracks(Now(), before)
      && AllSpan()
    }

    ghost predicate AllSpan() {
      forall i :: 0 <= i < |order| ==> Spans(order[i], pageSize) && |order[i].phdrs| <= 0xFFFF
    }

    constructor (registry: Registry, order: seq<PreparedImage>, libraryDirectory: string,
                 admittedPaths: map<string, string>, pageSize: nat)
      requires forall i :: 0 <= i < |order| ==> Spans(order[i], pageSize) && |order[i].phdrs| <= 0xFFFF
      ensures Ready() && this.registry == registry && this.order == order && this.pageSize == pageSize
      ensures this.libraryDirectory == libraryDirectory && this.admittedPaths == admittedPaths
      ensures next == 0 && published == [] && before == []
    {
      this.registry, this.order, this.libraryDirectory := registry, order, libraryDirectory;
      this.admittedPaths, this.pageSize := admittedPaths, pageSize;
      next, published, before := 0, [], [];
    }

    ghost predicate Live()
      reads this, registry, registry.owners
    {
      registry.Valid() && this in registry.owners
    }

    /** When publication of a range is possible; registry exhaustion is the only other refusal. */
    ghost predicate Fits(start: nat, end: nat)
      reads this
    {
      && start < end <= UINT64_MAX && next < |order|
      && order[next].minimumPage <= start && end - start == order[next].mappingSize
      && (admittedPaths == map[] || order[next].soname in admittedPaths)
    }

    ghost function Placed(id: nat, prepared: PreparedImage, start: nat, end: nat): Image
      requires prepared.minimumPage <= start && (admittedPaths == map[] || prepared.soname in admittedPaths)
    {
      var path :=
        if admittedPaths == map[] then libraryDirectory + "/" + prepared.soname else admittedPaths[prepared.soname];
      Image(id, start - prepared.minimumPage, start, end, prepared.soname, path, prepared.phdrs)
    }

    method Publish(start: nat, end: nat) returns (ok: bool)
      requires Live() && end <= UINT64_MAX
      modifies this, registry
      ensures Live()
      ensures ok <==> old(Fits(start, end)) && old(registry.loads) != UINT64_MAX - 1
      ensures !ok ==> Now() == old(Now()) && before == old(before) && registry.images == old(registry.images)
      ensures ok ==> before == old(before) + [old(Now())]
      ensures ok ==>
                next == old(next) + 1 && published == old(published) + [Published(old(registry.nextId), start, end)]
      ensures ok ==>
                registry.images == old(registry.images) + [Placed(old(registry.nextId), order[old(next)], start, end)]
      ensures registry.owners == old(registry.owners) && registry.loads == old(registry.loads) + (if ok then 1 else 0)
    {
      hide Held, Sorted, SegmentsInside, Spans, Tracks, Ready, AllSpan;
      ReadyFacts(this);
      if start >= end || next >= |order| { return false; }
      var prepared := order[next];
      if prepared.minimumPage > start || end - start != prepared.mappingSize || |prepared.phdrs| > 0xFFFF {
        return false;
      }
      var path;
      if admittedPaths == map[] {
        path := libraryDirectory + "/" + prepared.soname;
      } else {
        if prepared.soname !in admittedPaths { return false; }
        path := admittedPaths[prepared.soname];
      }
      var loadBias := start - prepared.minimumPage;
      MovedInside(prepared, pageSize, start, end, path);
      ghost var images, holder, id0 := registry.images, registry.holder, registry.nextId;
      var id := registry.Publish(loadBias, start, end, prepared.soname, path, prepared.phdrs);
      if id == 0 { return false; }
      ghost var image := Image(id, loadBias, start, end, prepared.soname, path, prepared.phdrs);
      forall o: Owner
        ensures Held(images + [image], holder[id := this], o)
             == Held(images, holder, o) + (if o == this then [Receipt(image)] else [])
      {
        HeldPublish(images, image, id0, holder, this, o);
      }
      TracksPublish(Now(), before, Published(id, start, end));
      before := before + [Now()];
      published := published + [Published(id, start, end)];
      registry.holder := registry.holder[id := this];
      next := next + 1;
      ReadyFacts(this);
      ok := true;
    }

    /**
     * Withdraws the last receipt and steps back once in the order.  That is the progress before the receipt
     * was published exactly when nothing was finalized since; otherwise the order is left at another image.
     */
    method RollbackPublish(start: nat, end: nat) returns (ok: bool)
      requires Live()
      modifies this, registry
      ensures Live() && registry.owners == old(registry.owners)
      ensures ok <==> old(published) != [] && old(published)[|old(published)| - 1].start == start
                      && old(published)[|old(published)| - 1].end == end
      ensures !ok ==> Now() == old(Now()) && before == old(before) && registry.images == old(registry.images)
      ensures ok ==> |old(before)| == |old(published)| && before == old(before)[..|old(before)| - 1]
      ensures ok ==> var was := old(before)[|old(before)| - 1];
                     Now() == was <==> old(Now()).Finalized() == was.Finalized()
      ensures ok ==> next == old(next) - 1 && published == old(published)[..|old(published)| - 1]
      ensures ok ==> registry.images == Erased(old(registry.images), old(published)[|old(published)| - 1].id)
    {
      hide SegmentsInside, Spans, Registry.Counted, Held, Erased, Precedes;
      if published == [] || next == 0 { return false; }
      var k := |published| - 1;
      if published[k].start != start || published[k].end != end { return false; }
      ok := Retire(published, k);
      assert published[..k] + published[k + 1..] == published[..k];
      TracksRollback(Now(), before);
      RestoresIff(Now(), before);
      published, before := published[..k], before[..k];
      next := next - 1;
    }

    /**
     * ImageLifecycle::Publish: a publication that the range bookkeeping or the lifecycle then refuses is taken
     * back at once, so a failure leaves owner and registry as they were and the rollback never aborts.
     */
    method PublishOrUndo(start: nat, end: nat, borrowed: bool, entered: bool) returns (ok: bool)
      requires Live() && end <= UINT64_MAX
      modifies this, registry
      ensures Live() && registry.owners == old(registry.owners)
      ensures ok <==> borrowed && entered && old(Fits(start, end)) && old(registry.loads) != UINT64_MAX - 1
      ensures ok ==>
                next == old(next) + 1 && published == old(published) + [Published(old(registry.nextId), start, end)]
      ensures !ok ==> Now() == old(Now()) && registry.images == old(registry.images)
    {
      hide Held, SegmentsInside, Spans, Tracks, Sorted, Erased;
      if start >= end { return false; }
      ghost var images, id := registry.images, registry.nextId;
      SortedOf(registry);
      ok := Publish(start, end);
      if !ok { return; }
      if !borrowed || !entered {
        RollbackRestores(images, registry.images[|images|]);
        var undone := RollbackPublish(start, end);
        assert undone;
        ok := false;
      }
    }

    /** Removes the first image with exactly this range, wherever it stands in the list. */
    method Finalize(start: nat, end: nat) returns (ok: bool)
      requires Live()
      modifies this, registry
      ensures Live() && registry.owners == old(registry.owners) && next == old(next)
      ensures ok <==> exists k :: 0 <= k < |old(published)|
                                  && old(published)[k].start == start && old(published)[k].end == end
      ensures !ok ==> published == old(published) && before == old(before) && registry.images == old(registry.images)
      ensures ok ==> exists k :: 0 <= k < |old(published)| && old(published)[k].HasRange(start, end)
                       && (forall j :: 0 <= j < k ==> !old(published)[j].HasRange(start, end))
                       && published == old(published)[..k] + old(published)[k + 1..]
                       && |old(before)| == |old(published)| && before == old(before)[..k] + old(before)[k + 1..]
                       && registry.images == Erased(old(registry.images), old(published)[k].id)
    {
      hide SegmentsInside, Spans, Registry.Counted, Held, Erased, Precedes;
      var k := 0;
      while k < |published| && !published[k].HasRange(start, end)
        invariant 0 <= k <= |published|
        invariant forall j :: 0 <= j < k ==> !published[j].HasRange(start, end)
      {
        k := k + 1;
      }
      if k == |published| { return false; }
      ok := Retire(published, k);
      TracksFinalize(Now(), before, k);
      published, before := published[..k] + published[k + 1..], before[..k] + before[k + 1..];
    }

    /** Takes one image this owner holds out of the registry; it is always found there. */
    method Retire(list: seq<Published>, k: nat) returns (ok: bool)
      requires registry.ValidFor(this, list) && k < |list|
      modifies registry
      ensures ok && registry.ValidFor(this, list[..k] + list[k + 1..])
      ensures registry.owners == old(registry.owners) && registry.images == Erased(old(registry.images), list[k].id)
    {
      hide SegmentsInside, Spans, Registry.Counted, Ready, Held, Erased, HasId, Receipt;
      ghost var images, holder, next := registry.images, registry.holder, registry.nextId;
      SortedOf(registry);
      Survivors(images, next, list[k].id);
      forall o | o in registry.owners
        ensures Held(Erased(images, list[k].id), holder, o)
             == if o == this then list[..k] + list[k + 1..] else o.published
      {
        HeldAfterRetire(images, next, holder, this, k, o);
      }
      HeldHasId(images, holder, this, k);
      ok := registry.Unpublish(list[k].id);
    }

    /** Withdraws everything this owner published, latest first; the abort on a missing image is unreachable. */
    method UnpublishAll()
      requires Live()
      modifies this, registry
      ensures Live() && published == [] && next == old(next) && registry.owners == old(registry.owners)
    {
      hide SegmentsInside, Spans, Registry.Counted, Held;
      var k := |published|;
      assert published[..k] == published;
      while k > 0
        invariant 0 <= k <= |published| && registry.ValidFor(this, published[..k])
        invariant next == old(next) && published == old(published) && before == old(before)
        invariant registry.owners == old(registry.owners)
      {
        k := k - 1;
        var ok := Retire(published[..k + 1], k);
        assert ok;
        assert published[..k + 1][..k] + published[..k + 1][k + 1..] == published[..k];
      }
      published, before := [], [];
    }

    /** After an owner is gone no live image is held by it. */
    method Destroy()
      requires Live()
      modifies this, registry
      ensures registry.Valid() && registry.owners == old(registry.owners) - {this}
    {
      UnpublishAll();
      HeldNothing(registry.images, registry.holder, this);
      registry.owners := registry.owners - {this};
    }

    method ContainsAddress(address: nat) returns (inside: bool)
      ensures inside <==>
                address != 0 && exists i :: 0 <= i < |published| && published[i].start <= address < published[i].end
    {
      if address == 0 { return false; }
      var i := 0;
      while i < |published|
        invariant 0 <= i <= |published|
        invariant forall j :: 0 <= j < i ==> !(published[j].start <= address < published[j].end)
      {
        if published[i].start <= address < published[i].end { return true; }
        i := i + 1;
      }
      inside := false;
    }
  }

  lemma ReadyFacts(o: Owner)
    ensures o.Ready() <==> |o.published| <= o.next <= |o.order| && Tracks(o.Now(), o.before) && o.AllSpan()
    ensures o.AllSpan() && o.next < |o.order| ==>
              Spans(o.order[o.next], o.pageSize) && |o.order[o.next].phdrs| <= 0xFFFF
  {
  }

  /** A loadable page at address 0. */
  const ONE_PAGE: seq<Phdr> := [Phdr(1, 0, 0, 0, 0, 0, 1, 0)]

  lemma OnePageSpans(soname: string)
    ensures Spans(PreparedImage(soname, ONE_PAGE, 0, 4096), 4096)
  {
    assert Loads(ONE_PAGE[0]);
  }

  method TwoImages() returns (owner: Owner)
    ensures fresh(owner) && fresh(owner.registry) && owner.Live() && owner.next == 0 && owner.published == []
    ensures owner.admittedPaths == map[] && owner.registry.loads == 0
    ensures owner.order == [PreparedImage("a", ONE_PAGE, 0, 4096), PreparedImage("b", ONE_PAGE, 0, 4096)]
  {
    hide Spans, SegmentsInside, Sorted;
    OnePageSpans("a");
    OnePageSpans("b");
    var registry := new Registry();
    var order := [PreparedImage("a", ONE_PAGE, 0, 4096), PreparedImage("b", ONE_PAGE, 0, 4096)];
    owner := new Owner(registry, order, "/lib", map[], 4096);
    registry.owners := {owner};
  }

  /**
   * Two images published, the second finalized, the first rolled back: nothing is published any more, but
   * the order stands at the second image, and the first is never published again.
   */
  method RollbackSkips() returns (owner: Owner)
    ensures |owner.order| == 2 && owner.published == [] && owner.next == 1
  {
    hide Owner.Live, Erased;
    owner := TwoImages();
    var ok := owner.Publish(0x10000, 0x11000);
    assert ok;
    ok := owner.Publish(0x20000, 0x21000);
    assert ok;
    ok := owner.Finalize(0x20000, 0x21000);
    ok := owner.RollbackPublish(0x10000, 0x11000);
  }

  /** Whatever an owner claims to contain, the process-wide lookup finds in a live image. */
  lemma ContainedIsFound(r: Registry, o: Owner, k: nat, address: nat)
    requires r.Valid() && o in r.owners && k < |o.published| && o.published[k].start <= address < o.published[k].end
    ensures exists i :: 0 <= i < |r.images| && r.images[i].id == o.published[k].id
              && r.images[i].start <= address < r.images[i].end
  {
    var i := HeldIsLive(r.images, r.holder, o, k);
    assert Receipt(r.images[i]) == o.published[k];
  }

  /** Two receipts name the same image only when they are the same receipt of the same owner. */
  lemma ReceiptsDisjoint(r: Registry, o: Owner, j: nat, p: Owner, k: nat)
    requires r.Valid() && o in r.owners && p in r.owners && j < |o.published| && k < |p.published|
    requires o.published[j].id == p.published[k].id
    ensures o == p && j == k
  {
    var a := HeldIsLive(r.images, r.holder, o, j);
    var b := HeldIsLive(r.images, r.holder, p, k);
    assert r.holder[r.images[a].id] == o && r.holder[r.images[b].id] == p;
    if j < k { HeldSorted(r.images, r.nextId, r.holder, o, j, k); }
    if k < j { HeldSorted(r.images, r.nextId, r.holder, o, k, j); }
  }

  lemma {:induction false} HeldNothing(images: seq<Image>, holder: map<nat, Owner>, o: Owner)
    requires Held(images, holder, o) == []
    ensures forall i :: 0 <= i < |images| && images[i].id in holder ==> holder[images[i].id] != o
  {
    if images != [] {
      HeldNothing(images[1..], holder, o);
      forall i | 0 <= i < |images| && images[i].id in holder ensures holder[images[i].id] != o {
        if i > 0 { assert images[i] == images[1..][i - 1]; }
      }
    }
  }

  lemma SortedOf(r: Registry)
    requires r.Counted()
    ensures Sorted(r.images, r.nextId)
  {
  }

  lemma MovedInside(prepared: PreparedImage, pageSize: nat, start: nat, end: nat, path: string)
    requires Spans(prepared, pageSize) && prepared.minimumPage <= start && end == start + prepared.mappingSize
    ensures SegmentsInside(Image(0, start - prepared.minimumPage, start, end, prepared.soname, path, prepared.phdrs))
  {
    forall i | 0 <= i < |prepared.phdrs| && Loads(prepared.phdrs[i])
      ensures ElfHeaders.Holds(prepared, prepared.phdrs[i])
    {
    }
  }

  lemma Survivors(images: seq<Image>, next: nat, id: nat)
    requires Sorted(images, next)
    ensures forall i :: 0 <= i < |Erased(images, id)| ==> Erased(images, id)[i] in images
  {
    if exists i :: 0 <= i < |images| && images[i].id == id {
      var i :| 0 <= i < |images| && images[i].id == id;
      ErasedAt(images, id, i);
    } else {
      ErasedAt(images, id, |images|);
    }
  }

  lemma HeldHasId(images: seq<Image>, holder: map<nat, Owner>, o: Owner, k: nat)
    requires k < |Held(images, holder, o)|
    ensures HasId(images, Held(images, holder, o)[k].id)
  {
    var i := HeldIsLive(images, holder, o, k);
  }

  /** Retiring an image removes one receipt from its holder and changes no other list. */
  lemma HeldAfterRetire(images: seq<Image>, next: nat, holder: map<nat, Owner>, who: Owner, k: nat, o: Owner)
    requires Sorted(images, next) && k < |Held(images, holder, who)|
    ensures var list := Held(images, holder, who);
            Held(Erased(images, list[k].id), holder, o)
            == if o == who then list[..k] + list[k + 1..] else Held(images, holder, o)
  {
    hide Sorted, Erased, Held, Dropped;
    var list := Held(images, holder, who);
    HeldErase(images, next, holder, o, list[k].id);
    var i := HeldIsLive(images, holder, who, k);
    if o == who {
      Unshared(images, next, holder, who, k);
    } else {
      NotTheirs(images, next, holder, who, o, i);
    }
  }

  /** Within one owner the receipt is the only one of its id. */
  lemma Unshared(images: seq<Image>, next: nat, holder: map<nat, Owner>, o: Owner, k: nat)
    requires Sorted(images, next) && k < |Held(images, holder, o)|
    ensures var ps := Held(images, holder, o); Dropped(ps, ps[k].id) == ps[..k] + ps[k + 1..]
  {
    var ps := Held(images, holder, o);
    forall j | 0 <= j < k ensures ps[j].id != ps[k].id { HeldSorted(images, next, holder, o, j, k); }
    DroppedAt(ps, k);
  }

  /** No other owner has a receipt for the image. */
  lemma NotTheirs(images: seq<Image>, next: nat, holder: map<nat, Owner>, who: Owner, o: Owner, i: nat)
    requires Sorted(images, next) && i < |images| && images[i].id in holder && holder[images[i].id] == who && o != who
    ensures Dropped(Held(images, holder, o), images[i].id) == Held(images, holder, o)
  {
    var ps := Held(images, holder, o);
    forall k | 0 <= k < |ps| ensures ps[k].id != images[i].id {
      var j := HeldIsLive(images, holder, o, k);
      assert holder[images[j].id] == o;
    }
    DroppedAbsent(ps, images[i].id);
  }

  /** One input of Create; needed is what dependency inspection reported, or None when it failed. */
  datatype Source = Source(soname: string, bytes: seq<Byte>, needed: Option<seq<string>>)

  ghost predicate Readable(sources: seq<Source>, pageSize: int) {
    && (forall i :: 0 <= i < |sources| ==> Parses(sources[i].bytes, pageSize) && sources[i].needed.Some?)
    && (forall i, j :: 0 <= i < j < |sources| ==> sources[i].soname != sources[j].soname)
  }

  ghost function Names(sources: seq<Source>): (names: seq<string>)
    ensures |names| == |sources|
  {
    seq(|sources|, i requires 0 <= i < |sources| => sources[i].soname)
  }

  ghost function NeededOf(sources: seq<Source>): (needed: seq<seq<string>>)
    requires forall i :: 0 <= i < |sources| ==> sources[i].needed.Some?
    ensures |needed| == |sources|
  {
    seq(|sources|, i requires 0 <= i < |sources| => sources[i].needed.value)
  }

  ghost function ProvidersOf(providers: seq<Option<string>>): set<string> {
    set i | 0 <= i < |providers| && providers[i].Some? :: providers[i].value
  }

  ghost function GraphOf(sources: seq<Source>, pageSize: int, providers: seq<Option<string>>): (g: Graph)
    requires Readable(sources, pageSize)
    ensures g.Valid()
  {
    Graph(Names(sources), NeededOf(sources), ProvidersOf(providers))
  }

  /** Exactly when a graph of images can be set up for publication. */
  ghost predicate Creatable(root: string, directory: string, sources: seq<Source>, providers: seq<Option<string>>,
                            pageSize: int) {
    && |directory| > 0 && directory[0] == '/' && sources != [] && Readable(sources, pageSize)
    && (forall i :: 0 <= i < |providers| ==> providers[i].Some?)
    && exists r :: RootAt(sources, root, r) && Complete(GraphOf(sources, pageSize, providers), r)
  }

  ghost predicate RootAt(sources: seq<Source>, root: string, r: nat) {
    r < |sources| && sources[r].soname == root
  }

  ghost predicate PreparedFrom(image: PreparedImage, source: Source, pageSize: int) {
    && pageSize > 0 && Parses(source.bytes, pageSize) && Spans(image, pageSize)
    && image.soname == source.soname && image.phdrs == Table(source.bytes)
  }

  /** The images of the sources, in an order that puts dependencies first wherever cycles allow it. */
  ghost predicate Ordered(images: seq<PreparedImage>, sources: seq<Source>, pageSize: int, g: Graph) {
    && g.Valid() && |images| == |sources| == |g.sonames|
    && exists order :: IsPlan(g, order) && Follows(images, sources, pageSize, order)
  }

  ghost predicate Follows(images: seq<PreparedImage>, sources: seq<Source>, pageSize: int, order: seq<nat>) {
    && |images| == |order| && (forall i :: 0 <= i < |order| ==> order[i] < |sources|)
    && forall i :: 0 <= i < |order| ==> PreparedFrom(images[i], sources[order[i]], pageSize)
  }

  /** The first loop of Create: parse and inspect every source, and index it by a name not seen before. */
  method Prepare(sources: seq<Source>, pageSize: int)
    returns (ok: bool, prepared: seq<PreparedImage>, indices: map<string, nat>)
    ensures ok <==> Readable(sources, pageSize)
    ensures ok ==> |prepared| == |sources| && forall i :: 0 <= i < |sources| ==>
              PreparedFrom(prepared[i], sources[i], pageSize)
    ensures ok ==> forall providers :: Indexed(GraphOf(sources, pageSize, providers), indices)
  {
    hide Parses, Spans, Table;
    prepared, indices := [], map[];
    var index := 0;
    while index < |sources|
      invariant 0 <= index <= |sources| && |prepared| == index && Readable(sources[..index], pageSize)
      invariant forall i :: 0 <= i < index ==> PreparedFrom(prepared[i], sources[i], pageSize)
      invariant forall i :: 0 <= i < index ==> sources[i].soname in indices && indices[sources[i].soname] == i
      invariant forall name :: name in indices ==> indices[name] < index && sources[indices[name]].soname == name
    {
      var source := sources[index];
      var image := ParseProgramHeaders(source.soname, source.bytes, pageSize);
      if image.None? || source.needed.None? || source.soname in indices {
        assert source == sources[index];
        return false, prepared, indices;
      }
      PagePositive(source.bytes, pageSize);
      prepared := prepared + [image.value];
      indices := indices[source.soname := index];
      index := index + 1;
    }
    assert sources[..|sources|] == sources;
    ok := true;
  }

  lemma PagePositive(bytes: seq<Byte>, pageSize: int)
    requires Parses(bytes, pageSize)
    ensures pageSize > 0
  {
  }

  method CollectProviders(providers: seq<Option<string>>) returns (ok: bool, names: set<string>)
    ensures ok <==> forall i :: 0 <= i < |providers| ==> providers[i].Some?
    ensures ok ==> names == ProvidersOf(providers)
  {
    names := {};
    var i := 0;
    while i < |providers|
      invariant 0 <= i <= |providers| && (forall j :: 0 <= j < i ==> providers[j].Some?)
      invariant names == ProvidersOf(providers[..i])
    {
      if providers[i].None? { return false, names; }
      assert providers[..i + 1] == providers[..i] + [providers[i]];
      ProvidersMore(providers[..i], providers[i]);
      names := names + {providers[i].value};
      i := i + 1;
    }
    assert providers[..|providers|] == providers;
    ok := true;
  }

  lemma ProvidersMore(providers: seq<Option<string>>, one: Option<string>)
    requires one.Some?
    ensures ProvidersOf(providers + [one]) == ProvidersOf(providers) + {one.value}
  {
    var more := providers + [one];
    assert more[|providers|] == one && forall i :: 0 <= i < |providers| ==> more[i] == providers[i];
    forall name | name in ProvidersOf(providers) ensures name in ProvidersOf(more) {
      var i :| 0 <= i < |providers| && providers[i].Some? && providers[i].value == name;
      assert more[i].Some? && more[i].value == name;
    }
  }

  /** Everything Create works out before it makes an owner. */
  method OrderImages(root: string, directory: string, sources: seq<Source>, providers: seq<Option<string>>,
                     pageSize: int)
    returns (images: Option<seq<PreparedImage>>)
    ensures images.Some? <==> Creatable(root, directory, sources, providers, pageSize)
    ensures images.Some? ==> Ordered(images.value, sources, pageSize, GraphOf(sources, pageSize, providers))
  {
    hide Complete, IsPlan, Parses, Spans, Table;
    if |directory| == 0 || directory[0] != '/' || sources == [] { return None; }
    var ok, prepared, indices := Prepare(sources, pageSize);
    if !ok { return None; }
    if root !in indices {
      assert forall i :: 0 <= i < |sources| ==> Names(sources)[i] == sources[i].soname;
      return None;
    }
    var named, names := CollectProviders(providers);
    if !named { return None; }
    var needed := seq(|sources|, i requires 0 <= i < |sources| => sources[i].needed.value);
    var sonames := seq(|sources|, i requires 0 <= i < |sources| => sources[i].soname);
    var g := Graph(sonames, needed, names);
    assert g == GraphOf(sources, pageSize, providers);
    assert RootAt(sources, root, indices[root]);
    var planned, order := PlanPublication(g, indices, indices[root]);
    if !planned { return None; }
    PlanInRange(g, order);
    var ordered := seq(|order|, i requires 0 <= i < |order| => prepared[order[i]]);
    assert Follows(ordered, sources, pageSize, order);
    images := Some(ordered);
  }

  /** Create, with the admitted paths CreateWithPaths installs before anything is published. */
  method Create(registry: Registry, root: string, directory: string, admittedPaths: map<string, string>,
                sources: seq<Source>, providers: seq<Option<string>>, pageSize: int)
    returns (owner: Owner?)
    requires registry.Valid()
    modifies registry
    ensures registry.Valid() && registry.images == old(registry.images)
    ensures owner != null <==> Creatable(root, directory, sources, providers, pageSize)
    ensures owner != null ==> fresh(owner) && registry.owners == old(registry.owners) + {owner} && owner.next == 0
    ensures owner != null ==> Ordered(owner.order, sources, pageSize, GraphOf(sources, pageSize, providers))
  {
    hide Creatable, Spans, Held, Ordered, SegmentsInside, Sorted;
    var images := OrderImages(root, directory, sources, providers, pageSize);
    if images.None? { return null; }
    CreatableSome(root, directory, sources, providers, pageSize);
    AllSmall(images.value, sources, pageSize, GraphOf(sources, pageSize, providers));
    owner := new Owner(registry, images.value, directory, admittedPaths, pageSize);
    HeldByNobody(registry.images, registry.holder, registry.owners, owner);
    registry.owners := registry.owners + {owner};
  }

  lemma PlanInRange(g: Graph, order: seq<nat>)
    requires g.Valid() && IsPlan(g, order)
    ensures |order| == |g.sonames| && forall i :: 0 <= i < |order| ==> order[i] < |g.sonames|
  {
    assert forall i :: 0 <= i < |order| ==> order[i] in order;
  }

  lemma CreatableSome(root: string, directory: string, sources: seq<Source>, providers: seq<Option<string>>,
                      pageSize: int)
    requires Creatable(root, directory, sources, providers, pageSize)
    ensures sources != [] && Readable(sources, pageSize)
  {
  }

  lemma AllSmall(images: seq<PreparedImage>, sources: seq<Source>, pageSize: int, g: Graph)
    requires Ordered(images, sources, pageSize, g) && sources != []
    ensures pageSize > 0 && forall i :: 0 <= i < |images| ==> |images[i].phdrs| <= 0xFFFF && Spans(images[i], pageSize)
  {
    var order :| IsPlan(g, order) && Follows(images, sources, pageSize, order);
    assert PreparedFrom(images[0], sources[order[0]], pageSize);
  }

  lemma {:induction false} HeldByNobody(images: seq<Image>, holder: map<nat, Owner>, owners: set<Owner>, o: Owner)
    requires o !in owners && forall i :: 0 <= i < |images| ==> images[i].id in holder && holder[images[i].id] in owners
    ensures Held(images, holder, o) == []
  {
    if images != [] { HeldByNobody(images[1..], holder, owners, o); }
  }
}
