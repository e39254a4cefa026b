/** Program headers of an ELF64 image, and the page span its loadable segments will occupy. */
module ElfHeaders {
  import opened Alignment
  import opened Bytes
  import opened Options

  const HEADER_SIZE := 64
  const PHDR_SIZE := 56
  const PT_LOAD := 1
  const UINT64_MAX := 0xFFFF_FFFF_FFFF_FFFF
  const MAGIC: seq<Byte> := [0x7F, 0x45, 0x4C, 0x46, 2, 1, 1]

  datatype Phdr = Phdr(kind: nat, flags: nat, offset: nat, vaddr: nat, paddr: nat, filesz: nat, memsz: nat, align: nat)

  datatype PreparedImage = PreparedImage(soname: string, phdrs: seq<Phdr>, minimumPage: nat, mappingSize: nat)

  /** An n-byte little-endian field. */
  function Field(bytes: seq<Byte>, at: nat, n: nat): (value: nat)
    requires at + n <= |bytes|
    ensures value < Pow256(n)
  {
    LeInverse(bytes[at..at + n]);
    FromLe(bytes[at..at + n])
  }

  function U16(bytes: seq<Byte>, at: nat): (value: nat)
    requires at + 2 <= |bytes|
    ensures value <= 0xFFFF
  {
    Field(bytes, at, 2)
  }

  function U32(bytes: seq<Byte>, at: nat): nat
    requires at + 4 <= |bytes|
  {
    Field(bytes, at, 4)
  }

  function U64(bytes: seq<Byte>, at: nat): (value: nat)
    requires at + 8 <= |bytes|
    ensures value <= UINT64_MAX
  {
    assert Pow256(8) == 256 * (256 * (256 * (256 * Pow256(4))));
    Field(bytes, at, 8)
  }

  function PhdrAt(bytes: seq<Byte>, at: nat): (h: Phdr)
    requires at + PHDR_SIZE <= |bytes|
    ensures h.vaddr <= UINT64_MAX && h.memsz <= UINT64_MAX
  {
    Phdr(U32(bytes, at), U32(bytes, at + 4), U64(bytes, at + 8), U64(bytes, at + 16),
         U64(bytes, at + 24), U64(bytes, at + 32), U64(bytes, at + 40), U64(bytes, at + 48))
  }

  /** The identity bytes and a program-header table that lies wholly inside the file. */
  predicate HasTable(bytes: seq<Byte>) {
    && |bytes| >= HEADER_SIZE && bytes[..7] == MAGIC && U16(bytes, 54) == PHDR_SIZE
    && U16(bytes, 56) != 0 && U64(bytes, 32) + U16(bytes, 56) * PHDR_SIZE <= |bytes|
  }

  ghost function Table(bytes: seq<Byte>): (phdrs: seq<Phdr>)
    requires HasTable(bytes)
    ensures |phdrs| == U16(bytes, 56)
  {
    seq(U16(bytes, 56), i requires 0 <= i < U16(bytes, 56) => PhdrAt(bytes, U64(bytes, 32) + i * PHDR_SIZE))
  }

  predicate Loads(h: Phdr) { h.kind == PT_LOAD }

  /** No loadable segment runs past the address space, even after rounding up to a page. */
  ghost predicate SpansFit(phdrs: seq<Phdr>, pageSize: nat) {
    forall i :: 0 <= i < |phdrs| && Loads(phdrs[i]) ==> phdrs[i].vaddr + phdrs[i].memsz + (pageSize - 1) <= UINT64_MAX
  }

  ghost predicate HasLoad(phdrs: seq<Phdr>) {
    exists i :: 0 <= i < |phdrs| && Loads(phdrs[i]) && phdrs[i].vaddr != UINT64_MAX
  }

  ghost predicate Parses(bytes: seq<Byte>, pageSize: int) {
    && HasTable(bytes) && PowerOfTwo(pageSize) && HasLoad(Table(bytes)) && SpansFit(Table(bytes), pageSize)
  }

  /** The page span holds every loadable segment, and is the smallest page-aligned one that does. */
  ghost predicate Spans(image: PreparedImage, pageSize: nat) {
    && pageSize > 0 && image.minimumPage % pageSize == 0 && image.mappingSize % pageSize == 0
    && image.minimumPage + image.mappingSize <= UINT64_MAX
    && (forall i :: 0 <= i < |image.phdrs| && Loads(image.phdrs[i]) ==> Holds(image, image.phdrs[i]))
    && (exists i :: 0 <= i < |image.phdrs| && Loads(image.phdrs[i])
          && image.phdrs[i].vaddr < image.minimumPage + pageSize)
    && (exists i :: 0 <= i < |image.phdrs| && Loads(image.phdrs[i])
          && image.minimumPage + image.mappingSize < image.phdrs[i].vaddr + image.phdrs[i].memsz + pageSize)
  }

  ghost predicate Holds(image: PreparedImage, h: Phdr) {
    image.minimumPage <= h.vaddr && h.vaddr + h.memsz <= image.minimumPage + image.mappingSize
  }

  ghost predicate LowerBound(phdrs: seq<Phdr>, low: nat) {
    && low <= UINT64_MAX
    && (forall i :: 0 <= i < |phdrs| && Loads(phdrs[i]) ==> low <= phdrs[i].vaddr)
    && (forall i :: 0 <= i < |phdrs| && Loads(phdrs[i]) ==> phdrs[i].vaddr <= UINT64_MAX)
    && (low != UINT64_MAX ==> exists i :: 0 <= i < |phdrs| && Loads(phdrs[i]) && phdrs[i].vaddr == low)
  }

  ghost predicate UpperBound(phdrs: seq<Phdr>, high: nat) {
    && (forall i :: 0 <= i < |phdrs| && Loads(phdrs[i]) ==> phdrs[i].vaddr + phdrs[i].memsz <= high)
    && (high == 0 || exists i :: 0 <= i < |phdrs| && Loads(phdrs[i]) && phdrs[i].vaddr + phdrs[i].memsz == high)
  }

  lemma BoundsMore(phdrs: seq<Phdr>, h: Phdr, low: nat, high: nat)
    requires LowerBound(phdrs, low) && UpperBound(phdrs, high) && h.vaddr <= UINT64_MAX
    ensures LowerBound(phdrs + [h], if Loads(h) && h.vaddr < low then h.vaddr else low)
    ensures UpperBound(phdrs + [h], if Loads(h) && high < h.vaddr + h.memsz then h.vaddr + h.memsz else high)
  {
    var more := phdrs + [h];
    assert more[|phdrs|] == h && forall i :: 0 <= i < |phdrs| ==> more[i] == phdrs[i];
  }

  /** Rounding the extreme addresses outward to pages gives the span. */
  lemma SpansOf(image: PreparedImage, low: nat, high: nat, pageSize: nat)
    requires pageSize > 0 && LowerBound(image.phdrs, low) && UpperBound(image.phdrs, high) && low != UINT64_MAX
    requires high + (pageSize - 1) <= UINT64_MAX
    requires image.minimumPage == RoundDown(low, pageSize)
    requires image.mappingSize == RoundUp(high, pageSize) - RoundDown(low, pageSize)
    ensures Spans(image, pageSize)
  {
    RoundDownAligned(low, pageSize);
    RoundUpAligned(high, pageSize);
    DifferenceAligned(RoundUp(high, pageSize), RoundDown(low, pageSize), pageSize);
    var i :| 0 <= i < |image.phdrs| && Loads(image.phdrs[i]) && image.phdrs[i].vaddr == low;
    assert high != 0 || image.phdrs[i].vaddr + image.phdrs[i].memsz <= high;
    var j := i;
    if high != 0 {
      j :| 0 <= j < |image.phdrs| && Loads(image.phdrs[j]) && image.phdrs[j].vaddr + image.phdrs[j].memsz == high;
    }
    assert Loads(image.phdrs[i]) && Loads(image.phdrs[j]);
  }

  /** The loop over the table: its entries, and the extreme addresses of its loadable segments. */
  method ScanTable(bytes: seq<Byte>) returns (fits: bool, phdrs: seq<Phdr>, low: nat, high: nat)
    requires HasTable(bytes)
    ensures fits ==> phdrs == Table(bytes) && LowerBound(phdrs, low) && UpperBound(phdrs, high)
    ensures !fits ==> forall pageSize: nat :: pageSize > 0 ==> !SpansFit(Table(bytes), pageSize)
  {
    hide PhdrAt, U64, U16, LowerBound, UpperBound;
    var offset, count := U64(bytes, 32), U16(bytes, 56);
    phdrs, low, high := [], UINT64_MAX, 0;
    var index := 0;
    BoundsNone();
    while index < count
      invariant 0 <= index <= count == |Table(bytes)| && phdrs == Table(bytes)[..index]
      invariant LowerBound(phdrs, low) && UpperBound(phdrs, high)
    {
      var h := PhdrAt(bytes, offset + index * PHDR_SIZE);
      assert h == Table(bytes)[index];
      BoundsMore(phdrs, h, low, high);
      phdrs := phdrs + [h];
      if Loads(h) {
        low := if h.vaddr < low then h.vaddr else low;
        if h.memsz > UINT64_MAX - h.vaddr {
          TooFar(Table(bytes), index);
          return false, phdrs, low, high;
        }
        high := if high < h.vaddr + h.memsz then h.vaddr + h.memsz else high;
      }
      index := index + 1;
    }
    fits := true;
  }

  /** ParseProgramHeaders.  Every field access is inside the file by the reads' own preconditions. */
  method ParseProgramHeaders(soname: string, bytes: seq<Byte>, pageSize: int) returns (prepared: Option<PreparedImage>)
    ensures prepared.Some? <==> Parses(bytes, pageSize)
    ensures prepared.Some? ==> prepared.value.soname == soname && prepared.value.phdrs == Table(bytes)
    ensures prepared.Some? ==> Spans(prepared.value, pageSize)
  {
    hide Table, PhdrAt, U64, U16, LowerBound, UpperBound, Spans, SpansFit, HasLoad, RoundUp, RoundDown;
    if |bytes| < HEADER_SIZE { return None; }
    if bytes[..7] != MAGIC || U16(bytes, 54) != PHDR_SIZE { return None; }
    var offset, count := U64(bytes, 32), U16(bytes, 56);
    if count == 0 { return None; }
    if offset > |bytes| || count > (|bytes| - offset) / PHDR_SIZE { return None; }
    var fits, phdrs, low, high := ScanTable(bytes);
    if !fits { return None; }
    LoadIffLow(phdrs, low);
    if low == UINT64_MAX || pageSize <= 0 || !PowerOfTwo(pageSize) { return None; }
    FitIffHigh(phdrs, high, pageSize);
    if high > UINT64_MAX - (pageSize - 1) { return None; }
    OrderedBounds(phdrs, low, high);
    var page := RoundDown(low, pageSize);
    var image := PreparedImage(soname, phdrs, page, RoundUp(high, pageSize) - page);
    SpansOf(image, low, high, pageSize);
    prepared := Some(image);
  }

  lemma OrderedBounds(phdrs: seq<Phdr>, low: nat, high: nat)
    requires LowerBound(phdrs, low) && UpperBound(phdrs, high) && low != UINT64_MAX
    ensures low <= high
  {
    var i :| 0 <= i < |phdrs| && Loads(phdrs[i]) && phdrs[i].vaddr == low;
    assert Loads(phdrs[i]);
  }

  lemma BoundsNone()
    ensures LowerBound([], UINT64_MAX) && UpperBound([], 0)
  {
  }

  lemma TooFar(phdrs: seq<Phdr>, i: nat)
    requires i < |phdrs| && Loads(phdrs[i]) && phdrs[i].vaddr + phdrs[i].memsz > UINT64_MAX
    ensures forall pageSize: nat :: pageSize > 0 ==> !SpansFit(phdrs, pageSize)
  {
  }

  lemma LoadIffLow(phdrs: seq<Phdr>, low: nat)
    requires LowerBound(phdrs, low)
    ensures HasLoad(phdrs) <==> low != UINT64_MAX
  {
  }

  lemma FitIffHigh(phdrs: seq<Phdr>, high: nat, pageSize: nat)
    requires UpperBound(phdrs, high) && pageSize > 0 && HasLoad(phdrs)
    ensures SpansFit(phdrs, pageSize) <==> high + (pageSize - 1) <= UINT64_MAX
  {
  }

  lemma DifferenceAligned(x: nat, y: nat, a: nat)
    requires a > 0 && x % a == 0 && y % a == 0 && y <= x
    ensures (x - y) % a == 0
  {
    assert x == a * (x / a) && y == a * (y / a);
    var k := x / a - y / a;
    assert k * a == x - y;
    assert k >= 0;
    MultipleAligned(k, a);
  }

  // Where ELF64 puts the fields

  predicate PhdrFits(h: Phdr) {
    && h.kind < Pow256(4) && h.flags < Pow256(4) && h.offset < Pow256(8) && h.vaddr < Pow256(8)
    && h.paddr < Pow256(8) && h.filesz < Pow256(8) && h.memsz < Pow256(8) && h.align < Pow256(8)
  }

  /** An Elf64_Phdr as the standard lays it out. */
  function PrintPhdr(h: Phdr): (bs: seq<Byte>)
    ensures |bs| == PHDR_SIZE
  {
    LeBytes(h.kind, 4) + LeBytes(h.flags, 4) + LeBytes(h.offset, 8) + LeBytes(h.vaddr, 8)
    + LeBytes(h.paddr, 8) + LeBytes(h.filesz, 8) + LeBytes(h.memsz, 8) + LeBytes(h.align, 8)
  }

  function PrintPhdrs(hs: seq<Phdr>): (bs: seq<Byte>)
    ensures |bs| == |hs| * PHDR_SIZE
  {
    if hs == [] then [] else PrintPhdrs(hs[..|hs| - 1]) + PrintPhdr(hs[|hs| - 1])
  }

  /** The fields of an Elf64_Ehdr around the three that matter here; the names are those of the standard. */
  datatype Ehdr = Ehdr(identRest: seq<Byte>, typeMachineVersion: seq<Byte>, entry: seq<Byte>, phoff: nat,
                       shoffFlagsEhsize: seq<Byte>, phentsize: nat, phnum: nat, sections: seq<Byte>)

  predicate EhdrOk(e: Ehdr) {
    && |e.identRest| == 9 && |e.typeMachineVersion| == 8 && |e.entry| == 8 && |e.shoffFlagsEhsize| == 14
    && |e.sections| == 6 && e.phoff < Pow256(8) && e.phentsize < Pow256(2) && e.phnum < Pow256(2)
  }

  function PrintEhdr(e: Ehdr): (bs: seq<Byte>)
    ensures EhdrOk(e) ==> |bs| == HEADER_SIZE
  {
    MAGIC + e.identRest + e.typeMachineVersion + e.entry + LeBytes(e.phoff, 8)
    + e.shoffFlagsEhsize + LeBytes(e.phentsize, 2) + LeBytes(e.phnum, 2) + e.sections
  }

  lemma FieldReads(bytes: seq<Byte>, at: nat, n: nat, v: nat)
    requires at + n <= |bytes| && v < Pow256(n) && bytes[at..at + n] == LeBytes(v, n)
    ensures Field(bytes, at, n) == v
  {
    LeRoundTrip(v, n);
  }

  lemma FieldWithin(bytes: seq<Byte>, at: nat, p: seq<Byte>, i: nat, n: nat, v: nat)
    requires at + |p| <= |bytes| && bytes[at..at + |p|] == p
    requires i + n <= |p| && v < Pow256(n) && p[i..i + n] == LeBytes(v, n)
    ensures Field(bytes, at + i, n) == v
  {
    hide Pow256, LeBytes;
    var whole := bytes[at..at + |p|];
    var a, b := bytes[at + i..at + i + n], whole[i..i + n];
    assert forall k :: 0 <= k < n ==> a[k] == b[k];
    assert a == b;
    FieldReads(bytes, at + i, n, v);
  }

  /** A printed program header is read back wherever it stands. */
  lemma PhdrReads(bytes: seq<Byte>, at: nat, h: Phdr)
    requires at + PHDR_SIZE <= |bytes| && PhdrFits(h) && bytes[at..at + PHDR_SIZE] == PrintPhdr(h)
    ensures PhdrAt(bytes, at) == h
  {
    hide Field, Pow256, LeBytes, PrintPhdr;
    var p := PrintPhdr(h);
    PhdrParts(h);
    FieldWithin(bytes, at, p, 0, 4, h.kind);
    FieldWithin(bytes, at, p, 4, 4, h.flags);
    FieldWithin(bytes, at, p, 8, 8, h.offset);
    FieldWithin(bytes, at, p, 16, 8, h.vaddr);
    FieldWithin(bytes, at, p, 24, 8, h.paddr);
    FieldWithin(bytes, at, p, 32, 8, h.filesz);
    FieldWithin(bytes, at, p, 40, 8, h.memsz);
    FieldWithin(bytes, at, p, 48, 8, h.align);
  }

  lemma PhdrParts(h: Phdr)
    ensures var p := PrintPhdr(h);
            && p[0..4] == LeBytes(h.kind, 4) && p[4..8] == LeBytes(h.flags, 4) && p[8..16] == LeBytes(h.offset, 8)
            && p[16..24] == LeBytes(h.vaddr, 8) && p[24..32] == LeBytes(h.paddr, 8) && p[32..40] == LeBytes(h.filesz, 8)
            && p[40..48] == LeBytes(h.memsz, 8) && p[48..56] == LeBytes(h.align, 8)
  {
    hide LeBytes;
    var p := PrintPhdr(h);
    assert p[48..56] == p[48..];
  }

  lemma {:induction false} PhdrStands(hs: seq<Phdr>, i: nat)
    requires i < |hs|
    ensures (i + 1) * PHDR_SIZE <= |PrintPhdrs(hs)|
    ensures PrintPhdrs(hs)[i * PHDR_SIZE..(i + 1) * PHDR_SIZE] == PrintPhdr(hs[i])
  {
    hide PrintPhdr;
    if i < |hs| - 1 { PhdrStands(hs[..|hs| - 1], i); }
  }

  /** The three header fields, and the table, of a file printed as the standard says. */
  lemma EhdrReads(e: Ehdr, rest: seq<Byte>)
    requires EhdrOk(e)
    ensures var bytes := PrintEhdr(e) + rest;
            && bytes[..7] == MAGIC && U64(bytes, 32) == e.phoff && U16(bytes, 54) == e.phentsize
            && U16(bytes, 56) == e.phnum
  {
    hide Field, Pow256, LeBytes;
    var bytes := PrintEhdr(e) + rest;
    FieldReads(bytes, 32, 8, e.phoff);
    FieldReads(bytes, 54, 2, e.phentsize);
    FieldReads(bytes, 56, 2, e.phnum);
  }

  /** Any file of a header, a gap, a table of at most 65535 program headers and more bytes is read as that table. */
  lemma PrintedTable(e: Ehdr, gap: seq<Byte>, hs: seq<Phdr>, rest: seq<Byte>)
    requires EhdrOk(e) && e.phoff == HEADER_SIZE + |gap| && e.phentsize == PHDR_SIZE && e.phnum == |hs| > 0
    requires forall i :: 0 <= i < |hs| ==> PhdrFits(hs[i])
    ensures var bytes := PrintEhdr(e) + (gap + PrintPhdrs(hs) + rest); HasTable(bytes) && Table(bytes) == hs
  {
    hide PrintEhdr, PhdrAt, U64, U16, PrintPhdrs, PrintPhdr, PhdrFits;
    var after := gap + PrintPhdrs(hs) + rest;
    var bytes := PrintEhdr(e) + after;
    EhdrReads(e, after);
    forall i: nat | i < |hs| ensures Table(bytes)[i] == hs[i] {
      EntryReads(PrintEhdr(e), gap, hs, rest, i);
    }
  }

  lemma EntryReads(header: seq<Byte>, gap: seq<Byte>, hs: seq<Phdr>, rest: seq<Byte>, i: nat)
    requires |header| == HEADER_SIZE && i < |hs| && PhdrFits(hs[i])
    ensures var bytes, at := header + (gap + PrintPhdrs(hs) + rest), HEADER_SIZE + |gap| + i * PHDR_SIZE;
            at + PHDR_SIZE <= |bytes| && PhdrAt(bytes, at) == hs[i]
  {
    hide PhdrAt, PrintPhdrs, PrintPhdr, PhdrFits;
    PhdrStands(hs, i);
    SliceOf(header, gap, PrintPhdrs(hs), rest, i * PHDR_SIZE, (i + 1) * PHDR_SIZE);
    PhdrReads(header + (gap + PrintPhdrs(hs) + rest), HEADER_SIZE + |gap| + i * PHDR_SIZE, hs[i]);
  }

  lemma SliceOf(a: seq<Byte>, b: seq<Byte>, c: seq<Byte>, d: seq<Byte>, lo: nat, hi: nat)
    requires lo <= hi <= |c|
    ensures (a + (b + c + d))[|a| + |b| + lo..|a| + |b| + hi] == c[lo..hi]
  {
  }
}
