/** Rewriting an H.264 access unit from start codes (Annex B) to length prefixes. */
module AnnexB {
  import opened Bytes

  /** A start code that the scan recognises: it wants one byte more than the short code itself. */
  predicate Code(s: seq<Byte>, i: nat) {
    i + 3 < |s| && s[i] == 0 && s[i + 1] == 0 && (s[i + 2] == 1 || (s[i + 2] == 0 && s[i + 3] == 1))
  }

  /** The first start code at or after i, or the end. */
  function NextCode(s: seq<Byte>, i: nat): (k: nat)
    requires i <= |s|
    ensures i <= k <= |s| && (k < |s| ==> Code(s, k)) && forall j :: i <= j < k ==> !Code(s, j)
    decreases |s| - i
  {
    if i == |s| || Code(s, i) then i else NextCode(s, i + 1)
  }

  /** Where the unit behind a start code begins. */
  function UnitStart(s: seq<Byte>, cursor: nat): (start: nat)
    requires Code(s, cursor)
    ensures cursor + 3 <= start <= |s|
  {
    if s[cursor + 2] == 0 then cursor + 4 else cursor + 3
  }

  /** Units with their lengths, most significant byte first; a length keeps its low 32 bits. */
  function Framed(unit: seq<Byte>): seq<Byte> {
    if unit == [] then [] else BeBytes(|unit|, 4) + unit
  }

  /** The length-prefixed form of everything from a start code on. */
  function FramedFrom(s: seq<Byte>, cursor: nat): seq<Byte>
    requires Code(s, cursor)
    decreases |s| - cursor
  {
    var start := UnitStart(s, cursor);
    var next := NextCode(s, start);
    Framed(s[start..next]) + (if next == |s| then [] else FramedFrom(s, next))
  }

  function Normalized(s: seq<Byte>): seq<Byte> {
    var first := NextCode(s, 0);
    if first == |s| || FramedFrom(s, first) == [] then s else FramedFrom(s, first)
  }

  method FindCode(s: seq<Byte>, from: nat) returns (k: nat)
    requires from <= |s|
    ensures k == NextCode(s, from)
  {
    k := from;
    while k + 3 < |s|
      invariant from <= k <= |s| && NextCode(s, from) == NextCode(s, k)
    {
      if s[k] == 0 && s[k + 1] == 0 && (s[k + 2] == 1 || (s[k + 2] == 0 && s[k + 3] == 1)) { return; }
      k := k + 1;
    }
    assert forall j :: k <= j < |s| ==> !Code(s, j);
    k := |s|;
  }

  /** The four bytes of a length. */
  lemma LengthBytes(n: nat)
    ensures BeBytes(n, 4) == [n / 0x100_0000 % 256, n / 0x1_0000 % 256, n / 0x100 % 256, n % 256]
  {
    var a := n / 256;
    var b := a / 256;
    var c := b / 256;
    assert BeBytes(c, 1) == [c % 256] by { assert BeBytes(c / 256, 0) == []; }
    assert BeBytes(b, 2) == BeBytes(c, 1) + [b % 256];
    assert BeBytes(a, 3) == BeBytes(b, 2) + [a % 256];
    assert BeBytes(n, 4) == BeBytes(a, 3) + [n % 256];
    assert b == n / 0x1_0000 && c == n / 0x100_0000;
  }

  /** A unit that is not empty goes out behind its length. */
  method AppendUnit(output: seq<Byte>, unit: seq<Byte>) returns (more: seq<Byte>)
    ensures more == output + Framed(unit)
  {
    more := output;
    if |unit| > 0 {
      var n := |unit|;
      LengthBytes(n);
      more := more + [n / 0x100_0000 % 256, n / 0x1_0000 % 256, n / 0x100 % 256, n % 256];
      more := more + unit;
    }
  }

  lemma CodeFits(s: seq<Byte>, cursor: nat)
    requires Code(s, cursor)
    ensures cursor + 3 < |s| && UnitStart(s, cursor) == if s[cursor + 2] == 0 then cursor + 4 else cursor + 3
  {
  }

  /** One unit of the reference form. */
  lemma FramedStep(s: seq<Byte>, cursor: nat, start: nat, next: nat)
    requires Code(s, cursor) && start == UnitStart(s, cursor) && next == NextCode(s, start)
    ensures FramedFrom(s, cursor) == Framed(s[start..next]) + (if next == |s| then [] else FramedFrom(s, next))
  {
  }

  /** NormalizeH264AccessUnit. */
  method NormalizeH264AccessUnit(input: seq<Byte>) returns (output: seq<Byte>)
    ensures output == Normalized(input)
  {
    hide Framed, FramedFrom, NextCode, Code, UnitStart;
    var first := FindCode(input, 0);
    if first == |input| { return input; }
    output := [];
    var cursor := first;
    assert [] + FramedFrom(input, first) == FramedFrom(input, first);
    while cursor < |input|
      invariant cursor <= |input| && (cursor < |input| ==> Code(input, cursor))
      invariant FramedFrom(input, first) == output + if cursor < |input| then FramedFrom(input, cursor) else []
      decreases |input| - cursor
    {
      CodeFits(input, cursor);
      var start := cursor + 3;
      if cursor + 3 < |input| && input[cursor + 2] == 0 { start := cursor + 4; }
      var next := FindCode(input, start);
      FramedStep(input, cursor, start, next);
      ghost var before, framed := output, Framed(input[start..next]);
      ghost var rest := if next < |input| then FramedFrom(input, next) else [];
      output := AppendUnit(output, input[start..next]);
      assert before + (framed + rest) == (before + framed) + rest;
      cursor := next;
    }
    assert output + [] == output;
    if output == [] { output := input; }
  }

  // What the rewrite means for a conforming byte stream

  /** A unit that section B.1 of ITU-T H.264 allows between start codes. */
  predicate Conforms(unit: seq<Byte>) {
    && unit != [] && unit[|unit| - 1] != 0
    && forall i :: 0 <= i && i + 2 < |unit| && unit[i] == 0 && unit[i + 1] == 0 ==> unit[i + 2] > 1
  }

  /** A unit and whether its start code is the long one. */
  datatype Coded = Coded(long: bool, unit: seq<Byte>)

  function StartCode(long: bool): seq<Byte> { if long then [0, 0, 0, 1] else [0, 0, 1] }

  function Join(cs: seq<Coded>): seq<Byte> {
    if cs == [] then [] else StartCode(cs[0].long) + cs[0].unit + Join(cs[1..])
  }

  function LengthPrefixed(cs: seq<Coded>): seq<Byte> {
    if cs == [] then [] else BeBytes(|cs[0].unit|, 4) + cs[0].unit + LengthPrefixed(cs[1..])
  }

  predicate AllConform(cs: seq<Coded>) { forall i :: 0 <= i < |cs| ==> Conforms(cs[i].unit) }

  /** The joined stream starts with a start code the scan sees, behind which its unit begins. */
  lemma JoinStarts(s: seq<Byte>, at: nat, cs: seq<Coded>)
    requires AllConform(cs) && cs != [] && at <= |s| && s[at..] == Join(cs)
    ensures Code(s, at) && UnitStart(s, at) == at + |StartCode(cs[0].long)|
  {
    var c, t := StartCode(cs[0].long), s[at..];
    assert Conforms(cs[0].unit);
    assert t[..|c|] == c;
    assert forall i :: 0 <= i < |c| ==> s[at + i] == t[i] == c[i];
  }

  /** Nothing inside a conforming unit, nor across its end, looks like a start code. */
  lemma NoCodeInside(s: seq<Byte>, start: nat, unit: seq<Byte>)
    requires Conforms(unit) && start + |unit| <= |s| && s[start..start + |unit|] == unit
    ensures forall i :: start <= i < start + |unit| ==> !Code(s, i)
  {
    forall i | start <= i < start + |unit| ensures !Code(s, i) {
      var k := i - start;
      assert forall j :: 0 <= j < |unit| ==> s[start + j] == unit[j];
      if k + 2 < |unit| {
        assert s[i] == unit[k] && s[i + 1] == unit[k + 1] && s[i + 2] == unit[k + 2];
      } else {
        assert s[start + (|unit| - 1)] == unit[|unit| - 1] != 0;
      }
    }
  }

  /** So the scan stops exactly at the end of the unit. */
  lemma ScanStops(s: seq<Byte>, start: nat, n: nat)
    requires start + n <= |s| && (forall i :: start <= i < start + n ==> !Code(s, i))
    requires start + n < |s| ==> Code(s, start + n)
    ensures NextCode(s, start) == start + n
  {
  }

  lemma Slices(s: seq<Byte>, at: nat, c: seq<Byte>, unit: seq<Byte>, rest: seq<Byte>)
    requires at <= |s| && s[at..] == c + unit + rest
    ensures var start := at + |c|;
            start + |unit| <= |s| && s[start..start + |unit|] == unit && s[start + |unit|..] == rest
  {
    assert |s[at..]| == |c| + |unit| + |rest|;
    assert s[at + |c|..at + |c| + |unit|] == s[at..][|c|..|c| + |unit|];
    assert s[at + |c| + |unit|..] == s[at..][|c| + |unit|..];
  }

  /** The scan from one start code finds its unit whole and then the next start code, or the end. */
  lemma FramedHead(s: seq<Byte>, at: nat, c: seq<Byte>, unit: seq<Byte>, rest: seq<Byte>)
    requires Conforms(unit) && at <= |s| && s[at..] == c + unit + rest
    requires Code(s, at) && UnitStart(s, at) == at + |c| && (rest != [] ==> Code(s, at + |c| + |unit|))
    ensures var end := at + |c| + |unit|;
            end <= |s| && (rest == [] <==> end == |s|) && s[end..] == rest
            && FramedFrom(s, at) == BeBytes(|unit|, 4) + unit + (if rest == [] then [] else FramedFrom(s, end))
  {
    hide Code, BeBytes, NextCode, FramedFrom, UnitStart;
    Slices(s, at, c, unit, rest);
    NoCodeInside(s, at + |c|, unit);
    ScanStops(s, at + |c|, |unit|);
    FramedStep(s, at, at + |c|, at + |c| + |unit|);
  }

  lemma JoinHead(cs: seq<Coded>)
    requires AllConform(cs) && cs != []
    ensures Join(cs) == StartCode(cs[0].long) + cs[0].unit + Join(cs[1..]) && Join(cs) != []
    ensures LengthPrefixed(cs) == BeBytes(|cs[0].unit|, 4) + cs[0].unit + LengthPrefixed(cs[1..])
    ensures Conforms(cs[0].unit) && AllConform(cs[1..])
  {
  }

  lemma {:induction false} FramedJoin(s: seq<Byte>, at: nat, cs: seq<Coded>)
    requires AllConform(cs) && cs != [] && at <= |s| && s[at..] == Join(cs) && Code(s, at)
    ensures FramedFrom(s, at) == LengthPrefixed(cs)
    decreases |cs|
  {
    hide Code, Conforms, BeBytes, StartCode, FramedFrom, UnitStart, Join, LengthPrefixed, AllConform;
    JoinHead(cs);
    JoinStarts(s, at, cs);
    var c, unit, rest := StartCode(cs[0].long), cs[0].unit, cs[1..];
    var end := at + |c| + |unit|;
    Slices(s, at, c, unit, Join(rest));
    if rest == [] {
      JoinNone();
      FramedHead(s, at, c, unit, Join(rest));
    } else {
      JoinHead(rest);
      JoinStarts(s, end, rest);
      FramedJoin(s, end, rest);
      FramedHead(s, at, c, unit, Join(rest));
    }
  }

  lemma JoinNone()
    ensures Join([]) == [] && LengthPrefixed([]) == []
  {
  }

  /** Any conforming units behind any mix of start codes come out length-prefixed, in order. */
  lemma RewriteConforming(cs: seq<Coded>)
    requires AllConform(cs) && cs != []
    ensures Normalized(Join(cs)) == LengthPrefixed(cs)
  {
    var s := Join(cs);
    assert s[0..] == s;
    JoinStarts(s, 0, cs);
    FramedJoin(s, 0, cs);
    assert Conforms(cs[0].unit);
    assert |LengthPrefixed(cs)| >= 4;
  }

  /** Input in which the scan sees no start code is returned unchanged. */
  lemma NoCodeUnchanged(s: seq<Byte>)
    requires forall i: nat :: !Code(s, i)
    ensures Normalized(s) == s
  {
    var k := NextCode(s, 0);
  }
}
