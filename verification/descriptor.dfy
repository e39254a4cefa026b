/** JNI method descriptors and the shorties made from them. */
module Descriptor {
  import opened Options
  import opened JniAbi
  import opened ShortyPlan

  /** Section 4.3 of the JVM specification, with any non-empty class name that has no ';'. */
  datatype Type = Primitive(letter: char) | Class(name: string) | Array(element: Type)

  /** returns is None for void. */
  datatype Method = Method(parameters: seq<Type>, returns_: Option<Type>)

  predicate IsPrimitive(c: char) { c in {'Z', 'B', 'C', 'S', 'I', 'J', 'F', 'D'} }

  predicate Legal(t: Type) {
    match t
    case Primitive(c) => IsPrimitive(c)
    case Class(name) => name != "" && ';' !in name
    case Array(e) => Legal(e)
  }

  predicate LegalMethod(m: Method) {
    (forall i :: 0 <= i < |m.parameters| ==> Legal(m.parameters[i])) && (m.returns_.Some? ==> Legal(m.returns_.value))
  }

  function Print(t: Type): (s: string)
    ensures |s| > 0
  {
    match t
    case Primitive(c) => [c]
    case Class(name) => "L" + name + ";"
    case Array(e) => "[" + Print(e)
  }

  function PrintAll(ts: seq<Type>): string {
    if ts == [] then "" else Print(ts[0]) + PrintAll(ts[1..])
  }

  function PrintReturn(t: Option<Type>): string {
    if t.None? then "V" else Print(t.value)
  }

  function PrintMethod(m: Method): string {
    "(" + PrintAll(m.parameters) + ")" + PrintReturn(m.returns_)
  }

  /** References of every kind are 'L' in a shorty. */
  function Letter(t: Type): char { if t.Primitive? then t.letter else 'L' }

  function Letters(ts: seq<Type>): (s: string)
    ensures |s| == |ts|
  {
    seq(|ts|, i requires 0 <= i < |ts| => Letter(ts[i]))
  }

  function Shorty(m: Method): string {
    [if m.returns_.None? then 'V' else Letter(m.returns_.value)] + Letters(m.parameters)
  }

  // Reading back

  /** Where the first ';' at or after i is, or the end. */
  function Semicolon(s: string, i: nat): (k: nat)
    requires i <= |s|
    ensures i <= k <= |s| && (k < |s| ==> s[k] == ';') && forall j :: i <= j < k ==> s[j] != ';'
    decreases |s| - i
  {
    if i == |s| || s[i] == ';' then i else Semicolon(s, i + 1)
  }

  /** The type a string starts with, and its length. */
  function ParseType(s: string): (r: Option<(Type, nat)>)
    ensures r.Some? ==> 0 < r.value.1 <= |s|
  {
    if s == "" then None
    else if IsPrimitive(s[0]) then Some((Primitive(s[0]), 1))
    else if s[0] == 'L' then
      var end := Semicolon(s, 1);
      if end == |s| || end == 1 then None else Some((Class(s[1..end]), end + 1))
    else if s[0] == '[' then
      var e := ParseType(s[1..]);
      if e.None? then None else Some((Array(e.value.0), 1 + e.value.1))
    else None
  }

  /** Types up to the closing parenthesis, and where that is. */
  function ParseAll(s: string): (r: Option<(seq<Type>, nat)>)
    ensures r.Some? ==> r.value.1 < |s|
  {
    if s == "" then None
    else if s[0] == ')' then Some(([], 0))
    else
      var t := ParseType(s);
      if t.None? then None
      else
        var rest := ParseAll(s[t.value.1..]);
        if rest.None? then None else Some(([t.value.0] + rest.value.0, t.value.1 + rest.value.1))
  }

  function ParseReturn(s: string): Option<Option<Type>> {
    if s == "V" then Some(None)
    else
      var t := ParseType(s);
      if t.None? || t.value.1 != |s| then None else Some(Some(t.value.0))
  }

  function ParseMethod(s: string): Option<Method> {
    if s == "" || s[0] != '(' then None
    else
      var ts := ParseAll(s[1..]);
      if ts.None? then None
      else
        var r := ParseReturn(s[ts.value.1 + 2..]);
        if r.None? then None else Some(Method(ts.value.0, r.value))
  }

  /** A printed type is read back whole, whatever follows it. */
  lemma {:induction false} ParsePrint(t: Type, rest: string)
    requires Legal(t)
    ensures ParseType(Print(t) + rest) == Some((t, |Print(t)|))
  {
    var s := Print(t) + rest;
    match t
    case Primitive(c) =>
    case Class(name) =>
      assert s[1..|name| + 1] == name && s[|name| + 1] == ';';
      assert forall j :: 1 <= j < |name| + 1 ==> s[j] in name;
      assert Semicolon(s, 1) == |name| + 1;
    case Array(e) =>
      ParsePrint(e, rest);
      assert s[1..] == Print(e) + rest;
  }

  /** What is read was printed by a legal type. */
  lemma {:induction false} PrintParse(s: string)
    requires ParseType(s).Some?
    ensures var (t, n) := ParseType(s).value; Legal(t) && Print(t) == s[..n]
    decreases |s|
  {
    if s[0] == '[' {
      PrintParse(s[1..]);
      var (e, n) := ParseType(s[1..]).value;
      assert s[..n + 1] == "[" + s[1..][..n];
    } else if s[0] == 'L' && !IsPrimitive(s[0]) {
      var end := Semicolon(s, 1);
      assert s[..end + 1] == "L" + s[1..end] + ";";
    }
  }

  lemma {:induction false} ParsePrintAll(ts: seq<Type>, rest: string)
    requires (forall i :: 0 <= i < |ts| ==> Legal(ts[i])) && rest != "" && rest[0] == ')'
    ensures ParseAll(PrintAll(ts) + rest) == Some((ts, |PrintAll(ts)|))
  {
    hide ParseType, Print, Legal;
    var s := PrintAll(ts) + rest;
    if ts != [] {
      var tail := PrintAll(ts[1..]) + rest;
      assert s == Print(ts[0]) + tail;
      ParsePrint(ts[0], tail);
      NotParenthesis(ts[0]);
      assert s[0] == Print(ts[0])[0];
      assert s[|Print(ts[0])|..] == tail;
      ParsePrintAll(ts[1..], rest);
      assert [ts[0]] + ts[1..] == ts;
    } else {
      assert s == rest;
    }
  }

  lemma NotParenthesis(t: Type)
    requires Legal(t)
    ensures Print(t)[0] != ')' && Print(t) != "V"
  {
  }

  lemma {:induction false} PrintParseAll(s: string)
    requires ParseAll(s).Some?
    ensures var (ts, n) := ParseAll(s).value;
            (forall i :: 0 <= i < |ts| ==> Legal(ts[i])) && PrintAll(ts) == s[..n] && s[n] == ')'
    decreases |s|
  {
    hide ParseType, Print, Legal;
    if s[0] != ')' {
      PrintParse(s);
      var (t, k) := ParseType(s).value;
      PrintParseAll(s[k..]);
      var (rest, n) := ParseAll(s[k..]).value;
      assert ([t] + rest)[1..] == rest;
      assert s[..k] + s[k..][..n] == s[..k + n];
    }
  }

  lemma ReturnRoundTrip(t: Option<Type>)
    requires t.Some? ==> Legal(t.value)
    ensures ParseReturn(PrintReturn(t)) == Some(t)
  {
    hide ParseType, Print;
    if t.Some? {
      ParsePrint(t.value, "");
      assert Print(t.value) + "" == Print(t.value);
      NotParenthesis(t.value);
    }
  }

  /** The descriptor language: read-back succeeds exactly on printed legal methods, and inverts printing. */
  lemma MethodRoundTrip(m: Method)
    requires LegalMethod(m)
    ensures ParseMethod(PrintMethod(m)) == Some(m)
  {
    hide ParseAll, PrintAll, ParseReturn, PrintReturn, Legal;
    var s, ret := PrintMethod(m), PrintReturn(m.returns_);
    ParsePrintAll(m.parameters, ")" + ret);
    ReturnRoundTrip(m.returns_);
    assert s[1..] == PrintAll(m.parameters) + (")" + ret);
    assert s[|PrintAll(m.parameters)| + 2..] == ret;
  }

  lemma ReturnIsLegal(s: string)
    requires ParseReturn(s).Some?
    ensures PrintReturn(ParseReturn(s).value) == s && (ParseReturn(s).value.Some? ==> Legal(ParseReturn(s).value.value))
  {
    hide ParseType, Print, Legal;
    if s != "V" {
      PrintParse(s);
      assert s[..|s|] == s;
    }
  }

  lemma ParsedIsLegal(s: string)
    requires ParseMethod(s).Some?
    ensures LegalMethod(ParseMethod(s).value) && PrintMethod(ParseMethod(s).value) == s
  {
    hide ParseAll, PrintAll, ParseReturn, PrintReturn, Legal;
    PrintParseAll(s[1..]);
    var n := ParseAll(s[1..]).value.1;
    ReturnIsLegal(s[n + 2..]);
    assert s == "(" + s[1..][..n] + ")" + s[n + 2..];
  }

  /** Every shorty that fits is accepted by the thunk planner as a regular call. */
  lemma ShortyAccepted(m: Method)
    requires LegalMethod(m) && |Shorty(m)| <= 256
    ensures Accepts(Shorty(m), Regular)
  {
    assert forall i :: 0 <= i < |m.parameters| ==> Legal(m.parameters[i]);
  }

  // The parser itself, with a cursor into a NUL-terminated string

  /** Skipping brackets leaves the same question about the component. */
  lemma {:induction false} Brackets(text: string, from: nat, to: nat)
    requires from <= to <= |text| && forall i :: from <= i < to ==> text[i] == '['
    ensures ParseType(text[from..]).Some? <==> ParseType(text[to..]).Some?
    ensures ParseType(text[from..]).Some? ==>
              ParseType(text[from..]).value.1 == to - from + ParseType(text[to..]).value.1
    ensures ParseType(text[from..]).Some? && from < to ==> Letter(ParseType(text[from..]).value.0) == 'L'
    decreases |text| - from
  {
    if from < to {
      assert text[from..][1..] == text[from + 1..];
      Brackets(text, from + 1, to);
    }
  }

  method ParseDescriptorType(text: string, cursor: nat, allowVoid: bool) returns (ok: bool, letter: char, next: nat)
    requires cursor <= |text|
    ensures allowVoid && cursor < |text| && text[cursor] == 'V' ==> ok && letter == 'V' && next == cursor + 1
    ensures !(allowVoid && cursor < |text| && text[cursor] == 'V') ==> (ok <==> ParseType(text[cursor..]).Some?)
    ensures ok && !(allowVoid && text[cursor] == 'V') ==>
              letter == Letter(ParseType(text[cursor..]).value.0) && next == cursor + ParseType(text[cursor..]).value.1
    ensures ok ==> cursor < next <= |text|
    decreases |text| - cursor
  {
    ok, letter, next := false, 'V', cursor;
    if cursor == |text| { return; }
    var c := text[cursor];
    if c == 'V' {
      if allowVoid { ok, next := true, cursor + 1; }
    } else if IsPrimitive(c) {
      ok, letter, next := true, c, cursor + 1;
    } else if c == 'L' {
      var end := cursor + 1;
      while end < |text| && text[end] != ';'
        invariant cursor + 1 <= end <= |text| && forall j :: cursor + 1 <= j < end ==> text[j] != ';'
      {
        end := end + 1;
      }
      SameSemicolon(text, cursor, end);
      if end == |text| || end == cursor + 1 { return; }
      ok, letter, next := true, 'L', end + 1;
    } else if c == '[' {
      var current := cursor + 1;
      while current < |text| && text[current] == '['
        invariant cursor < current <= |text| && forall i :: cursor <= i < current ==> text[i] == '['
      {
        current := current + 1;
      }
      Brackets(text, cursor, current);
      var component;
      ok, component, next := ParseDescriptorType(text, current, false);
      letter := 'L';
    }
  }

  lemma SameSemicolon(text: string, cursor: nat, end: nat)
    requires cursor < end <= |text| && (end < |text| ==> text[end] == ';')
    requires forall j :: cursor + 1 <= j < end ==> text[j] != ';'
    ensures Semicolon(text[cursor..], 1) == end - cursor
  {
    var s := text[cursor..];
    assert forall i :: 0 <= i < |s| ==> s[i] == text[cursor + i];
  }

  /** DescriptorToShorty accepts exactly the printed legal methods and yields their shorty. */
  method DescriptorToShorty(text: string) returns (shorty: Option<string>)
    ensures shorty.Some? <==> ParseMethod(text).Some?
    ensures shorty.Some? ==> shorty.value == Shorty(ParseMethod(text).value)
  {
    hide ParseType, Letter;
    if text == "" || text[0] != '(' { return None; }
    var cursor := 1;
    var arguments := "";
    while cursor < |text| && text[cursor] != ')'
      invariant 1 <= cursor <= |text|
      invariant ParseAll(text[1..]).Some? <==> ParseAll(text[cursor..]).Some?
      invariant ParseAll(text[1..]).Some? ==>
                  && ParseAll(text[1..]).value.1 == cursor - 1 + ParseAll(text[cursor..]).value.1
                  && Letters(ParseAll(text[1..]).value.0) == arguments + Letters(ParseAll(text[cursor..]).value.0)
      decreases |text| - cursor
    {
      var ok, letter, next := ParseDescriptorType(text, cursor, false);
      if !ok { return None; }
      assert text[cursor..][next - cursor..] == text[next..];
      if ParseAll(text[next..]).Some? {
        LettersFirst(ParseType(text[cursor..]).value.0, ParseAll(text[next..]).value.0);
        ghost var rest := Letters(ParseAll(text[next..]).value.0);
        assert arguments + ([letter] + rest) == (arguments + [letter]) + rest;
      }
      arguments := arguments + [letter];
      cursor := next;
    }
    if cursor == |text| { return None; }
    assert arguments + Letters([]) == arguments;
    cursor := cursor + 1;
    ReturnParsed(text, cursor);
    var ok, letter, next := ParseDescriptorType(text, cursor, true);
    if !ok || next != |text| { return None; }
    shorty := Some([letter] + arguments);
  }

  lemma LettersFirst(t: Type, ts: seq<Type>)
    ensures Letters([t] + ts) == [Letter(t)] + Letters(ts)
  {
  }

  /** A return type is 'V' alone or a type that ends the string. */
  lemma ReturnParsed(text: string, cursor: nat)
    requires cursor <= |text|
    ensures ParseReturn(text[cursor..]).Some? && ParseReturn(text[cursor..]).value.None? <==>
              cursor + 1 == |text| && text[cursor] == 'V'
    ensures cursor < |text| && text[cursor] == 'V' ==> ParseType(text[cursor..]).None?
  {
  }

  /** The eight primitive types keep their letters, as parameter and as return type. */
  lemma PrimitivesKept(c: char)
    requires c in "ZBCSIJFD"
    ensures var text := "(" + [c] + ")" + [c];
            ParseMethod(text).Some? && Shorty(ParseMethod(text).value) == [c, c]
  {
    var m := Method([Primitive(c)], Some(Primitive(c)));
    MethodRoundTrip(m);
    assert PrintAll([Primitive(c)]) == [c] by { assert [Primitive(c)][1..] == []; }
    assert PrintMethod(m) == "(" + [c] + ")" + [c];
  }

  /** Classes and arrays become 'L', whatever they hold, and void 'V'. */
  lemma ReferencesAreL(name: string, t: Type)
    requires name != "" && ';' !in name && Legal(t)
    ensures var text := "(L" + name + ";[" + Print(t) + ")V";
            ParseMethod(text).Some? && Shorty(ParseMethod(text).value) == "VLL"
  {
    var m := Method([Class(name), Array(t)], None);
    MethodRoundTrip(m);
    assert m.parameters[1..] == [Array(t)] && m.parameters[1..][1..] == [];
    assert PrintAll([Array(t)]) == "[" + Print(t) + PrintAll([]) == "[" + Print(t);
    assert PrintAll(m.parameters) == "L" + name + ";" + ("[" + Print(t));
    assert PrintMethod(m) == "(L" + name + ";[" + Print(t) + ")V";
  }
}
