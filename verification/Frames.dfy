/**
 * What a frame of the event stream says
 * (handleSseChunk in apps/feature-flags/src/sdk/node.ts).
 */
module Frames {
  import opened Wrappers

  function NewlineIndex(s: string): (i: nat)
    ensures i <= |s|
    ensures forall j :: 0 <= j < i ==> s[j] != '\n'
    ensures i < |s| ==> s[i] == '\n'
  {
    if s == "" || s[0] == '\n' then 0 else 1 + NewlineIndex(s[1..])
  }

  function SplitLines(s: string): (lines: seq<string>)
    ensures |lines| >= 1
    decreases |s|
  {
    var i := NewlineIndex(s);
    if i == |s| then [s] else [s[..i]] + SplitLines(s[i + 1..])
  }

  lemma SplitOne(a: string)
    requires '\n' !in a
    ensures SplitLines(a) == [a]
  {
    if NewlineIndex(a) < |a| { assert false; }
  }

  lemma SplitTwo(a: string, b: string)
    requires '\n' !in a
    ensures SplitLines(a + "\n" + b) == [a] + SplitLines(b)
  {
    var s := a + "\n" + b;
    var i := NewlineIndex(s);
    assert s[|a|] == '\n';
    assert forall j :: 0 <= j < |a| ==> s[j] == a[j];
    assert i == |a|;
    assert s[..i] == a && s[i + 1..] == b;
  }

  predicate StartsWith(s: string, prefix: string) {
    |prefix| <= |s| && s[..|prefix|] == prefix
  }

  // The characters String.prototype.trim removes.
  predicate IsSpace(c: char) {
    || '\U{9}' <= c <= '\U{D}'
    || c == ' ' || c == '\U{A0}' || c == '\U{1680}'
    || '\U{2000}' <= c <= '\U{200A}'
    || c == '\U{2028}' || c == '\U{2029}' || c == '\U{202F}' || c == '\U{205F}'
    || c == '\U{3000}' || c == '\U{FEFF}'
  }

  function Trim(s: string): string
    decreases |s|
  {
    if s != "" && IsSpace(s[0]) then Trim(s[1..])
    else if s != "" && IsSpace(s[|s| - 1]) then Trim(s[..|s| - 1])
    else s
  }

  // The name on the last event line.
  function EventName(lines: seq<string>): Option<string> {
    if lines == [] then None
    else if StartsWith(lines[|lines| - 1], "event: ") then Some(Trim(lines[|lines| - 1][7..]))
    else EventName(lines[..|lines| - 1])
  }

  // The data lines in order, a newline between any two.
  function Data(lines: seq<string>): Option<string> {
    if lines == [] then None
    else
      var line, before := lines[|lines| - 1], Data(lines[..|lines| - 1]);
      if !StartsWith(line, "data: ") then before
      else if before.None? then Some(line[6..])
      else Some(before.value + "\n" + line[6..])
  }

  // The payload the client acts on, if the frame carries one. An empty
  // payload is falsy and counts as none.
  function Payload(frame: string): Option<string> {
    var lines := SplitLines(frame);
    var data := Data(lines);
    if EventName(lines) == Some("ruleset") && data.Some? && data.value != "" then data else None
  }

  // ---- what the lines give ----

  ghost predicate Blank(s: string) {
    forall i | 0 <= i < |s| :: IsSpace(s[i])
  }

  ghost predicate Within(t: string, s: string, a: string, b: string) {
    Blank(a) && Blank(b) && s == a + t + b
  }

  lemma FrontBlank(t: string, s: string, a: string, b: string)
    requires s != "" && IsSpace(s[0]) && Within(t, s[1..], a, b)
    ensures Within(t, s, [s[0]] + a, b)
  {
  }

  lemma BackBlank(t: string, s: string, a: string, b: string)
    requires s != "" && IsSpace(s[|s| - 1]) && Within(t, s[..|s| - 1], a, b)
    ensures Within(t, s, a, b + [s[|s| - 1]])
  {
  }

  /** Trimming takes blanks off both ends and leaves none there. */
  lemma {:induction false} TrimIs(s: string) returns (a: string, b: string)
    ensures Within(Trim(s), s, a, b)
    ensures Trim(s) != "" ==> !IsSpace(Trim(s)[0]) && !IsSpace(Trim(s)[|Trim(s)| - 1])
    decreases |s|
  {
    if s != "" && IsSpace(s[0]) {
      a, b := TrimIs(s[1..]);
      FrontBlank(Trim(s), s, a, b);
      a := [s[0]] + a;
    } else if s != "" && IsSpace(s[|s| - 1]) {
      a, b := TrimIs(s[..|s| - 1]);
      BackBlank(Trim(s), s, a, b);
      b := b + [s[|s| - 1]];
    } else {
      a, b := "", "";
    }
  }

  /** A frame's event is the trimmed rest of the last line that names one. */
  lemma {:induction false} EventNameIs(lines: seq<string>, k: nat, name: string)
    requires k < |lines| && lines[k] == "event: " + name
    requires forall i | k < i < |lines| :: !StartsWith(lines[i], "event: ")
    ensures EventName(lines) == Some(Trim(name))
    decreases |lines|
  {
    if k < |lines| - 1 {
      EventNameIs(lines[..|lines| - 1], k, name);
    }
  }

  // The texts of the data lines.
  function DataTexts(lines: seq<string>): seq<string> {
    if lines == [] then []
    else
      var line := lines[|lines| - 1];
      DataTexts(lines[..|lines| - 1]) + if StartsWith(line, "data: ") then [line[6..]] else []
  }

  lemma {:induction false} SplitSnoc(a: string, b: string)
    requires '\n' !in b
    ensures SplitLines(a + "\n" + b) == SplitLines(a) + [b]
    decreases |a|
  {
    var i := NewlineIndex(a);
    if i == |a| {
      SplitTwo(a, b);
      SplitOne(b);
    } else {
      var rest := a[i + 1..];
      assert a + "\n" + b == a[..i] + "\n" + (rest + "\n" + b);
      assert '\n' !in a[..i];
      SplitTwo(a[..i], rest + "\n" + b);
      SplitSnoc(rest, b);
    }
  }

  /** A frame's data is one payload whose lines are the texts of its data lines, in order; with no data line there is
      none. */
  lemma {:induction false} DataIs(lines: seq<string>)
    requires forall i | 0 <= i < |lines| :: '\n' !in lines[i]
    ensures DataTexts(lines) == [] ==> Data(lines) == None
    ensures DataTexts(lines) != [] ==> Data(lines).Some? && SplitLines(Data(lines).value) == DataTexts(lines)
    decreases |lines|
  {
    if lines != [] {
      var init, line := lines[..|lines| - 1], lines[|lines| - 1];
      DataIs(init);
      if StartsWith(line, "data: ") {
        assert '\n' !in line[6..];
        SplitOne(line[6..]);
        if Data(init).Some? { SplitSnoc(Data(init).value, line[6..]); }
      }
    }
  }

  function Found(frame: string): seq<string> {
    if Payload(frame).Some? then [Payload(frame).value] else []
  }

  function Payloads(frames: seq<string>): seq<string> {
    if frames == [] then [] else Found(frames[0]) + Payloads(frames[1..])
  }

  lemma PayloadsSnoc(frames: seq<string>, frame: string)
    ensures Payloads(frames + [frame]) == Payloads(frames) + Found(frame)
  {
    PayloadsConcat(frames, [frame]);
    assert [frame][1..] == [];
  }

  lemma {:induction false} PayloadsConcat(f: seq<string>, g: seq<string>)
    ensures Payloads(f + g) == Payloads(f) + Payloads(g)
    decreases |f|
  {
    if f == [] {
      assert f + g == g;
    } else {
      assert (f + g)[1..] == f[1..] + g;
      PayloadsConcat(f[1..], g);
    }
  }
}
