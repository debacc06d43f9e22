/**
 * The frames the edge server writes (apps/feature-flags/src/sse/edge.ts), and
 * what the client recovers from them.
 */
module Edge {
  import opened Wrappers
  import opened BlankLines
  import opened Frames

  datatype Write = Retry | Ruleset(payload: string) | Keepalive(stamp: string)

  // The text of a write without the blank line that ends it.
  function Body(w: Write): string {
    match w
    case Retry => "retry: 2000"
    case Ruleset(payload) => "event: ruleset\ndata: " + payload
    case Keepalive(stamp) => ":keepalive " + stamp
  }

  function Print(w: Write): string {
    Body(w) + "\n\n"
  }

  function Stream(ws: seq<Write>): string {
    if ws == [] then "" else Print(ws[0]) + Stream(ws[1..])
  }

  // A stamp is a decimal number; a payload is JSON text on one line.
  predicate OneLine(w: Write) {
    match w
    case Retry => true
    case Ruleset(payload) => '\n' !in payload
    case Keepalive(stamp) => '\n' !in stamp
  }

  function Announced(ws: seq<Write>): seq<string> {
    if ws == [] then []
    else (if ws[0].Ruleset? && ws[0].payload != "" then [ws[0].payload] else []) + Announced(ws[1..])
  }

  function Bodies(ws: seq<Write>): seq<string> {
    seq(|ws|, i requires 0 <= i < |ws| => Body(ws[i]))
  }

  lemma {:induction false} StreamIsJoin(ws: seq<Write>)
    ensures Stream(ws) == Join(Bodies(ws), "")
    decreases |ws|
  {
    if ws != [] {
      assert Bodies(ws)[1..] == Bodies(ws[1..]);
      StreamIsJoin(ws[1..]);
    }
  }

  lemma NewlineFreeIsClean(s: string)
    requires '\n' !in s
    ensures Clean(s)
  {
    forall j: nat ensures !GapAt(s + "\n", j) {
      if j < |s| { assert s[j] in s && (s + "\n")[j] == s[j]; }
    }
  }

  const RULESET_HEAD := "event: ruleset"
  const DATA_HEAD := "data: "

  lemma RulesetBody(payload: string)
    ensures Body(Ruleset(payload)) == RULESET_HEAD + "\n" + (DATA_HEAD + payload)
  {
    assert "event: ruleset\ndata: " == RULESET_HEAD + "\n" + DATA_HEAD;
  }

  lemma BodyIsClean(w: Write)
    requires OneLine(w)
    ensures Clean(Body(w))
  {
    match w
    case Retry => NewlineFreeIsClean(Body(w));
    case Keepalive(stamp) => NewlineFreeIsClean(Body(w));
    case Ruleset(payload) =>
      RulesetBody(payload);
      var s := Body(w) + "\n";
      forall j: nat ensures !GapAt(s, j) {
        if j < 14 {
          assert s[j] == RULESET_HEAD[j];
        } else if j == 14 {
          assert s[15] == DATA_HEAD[0];
        } else if j < |s| - 1 {
          assert s[j] == (DATA_HEAD + payload)[j - 15];
        }
      }
  }

  lemma DataOfOne(line: string)
    ensures Data([line]) == if StartsWith(line, "data: ") then Some(line[6..]) else None
    ensures EventName([line]) == if StartsWith(line, "event: ") then Some(Trim(line[7..])) else None
  {
    assert [line][..0] == [];
  }

  lemma HeadIsRuleset()
    ensures EventName([RULESET_HEAD]) == Some("ruleset") && Data([RULESET_HEAD]) == None
  {
    DataOfOne(RULESET_HEAD);
    assert RULESET_HEAD[..7] == "event: " && RULESET_HEAD[7..] == "ruleset";
    assert RULESET_HEAD[0] != "data: "[0];
  }

  lemma PayloadOfBody(w: Write)
    requires OneLine(w)
    ensures Payload(Body(w)) == if w.Ruleset? && w.payload != "" then Some(w.payload) else None
  {
    if w.Ruleset? {
      var line := DATA_HEAD + w.payload;
      RulesetBody(w.payload);
      SplitTwo(RULESET_HEAD, line);
      SplitOne(line);
      HeadIsRuleset();
      var lines := [RULESET_HEAD, line];
      assert SplitLines(Body(w)) == [RULESET_HEAD] + [line] == lines;
      assert lines[..1] == [RULESET_HEAD];
      assert line[..6] == "data: " && line[6..] == w.payload;
      assert line[0] != "event: "[0];
    } else {
      SplitOne(Body(w));
      DataOfOne(Body(w));
      assert Body(w)[0] != "data: "[0] && Body(w)[0] != "event: "[0];
    }
  }

  lemma {:induction false} PayloadsOfBodies(ws: seq<Write>)
    requires forall w :: w in ws ==> OneLine(w)
    ensures Payloads(Bodies(ws)) == Announced(ws)
    decreases |ws|
  {
    if ws != [] {
      PayloadOfBody(ws[0]);
      assert Bodies(ws)[1..] == Bodies(ws[1..]);
      PayloadsOfBodies(ws[1..]);
    }
  }

  // Cutting what the server printed gives back its frames, and nothing is
  // left over: printing and cutting are inverse to each other.
  lemma CutUndoesPrint(ws: seq<Write>)
    requires forall w :: w in ws ==> OneLine(w)
    ensures Cut(Stream(ws)) == Framed(Bodies(ws), "")
    ensures Payloads(Cut(Stream(ws)).frames) == Announced(ws)
  {
    StreamIsJoin(ws);
    forall f | f in Bodies(ws) ensures Clean(f) {
      var i :| 0 <= i < |ws| && f == Body(ws[i]);
      BodyIsClean(ws[i]);
    }
    var c := Cut(Stream(ws));
    CutFrames(Stream(ws));
    FramingUnique(Stream(ws), Bodies(ws), "", c.frames, c.rest);
    PayloadsOfBodies(ws);
  }

  // Whatever part of the printed stream has arrived, the payloads recovered
  // from it are a prefix of the payloads written; with all of it they are all.
  lemma ArrivedIsPrefix(ws: seq<Write>, arrived: string)
    requires forall w :: w in ws ==> OneLine(w)
    requires arrived <= Stream(ws)
    ensures Payloads(Cut(arrived).frames) <= Announced(ws)
    ensures arrived == Stream(ws) ==> Payloads(Cut(arrived).frames) == Announced(ws)
  {
    var missing := Stream(ws)[|arrived|..];
    assert arrived + missing == Stream(ws);
    CutResumes(arrived, missing);
    CutUndoesPrint(ws);
    PayloadsConcat(Cut(arrived).frames, Cut(Cut(arrived).rest + missing).frames);
  }
}
