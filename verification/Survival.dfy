/**
 * When an announcement survives the trip from the edge server
 * (apps/feature-flags/src/sse/edge.ts) to the client
 * (apps/feature-flags/src/sdk/node.ts).
 */
module Survival {
  import opened BlankLines
  import opened Frames
  import opened Edge

  // Every line of `lines`, with its newline, at its own length.
  function Extent(lines: seq<string>): nat {
    if lines == [] then 0 else Extent(lines[..|lines| - 1]) + |lines[|lines| - 1]| + 1
  }

  lemma {:induction false} ExtentConcat(a: seq<string>, b: seq<string>)
    ensures Extent(a + b) == Extent(a) + Extent(b)
    decreases |b|
  {
    if b == [] {
      assert a + b == a;
    } else {
      assert (a + b)[..|a + b| - 1] == a + b[..|b| - 1];
      ExtentConcat(a, b[..|b| - 1]);
    }
  }

  lemma {:induction false} SplitExtent(s: string)
    ensures Extent(SplitLines(s)) == |s| + 1
    decreases |s|
  {
    var i := NewlineIndex(s);
    if i < |s| {
      ExtentConcat([s[..i]], SplitLines(s[i + 1..]));
      SplitExtent(s[i + 1..]);
      assert [s[..i]][..0] == [];
    } else {
      assert [s][..0] == [];
    }
  }

  // Of lines after an event line, the data cannot take up more room than the
  // lines; a second line always costs something.
  lemma {:induction false} DataShrinks(lines: seq<string>)
    requires |lines| >= 2
    requires lines[0] == RULESET_HEAD
    ensures Data(lines).Some? ==> |Data(lines).value| + 7 <= Extent(lines[1..])
    ensures Data(lines).Some? && |lines| > 2 ==> |Data(lines).value| + 7 < Extent(lines[1..])
    decreases |lines|
  {
    var init := lines[..|lines| - 1];
    assert lines[1..][..|lines| - 2] == init[1..];
    if |lines| == 2 {
      HeadIsRuleset();
      assert init == [RULESET_HEAD];
    } else {
      DataShrinks(init);
    }
  }

  lemma {:induction false} HasNewlineSplits(s: string)
    requires '\n' in s
    ensures |SplitLines(s)| >= 2
  {
    if NewlineIndex(s) == |s| { assert false; }
  }

  // What a frame that begins like an announcement can carry at most.
  lemma AnnouncementFits(q: string)
    ensures Payload(Body(Ruleset(q))).Some? ==> |Payload(Body(Ruleset(q))).value| <= |q|
    ensures Payload(Body(Ruleset(q))).Some? && '\n' in q ==> |Payload(Body(Ruleset(q))).value| < |q|
  {
    var line := DATA_HEAD + q;
    RulesetBody(q);
    SplitTwo(RULESET_HEAD, line);
    var lines := SplitLines(Body(Ruleset(q)));
    assert lines[1..] == SplitLines(line);
    SplitExtent(line);
    if '\n' in q {
      assert line[|DATA_HEAD|..] == q;
      assert '\n' in line;
      HasNewlineSplits(line);
    }
    DataShrinks(lines);
  }

  // An announcement comes back as the one payload it was exactly when the
  // payload is a single, nonempty line.
  lemma AnnouncementSurvivesIff(payload: string)
    ensures Payloads(Cut(Print(Ruleset(payload))).frames) == [payload]
       <==> payload != "" && '\n' !in payload
  {
    var w := Ruleset(payload);
    var s := Print(w);
    if '\n' !in payload {
      assert Stream([w]) == s + Stream([w][1..]) == s;
      CutUndoesPrint([w]);
      assert Announced([w]) == (if payload != "" then [payload] else []) + Announced([w][1..]);
    } else {
      FirstFrame(payload);
      var c := Cut(s);
      var i := |c.frames[0]|;
      var q := c.frames[0][21..];
      CutFrames(s);
      AnnouncementFits(q);
      // The frame's own payload is too short to be the whole one, and the
      // remaining frames are shorter still.
      if Payload(c.frames[0]).Some? {
        assert |Payload(c.frames[0]).value| < |payload|;
        assert Payloads(c.frames)[0] == Payload(c.frames[0]).value;
      } else {
        RestTooShort(payload, c.frames, c.rest);
      }
    }
  }

  // The first frame cut from a printed announcement begins like one, and is
  // no longer than the announcement.
  lemma FirstFrame(payload: string)
    ensures var c := Cut(Print(Ruleset(payload)));
      && c.frames != []
      && |c.frames[0]| >= 21
      && c.frames[0] == Body(Ruleset(c.frames[0][21..]))
      && |c.frames[0]| <= |Body(Ruleset(payload))|
      && (|c.frames[0]| == |Body(Ruleset(payload))| ==> c.frames[0][21..] == payload)
  {
    var head := "event: ruleset\ndata: ";
    var s := Print(Ruleset(payload));
    assert GapAt(s, |s| - 2);
    var i := GapIndex(s);
    assert i >= 0 && i <= |s| - 2;
    assert s[..21] == head;
    forall j: nat | j < 21 ensures !GapAt(s, j) {
      assert s[j] == head[j];
      if j == 14 { assert s[15] == head[15]; }
    }
    var f := s[..i];
    assert f[..21] == head;
    assert f == head + f[21..];
    assert Cut(s).frames[0] == f;
  }

  // No frame's payload is longer than the frame.
  lemma {:induction false} DataFits(lines: seq<string>)
    ensures Data(lines).Some? ==> |Data(lines).value| + 7 <= Extent(lines)
    decreases |lines|
  {
    if lines != [] {
      DataFits(lines[..|lines| - 1]);
    }
  }

  lemma {:induction false} PayloadsFit(frames: seq<string>, rest: string, p: string)
    requires p in Payloads(frames)
    ensures |p| < |Join(frames, rest)|
    decreases |frames|
  {
    SplitExtent(frames[0]);
    DataFits(SplitLines(frames[0]));
    if p in Payloads(frames[1..]) {
      PayloadsFit(frames[1..], rest, p);
    }
  }

  lemma RestTooShort(payload: string, frames: seq<string>, rest: string)
    requires frames != [] && |frames[0]| >= 21 && Payload(frames[0]).None?
    requires |Join(frames, rest)| == 23 + |payload|
    ensures Payloads(frames) != [payload]
  {
    if Payloads(frames) == [payload] {
      assert Payloads(frames) == Payloads(frames[1..]);
      PayloadsFit(frames[1..], rest, payload);
    }
  }
}
