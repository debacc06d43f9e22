/** Cutting the event stream into frames: the buffer loop of apps/feature-flags/src/sdk/node.ts. */
module BlankLines {
  predicate GapAt(s: string, i: nat) {
    i + 1 < |s| && s[i] == '\n' && s[i + 1] == '\n'
  }

  ghost predicate GapFree(s: string) {
    forall i: nat :: !GapAt(s, i)
  }

  // The frames, each followed by its blank line, and then what is left over.
  function Join(frames: seq<string>, rest: string): string {
    if frames == [] then rest else frames[0] + "\n\n" + Join(frames[1..], rest)
  }

  // The blank line that ends the frame is the leftmost one: none starts
  // inside the frame, nor at its last character.
  ghost predicate Clean(frame: string) {
    GapFree(frame + "\n")
  }

  // The client appends every read to a buffer and cuts it at the leftmost
  // blank line for as long as there is one. This says what a correct cut of a
  // text is without saying how it is found; there is exactly one for each text,
  // so what the client hands out cannot depend on where the reads fell.
  ghost predicate Framing(s: string, frames: seq<string>, rest: string) {
    && s == Join(frames, rest)
    && (forall f :: f in frames ==> Clean(f))
    && GapFree(rest)
  }

  // buf.indexOf("\n\n"), looking from position `from` on.
  function GapIndex(s: string, from: nat := 0): (i: int)
    requires from <= |s|
    ensures i == -1 || from <= i < |s|
    ensures i >= 0 ==> GapAt(s, i)
    ensures forall j: nat :: from <= j && (i < 0 || j < i) ==> !GapAt(s, j)
    decreases |s| - from
  {
    if from == |s| then -1
    else if GapAt(s, from) then from
    else GapIndex(s, from + 1)
  }

  datatype Framed = Framed(frames: seq<string>, rest: string)

  function Cut(s: string): Framed
    decreases |s|
  {
    var i := GapIndex(s);
    if i < 0 then Framed([], s)
    else
      var tail := Cut(s[i + 2..]);
      Framed([s[..i]] + tail.frames, tail.rest)
  }

  lemma {:induction false} CutFrames(s: string)
    ensures Framing(s, Cut(s).frames, Cut(s).rest)
    decreases |s|
  {
    var i := GapIndex(s);
    if i >= 0 {
      CutFrames(s[i + 2..]);
      assert s == s[..i] + "\n\n" + s[i + 2..];
      forall j: nat ensures !GapAt(s[..i] + "\n", j) {
        assert j < i ==> !GapAt(s, j);
      }
    }
  }

  // Cutting `text` has handed out `done` and has `buf` still to look at.
  ghost predicate Pending(text: string, done: seq<string>, buf: string) {
    Cut(text).frames == done + Cut(buf).frames && Cut(text).rest == Cut(buf).rest
  }

  lemma PendingStep(text: string, done: seq<string>, buf: string)
    requires Pending(text, done, buf)
    ensures GapIndex(buf) >= 0 ==> Pending(text, done + [buf[..GapIndex(buf)]], buf[GapIndex(buf) + 2..])
    ensures GapIndex(buf) < 0 ==> Cut(text) == Framed(done, buf)
  {
    var i := GapIndex(buf);
    if i >= 0 {
      var after := Cut(buf[i + 2..]).frames;
      assert Cut(buf).frames == [buf[..i]] + after;
      assert done + ([buf[..i]] + after) == done + [buf[..i]] + after;
    }
  }

  // The leftmost blank line of "clean frame, blank line, anything" is the
  // one after the frame.
  lemma LeftmostGap(frame: string, after: string)
    requires Clean(frame)
    ensures GapAt(frame + "\n\n" + after, |frame|)
    ensures forall j: nat :: j < |frame| ==> !GapAt(frame + "\n\n" + after, j)
  {
    var s := frame + "\n\n" + after;
    forall j: nat | j < |frame| ensures !GapAt(s, j) {
      assert !GapAt(frame + "\n", j);
      assert (frame + "\n")[j] == s[j] && (frame + "\n")[j + 1] == s[j + 1];
    }
  }

  lemma {:induction false} FramingUnique(s: string, f: seq<string>, r: string, g: seq<string>, q: string)
    requires Framing(s, f, r) && Framing(s, g, q)
    ensures f == g && r == q
    decreases |f|
  {
    if f != [] && g != [] {
      var a, b := Join(f[1..], r), Join(g[1..], q);
      LeftmostGap(f[0], a);
      LeftmostGap(g[0], b);
      assert |f[0]| == |g[0]|;
      assert f[0] == s[..|f[0]|] == g[0];
      assert a == s[|f[0]| + 2..] == b;
      FramingUnique(a, f[1..], r, g[1..], q);
      assert f == [f[0]] + f[1..] && g == [g[0]] + g[1..];
    } else if f != [] {
      LeftmostGap(f[0], Join(f[1..], r));
      assert false;
    } else if g != [] {
      LeftmostGap(g[0], Join(g[1..], q));
      assert false;
    }
  }

  lemma {:induction false} JoinConcat(f: seq<string>, g: seq<string>, rest: string)
    ensures Join(f + g, rest) == Join(f, Join(g, rest))
    decreases |f|
  {
    if f == [] {
      assert f + g == g;
    } else {
      assert (f + g)[1..] == f[1..] + g;
      JoinConcat(f[1..], g, rest);
    }
  }

  lemma {:induction false} JoinAppend(f: seq<string>, rest: string, more: string)
    ensures Join(f, rest) + more == Join(f, rest + more)
    decreases |f|
  {
    if f != [] {
      JoinAppend(f[1..], rest, more);
      assert f[0] + "\n\n" + Join(f[1..], rest) + more == f[0] + "\n\n" + (Join(f[1..], rest) + more);
    }
  }

  // Cutting can be interrupted anywhere: what was handed out stays handed
  // out, and only the leftover has to be looked at again.
  lemma CutResumes(s: string, more: string)
    ensures Cut(s + more).frames == Cut(s).frames + Cut(Cut(s).rest + more).frames
    ensures Cut(s + more).rest == Cut(Cut(s).rest + more).rest
  {
    var a := Cut(s);
    var b := Cut(a.rest + more);
    CutFrames(s);
    CutFrames(a.rest + more);
    CutFrames(s + more);
    JoinAppend(a.frames, a.rest, more);
    JoinConcat(a.frames, b.frames, b.rest);
    assert Framing(s + more, a.frames + b.frames, b.rest);
    FramingUnique(s + more, a.frames + b.frames, b.rest, Cut(s + more).frames, Cut(s + more).rest);
  }
}
