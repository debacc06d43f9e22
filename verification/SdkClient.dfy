/**
 * The client of the event stream (apps/feature-flags/src/sdk/node.ts): the
 * connection loop, and the ruleset version it ends up with.
 */
module SdkClient {
  import opened Wrappers
  import opened BlankLines
  import opened Frames

  function Concat(parts: seq<string>): string {
    if parts == [] then "" else parts[0] + Concat(parts[1..])
  }

  lemma {:induction false} ConcatSnoc(parts: seq<string>, last: string)
    ensures Concat(parts + [last]) == Concat(parts) + last
    decreases |parts|
  {
    if parts == [] {
      assert parts + [last] == [last] && [last][1..] == [];
    } else {
      assert (parts + [last])[1..] == parts[1..] + [last];
      ConcatSnoc(parts[1..], last);
    }
  }

  // What JSON.parse makes of a payload, if it is an announcement at all.
  datatype Announcement = Announcement(env: string, version: nat)

  // The version a client holds after one payload. `latest` is the ruleset
  // version the edge server answers with when asked, None when it has none or
  // the request fails.
  function Settle(held: nat, env: string, heard: Option<Announcement>, latest: Option<nat>): nat {
    if heard.Some? && heard.value.env == env && heard.value.version > held then Install(held, latest) else held
  }

  function Install(held: nat, latest: Option<nat>): nat {
    if latest.Some? && latest.value > held then latest.value else held
  }

  // The version after a run of payloads; `latest(k)` is the answer the server
  // would give to a request made for payload k.
  function Settled(held: nat, env: string, parse: string -> Option<Announcement>,
                   heard: seq<string>, latest: nat -> Option<nat>): nat
  {
    if heard == [] then held
    else
      var k := |heard| - 1;
      Settle(Settled(held, env, parse, heard[..k], latest), env, parse(heard[k]), latest(k))
  }

  lemma SettledSnoc(held: nat, env: string, parse: string -> Option<Announcement>,
                    heard: seq<string>, p: string, latest: nat -> Option<nat>)
    ensures Settled(held, env, parse, heard + [p], latest)
         == Settle(Settled(held, env, parse, heard, latest), env, parse(p), latest(|heard|))
  {
    assert (heard + [p])[..|heard|] == heard;
  }

  // Payload k announces a newer version of the client's own environment than it holds by then: a request is made.
  ghost predicate Asks(held: nat, env: string, parse: string -> Option<Announcement>, heard: seq<string>,
                       latest: nat -> Option<nat>, k: nat) {
    && k < |heard| && parse(heard[k]).Some? && parse(heard[k]).value.env == env
    && parse(heard[k]).value.version > Settled(held, env, parse, heard[..k], latest)
  }

  // Exactly when it asks does the version move, to that of the answer if that is newer.
  lemma VersionMoves(held: nat, env: string, parse: string -> Option<Announcement>, heard: seq<string>,
                     latest: nat -> Option<nat>, k: nat)
    requires k < |heard|
    ensures var before := Settled(held, env, parse, heard[..k], latest);
            var after := Settled(held, env, parse, heard[..k + 1], latest);
            after == if Asks(held, env, parse, heard, latest, k) && latest(k).Some? && latest(k).value > before
                     then latest(k).value else before
  {
    assert heard[..k + 1][..k] == heard[..k];
  }

  // When every request made is answered with a ruleset at least as new as the one announced, the client ends up no
  // older than anything announced to it, and it never goes back, whatever the order of the announcements.
  lemma {:induction false} CatchesUp(held: nat, env: string, parse: string -> Option<Announcement>,
                                     heard: seq<string>, latest: nat -> Option<nat>)
    requires forall k: nat :: Asks(held, env, parse, heard, latest, k) ==>
      latest(k).Some? && latest(k).value >= parse(heard[k]).value.version
    ensures Settled(held, env, parse, heard, latest) >= held
    ensures forall k: nat :: k < |heard| && parse(heard[k]).Some? && parse(heard[k]).value.env == env ==>
      Settled(held, env, parse, heard, latest) >= parse(heard[k]).value.version
    decreases |heard|
  {
    if heard != [] {
      var init := heard[..|heard| - 1];
      forall k: nat | Asks(held, env, parse, init, latest, k)
        ensures latest(k).Some? && latest(k).value >= parse(init[k]).value.version
      {
        assert init[k] == heard[k] && init[..k] == heard[..k];
        assert Asks(held, env, parse, heard, latest, k);
      }
      CatchesUp(held, env, parse, init, latest);
      if Asks(held, env, parse, heard, latest, |init|) {
        assert latest(|init|).Some?;
      }
      forall k: nat | k < |heard| && parse(heard[k]).Some? && parse(heard[k]).value.env == env
        ensures Settled(held, env, parse, heard, latest) >= parse(heard[k]).value.version
      {
        if k < |init| { assert init[k] == heard[k]; }
      }
    }
  }

  class FeatureFlagClient {
    const env: string
    const parse: string -> Option<Announcement>
    var currentVersion: nat
    // The payloads acted on so far on this connection.
    var heard: seq<string>

    constructor (env: string, parse: string -> Option<Announcement>)
      ensures this.env == env && this.parse == parse && currentVersion == 0 && heard == []
    {
      this.env, this.parse, currentVersion, heard := env, parse, 0, [];
    }

    method InstallRuleset(version: nat)
      modifies this`currentVersion
      ensures currentVersion == Install(old(currentVersion), Some(version))
      ensures currentVersion >= old(currentVersion) && currentVersion >= version
    {
      if version <= currentVersion {
        return;
      }
      currentVersion := version;
    }

    // The version held is what the payloads heard since `start` lead to.
    ghost predicate InStep(start: nat, latest: nat -> Option<nat>)
      reads this
    {
      currentVersion == Settled(start, env, parse, heard, latest)
    }

    method HandleSseChunk(chunk: string, latest: nat -> Option<nat>, ghost start: nat)
      requires InStep(start, latest)
      modifies this
      ensures InStep(start, latest)
      ensures heard == old(heard) + Found(chunk)
      ensures currentVersion ==
        if Payload(chunk).None? then old(currentVersion)
        else Settle(old(currentVersion), env, parse(Payload(chunk).value), latest(|old(heard)|))
    {
      var eventName: Option<string> := None;
      var data: Option<string> := None;
      var lines := SplitLines(chunk);
      for k := 0 to |lines|
        invariant eventName == EventName(lines[..k]) && data == Data(lines[..k])
      {
        var line := lines[k];
        assert lines[..k + 1][..k] == lines[..k];
        if StartsWith(line, ":") {
          assert line[0] == ':' && "event: "[0] == 'e' && "data: "[0] == 'd';
          continue;
        }
        if StartsWith(line, "event: ") {
          assert line[0] == "event: "[0] && line[0] != "data: "[0];
          eventName := Some(Trim(line[7..]));
        } else if StartsWith(line, "data: ") {
          data := Some(if data.None? then line[6..] else data.value + "\n" + line[6..]);
        }
      }
      assert lines[..|lines|] == lines;
      if eventName == Some("ruleset") && data.Some? && data.value != "" {
        var evt := parse(data.value);
        if evt.Some? && evt.value.env == env && evt.value.version > currentVersion {
          var ruleset := latest(|heard|);
          if ruleset.Some? {
            InstallRuleset(ruleset.value);
          }
        }
        SettledSnoc(start, env, parse, heard, data.value, latest);
        heard := heard + [data.value];
      }
    }

    // Cuts off and handles frames for as long as the buffer holds a blank line.
    method Drain(added: string, latest: nat -> Option<nat>, ghost start: nat) returns (buf: string)
      requires InStep(start, latest)
      modifies this
      ensures buf == Cut(added).rest
      ensures heard == old(heard) + Payloads(Cut(added).frames)
      ensures InStep(start, latest)
    {
      buf := added;
      ghost var done: seq<string> := [];
      var idx := GapIndex(buf);
      while idx >= 0
        invariant idx == GapIndex(buf)
        invariant Pending(added, done, buf)
        invariant heard == old(heard) + Payloads(done)
        invariant InStep(start, latest)
        decreases |buf|
      {
        var chunk := buf[..idx];
        PendingStep(added, done, buf);
        PayloadsSnoc(done, chunk);
        buf := buf[idx + 2..];
        HandleSseChunk(chunk, latest, start);
        done := done + [chunk];
        idx := GapIndex(buf);
      }
      PendingStep(added, done, buf);
    }

    // One connection: `parts` are the reads, in order. What is heard, and the
    // version held in the end, depend on the whole text alone, not on how it
    // was cut into reads.
    method Connect(parts: seq<string>, latest: nat -> Option<nat>) returns (buf: string)
      requires heard == []
      modifies this
      ensures heard == Payloads(Cut(Concat(parts)).frames)
      ensures buf == Cut(Concat(parts)).rest
      ensures currentVersion == Settled(old(currentVersion), env, parse, heard, latest)
    {
      buf := "";
      for n := 0 to |parts|
        invariant heard == Payloads(Cut(Concat(parts[..n])).frames)
        invariant buf == Cut(Concat(parts[..n])).rest
        invariant InStep(old(currentVersion), latest)
      {
        ghost var arrived := Concat(parts[..n]);
        assert parts[..n + 1] == parts[..n] + [parts[n]];
        ConcatSnoc(parts[..n], parts[n]);
        CutResumes(arrived, parts[n]);
        PayloadsConcat(Cut(arrived).frames, Cut(buf + parts[n]).frames);
        buf := Drain(buf + parts[n], latest, old(currentVersion));
      }
      assert parts[..|parts|] == parts;
    }
  }
}
