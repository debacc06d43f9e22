/** The sliding-window limiter of one consumer and route (apps/api-gateway/src/middleware/rateLimit.ts): a Lua script on
    one sorted set, against the history of the requests it accepted. */
module RateLimit {
  import opened Wrappers

  type Member = string

  // The sorted set under the key and the time the key expires. An empty set is no key at all.
  datatype Key = Key(zset: map<Member, int>, expireAt: Option<int>)

  const NO_KEY := Key(map[], None)

  datatype Reply = Reply(limited: bool, count: int, limit: int, retryAfterMs: int)

  predicate IsOldest(z: map<Member, int>, score: int) {
    (exists m :: m in z && z[m] == score) && forall m | m in z :: score <= z[m]
  }

  lemma HasOldest(z: map<Member, int>)
    requires z != map[]
    ensures exists score :: IsOldest(z, score)
    decreases |z|
  {
    var m :| m in z;
    var rest := z - {m};
    if rest == map[] {
      assert forall k | k in z :: k == m || k in rest;
      assert IsOldest(z, z[m]);
    } else {
      HasOldest(rest);
      var s :| IsOldest(rest, s);
      var w :| w in rest && rest[w] == s;
      assert forall k | k in z :: k == m || k in rest;
      var least := if z[m] < s then z[m] else s;
      assert z[w] == s;
      assert IsOldest(z, least);
    }
  }

  function Oldest(z: map<Member, int>): (score: int)
    requires z != map[]
    ensures IsOldest(z, score)
  {
    HasOldest(z);
    assert forall a, b | IsOldest(z, a) && IsOldest(z, b) :: a == b;
    var score :| IsOldest(z, score);
    score
  }

  // ---- the script ----

  function Unexpired(k: Key, now: int): map<Member, int> {
    if k.expireAt.Some? && now >= k.expireAt.value then map[] else k.zset
  }

  // ZREMRANGEBYSCORE key 0 (now - window)
  function Trimmed(z: map<Member, int>, now: int, window: int): map<Member, int> {
    map m | m in z && !(0 <= z[m] <= now - window) :: z[m]
  }

  function Retry(z: map<Member, int>, now: int, window: int): int {
    if z == map[] then window
    else
      var r := window - (now - Oldest(z));
      if r < 1 then 1 else r
  }

  function Kept(z: map<Member, int>, k: Key): Key {
    if z == map[] then NO_KEY else Key(z, k.expireAt)
  }

  function Checked(k: Key, now: int, window: int, max: int, member: Member): Key {
    var z := Trimmed(Unexpired(k, now), now, window);
    if |z| >= max then Kept(z, k) else Key(z[member := now], Some(now + window * 2))
  }

  function Answer(k: Key, now: int, window: int, max: int): Reply {
    var z := Trimmed(Unexpired(k, now), now, window);
    if |z| >= max then Reply(true, |z|, max, Retry(z, now, window)) else Reply(false, |z| + 1, max, 0)
  }

  class RateLimiter {
    var zset: map<Member, int>
    var expireAt: Option<int>

    function Value(): Key
      reads this
    {
      Key(zset, expireAt)
    }

    constructor ()
      ensures Value() == NO_KEY
    {
      zset, expireAt := map[], None;
    }

    method Check(now: int, window: int, max: int, member: Member) returns (reply: Reply)
      modifies this
      ensures Value() == Checked(old(Value()), now, window, max, member)
      ensures reply == Answer(old(Value()), now, window, max)
    {
      if expireAt.Some? && now >= expireAt.value {
        zset, expireAt := map[], None;
      }
      zset := Trimmed(zset, now, window);
      if zset == map[] {
        expireAt := None;
      }
      var count := |zset|;
      if count >= max {
        var retry := window;
        if zset != map[] {
          retry := window - (now - Oldest(zset));
          if retry < 1 {
            retry := 1;
          }
        }
        return Reply(true, count, max, retry);
      }
      zset := zset[member := now];
      expireAt := Some(now + window * 2);
      return Reply(false, count + 1, max, 0);
    }
  }

  // ---- runs ----

  datatype Request = Request(time: int, member: Member)

  // The key after a run of checks, and every request accepted so far, in order.
  datatype History = History(key: Key, accepted: seq<Request>)

  // What a check at `now` finds in the set.
  function Live(k: Key, now: int, window: int): map<Member, int> {
    Trimmed(Unexpired(k, now), now, window)
  }

  predicate Accepts(k: Key, window: int, max: int, r: Request) {
    |Live(k, r.time, window)| < max
  }

  lemma AcceptsUnlessLimited(k: Key, window: int, max: int, r: Request)
    ensures Accepts(k, window, max, r) <==> !Answer(k, r.time, window, max).limited
    ensures Accepts(k, window, max, r) <==> Answer(k, r.time, window, max).count == |Live(k, r.time, window)| + 1
    ensures Checked(k, r.time, window, max, r.member).zset
         == Live(k, r.time, window) + if Accepts(k, window, max, r) then map[r.member := r.time] else map[]
    ensures Accepts(k, window, max, r) ==>
        Checked(k, r.time, window, max, r.member).expireAt == Some(r.time + 2 * window)
    ensures !Accepts(k, window, max, r) ==>
              Checked(k, r.time, window, max, r.member).expireAt
              == if Live(k, r.time, window) == map[] then None else k.expireAt
    ensures !Accepts(k, window, max, r) && Live(k, r.time, window) == map[] ==>
              Answer(k, r.time, window, max).retryAfterMs == window
  {
  }

  function Next(h: History, window: int, max: int, r: Request): History {
    History(Checked(h.key, r.time, window, max, r.member),
            if Accepts(h.key, window, max, r) then h.accepted + [r] else h.accepted)
  }

  function Start(): History {
    History(NO_KEY, [])
  }

  function Run(window: int, max: int, h: History, rs: seq<Request>): History
    decreases |rs|
  {
    if rs == [] then h else Run(window, max, Next(h, window, max, rs[0]), rs[1..])
  }

  // One clock that never goes back.
  ghost predicate Clocked(now: int, rs: seq<Request>)
    decreases |rs|
  {
    rs == [] || (now <= rs[0].time && Clocked(rs[0].time, rs[1..]))
  }

  // The clock after a run: the last check's time.
  ghost function Clock(now: int, rs: seq<Request>): int {
    if rs == [] then now else rs[|rs| - 1].time
  }

  // ---- the set against the history ----

  // The last time each member was accepted.
  ghost function Latest(accepted: seq<Request>): map<Member, int> {
    if accepted == [] then map[]
    else
      var r := accepted[|accepted| - 1];
      Latest(accepted[..|accepted| - 1])[r.member := r.time]
  }

  lemma LatestSnoc(accepted: seq<Request>, r: Request)
    ensures Latest(accepted + [r]) == Latest(accepted)[r.member := r.time]
  {
    assert (accepted + [r])[..|accepted|] == accepted;
  }

  // Request i is the last accepted one with its member.
  ghost predicate LastOf(accepted: seq<Request>, i: nat) {
    i < |accepted| && forall j | i < j < |accepted| :: accepted[j].member != accepted[i].member
  }

  lemma {:induction false} LatestOfLast(accepted: seq<Request>, i: nat)
    requires LastOf(accepted, i)
    ensures accepted[i].member in Latest(accepted) && Latest(accepted)[accepted[i].member] == accepted[i].time
    decreases |accepted|
  {
    var init := accepted[..|accepted| - 1];
    if i < |init| {
      assert forall j | i <= j < |init| :: init[j] == accepted[j];
      LatestOfLast(init, i);
    }
  }

  lemma {:induction false} LastOfLatest(accepted: seq<Request>, m: Member) returns (i: nat)
    requires m in Latest(accepted)
    ensures LastOf(accepted, i) && accepted[i] == Request(Latest(accepted)[m], m)
    decreases |accepted|
  {
    var init := accepted[..|accepted| - 1];
    if accepted[|init|].member == m {
      i := |init|;
    } else {
      i := LastOfLatest(init, m);
      assert forall j | i <= j < |init| :: init[j] == accepted[j];
    }
  }

  // The set seen from the history, `now` being the last check's time.
  ghost predicate Mirrors(h: History, now: int, window: int) {
    var latest := Latest(h.accepted);
    && h.key.zset == (map m | m in latest && latest[m] > now - window :: latest[m])
    && (forall m | m in latest :: 0 <= latest[m] <= now)
    && (h.key.expireAt.Some? ==> forall m | m in latest :: latest[m] + 2 * window <= h.key.expireAt.value)
  }

  /** Neither the key's expiry nor the trim drops a member accepted inside the window, and nothing older survives. */
  lemma TrimIsWindow(h: History, now: int, later: int, window: int)
    requires Mirrors(h, now, window) && now <= later && 1 <= window
    ensures var latest := Latest(h.accepted);
            Live(h.key, later, window) == map m | m in latest && latest[m] > later - window :: latest[m]
  {
  }

  lemma MirroredNext(h: History, now: int, window: int, max: int, r: Request, g: History)
    requires Mirrors(h, now, window) && 1 <= window && 0 <= now <= r.time && g == Next(h, window, max, r)
    ensures Mirrors(g, r.time, window)
  {
    TrimIsWindow(h, now, r.time, window);
    LatestSnoc(h.accepted, r);
    var latest := Latest(g.accepted);
    assert g.key.zset == map m | m in latest && latest[m] > r.time - window :: latest[m];
  }

  lemma {:induction false} MirroredRun(window: int, max: int, h: History, now: int, rs: seq<Request>)
    requires Mirrors(h, now, window) && 1 <= window && 0 <= now && Clocked(now, rs)
    ensures Mirrors(Run(window, max, h, rs), Clock(now, rs), window) && 0 <= Clock(now, rs)
    decreases |rs|
  {
    if rs != [] {
      var g := Next(h, window, max, rs[0]);
      MirroredNext(h, now, window, max, rs[0], g);
      MirroredRun(window, max, g, rs[0].time, rs[1..]);
    }
  }

  /** After every run, repeated members or not, the set holds exactly the members accepted within the window of the last
      check, each at the time of its last acceptance. */
  lemma SetIsWindow(window: int, max: int, rs: seq<Request>, m: Member)
    requires Clocked(0, rs) && 1 <= window
    ensures var h := Run(window, max, Start(), rs);
            && (m in h.key.zset ==>
                  exists i: nat :: LastOf(h.accepted, i) && h.accepted[i] == Request(h.key.zset[m], m))
            && (forall i: nat | LastOf(h.accepted, i) && h.accepted[i].member == m ::
                  m in h.key.zset <==> h.accepted[i].time > Clock(0, rs) - window)
  {
    MirroredRun(window, max, Start(), 0, rs);
    var accepted := Run(window, max, Start(), rs).accepted;
    if m in Latest(accepted) {
      var i := LastOfLatest(accepted, m);
    }
    forall i: nat | LastOf(accepted, i) && accepted[i].member == m
      ensures m in Latest(accepted) && Latest(accepted)[m] == accepted[i].time
    {
      LatestOfLast(accepted, i);
    }
  }

  // The bound, with no room at all for a negative maximum.
  ghost function AtLeastZero(n: int): nat {
    if n < 0 then 0 else n
  }

  lemma TrimShrinks(z: map<Member, int>, now: int, window: int)
    ensures |Trimmed(z, now, window)| <= |z|
  {
    SubsetSize(Trimmed(z, now, window).Keys, z.Keys);
  }

  lemma FitsNext(h: History, window: int, max: int, r: Request)
    requires |h.key.zset| <= AtLeastZero(max)
    ensures |Next(h, window, max, r).key.zset| <= AtLeastZero(max)
  {
    TrimShrinks(Unexpired(h.key, r.time), r.time, window);
  }

  lemma {:induction false} SetFits(window: int, max: int, h: History, rs: seq<Request>)
    requires |h.key.zset| <= AtLeastZero(max)
    ensures |Run(window, max, h, rs).key.zset| <= AtLeastZero(max)
    decreases |rs|
  {
    if rs != [] {
      FitsNext(h, window, max, rs[0]);
      SetFits(window, max, Next(h, window, max, rs[0]), rs[1..]);
    }
  }

  // ---- how many are accepted ----

  // The accepted requests in (t - window, t].
  ghost function Window(accepted: seq<Request>, t: int, window: int): set<nat> {
    set i: nat | i < |accepted| && t - window < accepted[i].time <= t
  }

  // The request is accepted under a member that is still live in the set: its entry is moved, not added.
  predicate Repeats(h: History, window: int, max: int, r: Request) {
    Accepts(h.key, window, max, r) && r.member in Live(h.key, r.time, window)
  }

  // No check of the run is such a repeat.
  ghost predicate RepeatFree(window: int, max: int, h: History, rs: seq<Request>)
    decreases |rs|
  {
    rs == [] ||
    (!Repeats(h, window, max, rs[0]) && RepeatFree(window, max, Next(h, window, max, rs[0]), rs[1..]))
  }

  // An accepted request with a later namesake has left the window.
  ghost predicate Apart(accepted: seq<Request>, now: int, window: int) {
    forall i, j | 0 <= i < j < |accepted| && accepted[i].member == accepted[j].member ::
        accepted[i].time <= now - window
  }

  lemma ApartNext(h: History, now: int, window: int, max: int, r: Request, g: History)
    requires Mirrors(h, now, window) && 1 <= window && 0 <= now <= r.time && Apart(h.accepted, now, window)
    requires !Repeats(h, window, max, r) && g == Next(h, window, max, r)
    ensures Apart(g.accepted, r.time, window)
  {
    TrimIsWindow(h, now, r.time, window);
    forall i: nat | i < |h.accepted| && h.accepted[i].member == r.member && Accepts(h.key, window, max, r)
      ensures h.accepted[i].time <= r.time - window
    {
      if h.accepted[i].time > r.time - window {
        assert LastOf(h.accepted, i);
        LatestOfLast(h.accepted, i);
      }
    }
  }

  // Requests with members of their own are as many as their members.
  lemma {:induction false} MembersCount(accepted: seq<Request>, ids: set<nat>)
    requires forall i | i in ids :: i < |accepted|
    requires forall i, j | i in ids && j in ids && i != j :: accepted[i].member != accepted[j].member
    ensures |set i | i in ids :: accepted[i].member| == |ids|
    decreases |ids|
  {
    if ids != {} {
      var k :| k in ids;
      var rest := ids - {k};
      MembersCount(accepted, rest);
      var names := set i | i in rest :: accepted[i].member;
      assert accepted[k].member !in names;
      assert (set i | i in ids :: accepted[i].member) == names + {accepted[k].member};
    }
  }

  lemma NamesAreLive(h: History, now: int, later: int, window: int, i: nat)
    requires Mirrors(h, now, window) && Apart(h.accepted, now, window) && now <= later && 1 <= window
    requires i < |h.accepted| && h.accepted[i].time > later - window
    ensures h.accepted[i].member in Live(h.key, later, window) && h.accepted[i].time <= later
  {
    TrimIsWindow(h, now, later, window);
    assert LastOf(h.accepted, i);
    LatestOfLast(h.accepted, i);
  }

  lemma LiveAreNames(h: History, now: int, later: int, window: int, m: Member) returns (i: nat)
    requires Mirrors(h, now, window) && now <= later && 1 <= window && m in Live(h.key, later, window)
    ensures i < |h.accepted| && h.accepted[i].time > later - window && h.accepted[i].member == m
  {
    TrimIsWindow(h, now, later, window);
    i := LastOfLatest(h.accepted, m);
  }

  // The set counts right: it has one entry for each request accepted within the window of a check at `later`.
  lemma LiveCounts(h: History, now: int, later: int, window: int)
    requires Mirrors(h, now, window) && Apart(h.accepted, now, window) && now <= later && 1 <= window
    ensures |Window(h.accepted, later, window)| == |Live(h.key, later, window)|
  {
    var ids, z := Window(h.accepted, later, window), Live(h.key, later, window);
    MembersCount(h.accepted, ids);
    var names := set i | i in ids :: h.accepted[i].member;
    forall m | m in names ensures m in z {
      var i :| i in ids && h.accepted[i].member == m;
      NamesAreLive(h, now, later, window, i);
    }
    forall m | m in z ensures m in names {
      var i := LiveAreNames(h, now, later, window, m);
      NamesAreLive(h, now, later, window, i);
      assert i in ids;
    }
    assert names == z.Keys;
  }

  // What a repeat-free run keeps.
  ghost predicate Sound(h: History, now: int, window: int, max: int) {
    && Mirrors(h, now, window) && Apart(h.accepted, now, window) && 0 <= now && |h.key.zset| <= AtLeastZero(max)
    && forall t :: Bounded(h.accepted, t, window, max)
  }

  ghost predicate Bounded(accepted: seq<Request>, t: int, window: int, max: int) {
    |Window(accepted, t, window)| <= AtLeastZero(max)
  }

  lemma BoundedNext(h: History, now: int, window: int, max: int, r: Request, g: History, t: int)
    requires Mirrors(h, now, window) && Apart(h.accepted, now, window) && 1 <= window && 0 <= now <= r.time
    requires Bounded(h.accepted, t, window, max) && g == Next(h, window, max, r)
    ensures Bounded(g.accepted, t, window, max)
  {
    if Accepts(h.key, window, max, r) {
      if t < r.time {
        SubsetSize(Window(g.accepted, t, window), Window(h.accepted, t, window));
      } else {
        LiveCounts(h, now, r.time, window);
        var live := Window(h.accepted, r.time, window);
        forall i | i in Window(g.accepted, t, window) && i != |h.accepted| ensures i in live {
          NoneAhead(h, now, window, i);
        }
        SubsetSize(Window(g.accepted, t, window), live + {|h.accepted|});
      }
    }
  }

  // No accepted request is later than the last check.
  lemma NoneAhead(h: History, now: int, window: int, i: nat)
    requires Mirrors(h, now, window) && Apart(h.accepted, now, window) && 1 <= window && i < |h.accepted|
    ensures h.accepted[i].time <= now
  {
    if h.accepted[i].time > now {
      NamesAreLive(h, now, now, window, i);
    }
  }

  lemma SoundNext(h: History, now: int, window: int, max: int, r: Request, g: History)
    requires Sound(h, now, window, max) && 1 <= window && now <= r.time && !Repeats(h, window, max, r)
    requires g == Next(h, window, max, r)
    ensures Sound(g, r.time, window, max)
  {
    MirroredNext(h, now, window, max, r, g);
    ApartNext(h, now, window, max, r, g);
    FitsNext(h, window, max, r);
    forall t ensures Bounded(g.accepted, t, window, max) {
      BoundedNext(h, now, window, max, r, g, t);
    }
  }

  lemma FirstStep(window: int, max: int, h: History, now: int, rs: seq<Request>, h1: History, end: int, g: History)
    requires Clocked(now, rs) && RepeatFree(window, max, h, rs) && h1 == Run(window, max, h, rs)
        && end == Clock(now, rs)
    requires rs != [] && g == Next(h, window, max, rs[0])
    ensures now <= rs[0].time && !Repeats(h, window, max, rs[0])
    ensures Clocked(rs[0].time, rs[1..]) && RepeatFree(window, max, g, rs[1..])
    ensures h1 == Run(window, max, g, rs[1..]) && end == Clock(rs[0].time, rs[1..])
  {
  }

  lemma {:induction false} SoundRun(window: int, max: int, h: History, now: int, rs: seq<Request>, h1: History,
                                    end: int)
    requires Sound(h, now, window, max) && 1 <= window && Clocked(now, rs) && RepeatFree(window, max, h, rs)
    requires h1 == Run(window, max, h, rs) && end == Clock(now, rs)
    ensures Sound(h1, end, window, max)
    decreases |rs|
  {
    if rs != [] {
      var g := Next(h, window, max, rs[0]);
      FirstStep(window, max, h, now, rs, h1, end, g);
      SoundNext(h, now, window, max, rs[0], g);
      SoundRun(window, max, g, rs[0].time, rs[1..], h1, end);
    }
  }

  lemma StartIsSound(window: int, max: int)
    ensures Sound(Start(), 0, window, max)
  {
    forall t ensures Bounded([], t, window, max) {
      assert Window([], t, window) == {};
    }
  }

  /** Every interval (t - window, t], wherever it lies, holds at most `max` accepted requests, over every run in which
      no request is accepted under a member still live. Limited requests and members long gone may repeat. */
  lemma WindowBound(window: int, max: int, rs: seq<Request>, t: int)
    requires Clocked(0, rs) && 1 <= window && RepeatFree(window, max, Start(), rs)
    ensures |Window(Run(window, max, Start(), rs).accepted, t, window)| <= AtLeastZero(max)
  {
    StartIsSound(window, max);
    var h := Run(window, max, Start(), rs);
    SoundRun(window, max, Start(), 0, rs, h, Clock(0, rs));
    assert Bounded(h.accepted, t, window, max);
  }

  /** Where no member repeats, the reply counts the requests accepted within the window of the check, its own included,
      and names the limit; an accepted request is told to wait no time. */
  lemma ReplyCounts(window: int, max: int, rs: seq<Request>, h: History, r: Request, reply: Reply)
    requires Clocked(0, rs) && Clock(0, rs) <= r.time && 1 <= window && RepeatFree(window, max, Start(), rs)
    requires h == Run(window, max, Start(), rs) && !Repeats(h, window, max, r)
    requires reply == Answer(h.key, r.time, window, max)
    ensures reply.limit == max && reply.count == |Window(Next(h, window, max, r).accepted, r.time, window)|
    ensures reply.limited <==> |Window(h.accepted, r.time, window)| >= max
    ensures !reply.limited ==> reply.retryAfterMs == 0
  {
    StartIsSound(window, max);
    SoundRun(window, max, Start(), 0, rs, h, Clock(0, rs));
    LiveCounts(h, Clock(0, rs), r.time, window);
    if Accepts(h.key, window, max, r) {
      WindowAppends(h.accepted, r.time, window, [r]);
    }
  }

  // ---- what a repeat costs ----

  // Requests of one instant under members new to the set and to each other.
  ghost predicate Fresh(zset: map<Member, int>, t: int, more: seq<Request>) {
    && (forall i | 0 <= i < |more| :: more[i].time == t && more[i].member !in zset)
    && (forall i, j | 0 <= i < j < |more| :: more[i].member != more[j].member)
  }

  lemma FreshNext(h: History, window: int, max: int, r: Request, g: History)
    requires 1 <= window && g == Next(h, window, max, r)
    requires Live(h.key, r.time, window) == h.key.zset && |h.key.zset| < max && r.member !in h.key.zset
    ensures !Repeats(h, window, max, r) && g.accepted == h.accepted + [r]
    ensures g.key == Key(h.key.zset[r.member := r.time], Some(r.time + window * 2))
  {
  }

  lemma GrownLives(z: map<Member, int>, r: Request, window: int, k: Key)
    requires 1 <= window && k == Key(z[r.member := r.time], Some(r.time + window * 2)) && r.member !in z
    requires forall m | m in z :: !(0 <= z[m] <= r.time - window)
    ensures Live(k, r.time, window) == k.zset && |k.zset| == |z| + 1
  {
    assert k.zset.Keys == z.Keys + {r.member};
  }

  lemma FreshStep(window: int, max: int, h: History, t: int, more: seq<Request>, g: History)
    requires 1 <= window && Live(h.key, t, window) == h.key.zset && more != []
    requires Fresh(h.key.zset, t, more) && |h.key.zset| < max && g == Next(h, window, max, more[0])
    ensures !Repeats(h, window, max, more[0]) && g.accepted == h.accepted + [more[0]] && more[0].time == t
    ensures Live(g.key, t, window) == g.key.zset && |g.key.zset| == |h.key.zset| + 1
    ensures Fresh(g.key.zset, t, more[1..])
  {
    FreshNext(h, window, max, more[0], g);
    Untrimmed(h.key, t, window);
    GrownLives(h.key.zset, more[0], window, g.key);
  }

  // The set is trimmed and has room for these fresh requests.
  ghost predicate Room(window: int, max: int, h: History, t: int, more: seq<Request>) {
    Live(h.key, t, window) == h.key.zset && Fresh(h.key.zset, t, more) && |h.key.zset| + |more| <= max
  }

  lemma RoomStep(window: int, max: int, h: History, t: int, more: seq<Request>, g: History)
    requires 1 <= window && Room(window, max, h, t, more) && more != [] && g == Next(h, window, max, more[0])
    ensures !Repeats(h, window, max, more[0]) && g.accepted == h.accepted + [more[0]] && more[0].time == t
    ensures Room(window, max, g, t, more[1..])
  {
    FreshStep(window, max, h, t, more, g);
  }

  lemma FirstFresh(window: int, max: int, h: History, t: int, more: seq<Request>, g: History)
    requires more != [] && g == Next(h, window, max, more[0])
    requires more[0].time == t && !Repeats(h, window, max, more[0])
    requires Clocked(t, more[1..]) && RepeatFree(window, max, g, more[1..])
    ensures Clocked(t, more) && RepeatFree(window, max, h, more)
  {
  }

  lemma RunFirst(window: int, max: int, h: History, more: seq<Request>, h1: History, g: History)
    requires more != [] && g == Next(h, window, max, more[0]) && h1 == Run(window, max, h, more)
    ensures h1 == Run(window, max, g, more[1..])
  {
  }

  // All of them pass.
  lemma {:induction false} FreshPass(window: int, max: int, h: History, t: int, more: seq<Request>, h1: History)
    requires 1 <= window && Room(window, max, h, t, more) && h1 == Run(window, max, h, more)
    ensures Clocked(t, more) && RepeatFree(window, max, h, more) && h1.accepted == h.accepted + more
    decreases |more|
  {
    if more != [] {
      var g := Next(h, window, max, more[0]);
      RoomStep(window, max, h, t, more, g);
      RunFirst(window, max, h, more, h1, g);
      FreshPass(window, max, g, t, more[1..], h1);
      FirstFresh(window, max, h, t, more, g);
      assert more == [more[0]] + more[1..];
    }
  }

  lemma Untrimmed(k: Key, t: int, window: int)
    requires Live(k, t, window) == k.zset
    ensures forall m | m in k.zset :: !(0 <= k.zset[m] <= t - window)
  {
    forall m | m in k.zset ensures !(0 <= k.zset[m] <= t - window) {
      assert m in Live(k, t, window);
    }
  }

  lemma {:induction false} WindowAppends(accepted: seq<Request>, t: int, window: int, more: seq<Request>)
    requires 1 <= window && forall i | 0 <= i < |more| :: more[i].time == t
    ensures |Window(accepted + more, t, window)| == |Window(accepted, t, window)| + |more|
    decreases |more|
  {
    if more == [] {
      assert accepted + more == accepted;
    } else {
      var init := more[..|more| - 1];
      WindowAppends(accepted, t, window, init);
      var all := accepted + more;
      assert forall i: nat | i < |accepted + init| :: all[i] == (accepted + init)[i];
      assert Window(all, t, window) == Window(accepted + init, t, window) + {|all| - 1};
    }
  }

  // The window gains a request and the set gains no entry.
  lemma RepeatMoves(window: int, max: int, h: History, now: int, r: Request, g: History)
    requires Sound(h, now, window, max) && 1 <= window && now <= r.time
    requires Repeats(h, window, max, r) && g == Next(h, window, max, r)
    ensures |Window(g.accepted, r.time, window)| == |g.key.zset| + 1
    ensures Live(g.key, r.time, window) == g.key.zset && |g.key.zset| <= max
  {
    LiveCounts(h, now, r.time, window);
    FitsNext(h, window, max, r);
    var z := Live(h.key, r.time, window);
    assert g.key.zset == z[r.member := r.time];
    assert g.key.zset.Keys == z.Keys;
    WindowAppends(h.accepted, r.time, window, [r]);
  }

  lemma Overrun(window: int, max: int, h: History, now: int, r: Request, g: History, more: seq<Request>)
    requires Sound(h, now, window, max) && 1 <= window && now <= r.time
    requires Repeats(h, window, max, r) && g == Next(h, window, max, r)
    requires Fresh(g.key.zset, r.time, more) && |g.key.zset| + |more| == max
    ensures Clocked(r.time, more) && RepeatFree(window, max, g, more)
    ensures |Window(Run(window, max, g, more).accepted, r.time, window)| == max + 1
  {
    RepeatMoves(window, max, h, now, r, g);
    FreshPass(window, max, g, r.time, more, Run(window, max, g, more));
    WindowAppends(g.accepted, r.time, window, more);
  }

  /** Once a request is accepted under a live member, all the fresh requests there is room for in the same instant pass
      too, and with them the window holds max + 1. */
  lemma RepeatOverruns(window: int, max: int, rs: seq<Request>, r: Request, more: seq<Request>)
    requires Clocked(0, rs) && Clock(0, rs) <= r.time && 1 <= window && RepeatFree(window, max, Start(), rs)
    requires Repeats(Run(window, max, Start(), rs), window, max, r)
    requires var g := Next(Run(window, max, Start(), rs), window, max, r);
             Fresh(g.key.zset, r.time, more) && |g.key.zset| + |more| == max
    ensures var g := Next(Run(window, max, Start(), rs), window, max, r);
            RepeatFree(window, max, g, more)
            && |Window(Run(window, max, g, more).accepted, r.time, window)| == max + 1
  {
    var h := Run(window, max, Start(), rs);
    StartIsSound(window, max);
    SoundRun(window, max, Start(), 0, rs, h, Clock(0, rs));
    Overrun(window, max, h, Clock(0, rs), r, Next(h, window, max, r), more);
  }

  // ---- there are always fresh members ----

  function Marks(n: nat): (s: string)
    ensures |s| == n
  {
    seq(n, _ => 'x')
  }

  lemma {:induction false} LongerThanAll(names: set<Member>) returns (n: nat)
    ensures forall m | m in names :: |m| < n
    decreases |names|
  {
    if names == {} {
      n := 0;
    } else {
      var m :| m in names;
      n := LongerThanAll(names - {m});
      n := if |m| < n then n else |m| + 1;
    }
  }

  lemma FreshExist(zset: map<Member, int>, t: int, count: nat) returns (more: seq<Request>)
    ensures |more| == count && Fresh(zset, t, more)
  {
    var n := LongerThanAll(zset.Keys);
    more := seq(count, i requires 0 <= i => Request(t, Marks(n + i)));
    forall i | 0 <= i < count ensures more[i].time == t && |more[i].member| == n + i {
      assert more[i] == Request(t, Marks(n + i));
    }
  }

  /** After a run without repeats, the next request leaves the bound safe for every repeat-free continuation if and only
      if it is not itself accepted under a live member. */
  lemma BoundHoldsIff(window: int, max: int, rs: seq<Request>, r: Request)
    requires Clocked(0, rs) && Clock(0, rs) <= r.time && 1 <= window && RepeatFree(window, max, Start(), rs)
    ensures var h := Run(window, max, Start(), rs);
            var g := Next(h, window, max, r);
            !Repeats(h, window, max, r) <==>
              forall more: seq<Request>, t: int | Clocked(r.time, more) && RepeatFree(window, max, g, more) ::
                |Window(Run(window, max, g, more).accepted, t, window)| <= AtLeastZero(max)
  {
    var h := Run(window, max, Start(), rs);
    var g := Next(h, window, max, r);
    StartIsSound(window, max);
    SoundRun(window, max, Start(), 0, rs, h, Clock(0, rs));
    if Repeats(h, window, max, r) {
      RepeatMoves(window, max, h, Clock(0, rs), r, g);
      var more := FreshExist(g.key.zset, r.time, max - |g.key.zset|);
      Overrun(window, max, h, Clock(0, rs), r, g, more);
    } else {
      SoundNext(h, Clock(0, rs), window, max, r, g);
      forall more: seq<Request>, t: int | Clocked(r.time, more) && RepeatFree(window, max, g, more)
        ensures |Window(Run(window, max, g, more).accepted, t, window)| <= AtLeastZero(max)
      {
        var h1 := Run(window, max, g, more);
        SoundRun(window, max, g, r.time, more, h1, Clock(r.time, more));
        assert Bounded(h1.accepted, t, window, max);
      }
    }
  }

  // ---- how long a limited caller has to wait ----

  // A full set whose oldest entry is `oldest`, seen by a check at `now`.
  ghost predicate Full(k: Key, now: int, window: int, max: int, oldest: int) {
    && |k.zset| >= max && k.zset != map[] && IsOldest(k.zset, oldest) && 0 <= oldest <= now < oldest + window
    && (k.expireAt.Some? ==> oldest + 2 * window <= k.expireAt.value)
  }

  lemma StaysFull(k: Key, now: int, window: int, max: int, oldest: int, r: Request)
    requires Full(k, now, window, max, oldest) && now <= r.time < oldest + window && 1 <= window
    ensures Refuses(k, window, max, r)
  {
    assert Trimmed(Unexpired(k, r.time), r.time, window) == k.zset;
  }

  // The check is limited and leaves the key as it is.
  predicate Refuses(k: Key, window: int, max: int, r: Request) {
    Answer(k, r.time, window, max).limited && Checked(k, r.time, window, max, r.member) == k
  }

  ghost predicate AllRefused(k: Key, window: int, max: int, later: seq<Request>) {
    forall i | 0 <= i < |later| :: Refuses(k, window, max, later[i])
  }

  lemma AllLimited(k: Key, now: int, window: int, max: int, oldest: int, later: seq<Request>)
    requires Full(k, now, window, max, oldest) && 1 <= window
    requires forall i | 0 <= i < |later| :: now <= later[i].time < oldest + window
    ensures AllRefused(k, window, max, later)
  {
    forall i | 0 <= i < |later| ensures Refuses(k, window, max, later[i]) {
      StaysFull(k, now, window, max, oldest, later[i]);
    }
  }

  lemma RoomAgain(k: Key, now: int, window: int, max: int, oldest: int)
    requires Full(k, now, window, max, oldest) && 1 <= window && |k.zset| <= max
    ensures !Answer(k, oldest + window, window, max).limited
  {
    var z := Trimmed(Unexpired(k, oldest + window), oldest + window, window);
    var m :| m in k.zset && k.zset[m] == oldest;
    assert z.Keys <= k.zset.Keys - {m};
    SubsetSize(z.Keys, k.zset.Keys - {m});
  }

  // A limited check leaves a full set, and its retry reaches to the expiry of the oldest entry.
  lemma LimitedIsFull(window: int, max: int, h: History, now: int, r: Request, k: Key)
    requires 1 <= window && 1 <= max && Mirrors(h, now, window) && 0 <= now <= r.time && |h.key.zset| <= max
    requires !Accepts(h.key, window, max, r) && k == Next(h, window, max, r).key
    ensures k.zset != map[] && Full(k, r.time, window, max, Oldest(k.zset)) && |k.zset| <= max
    ensures Answer(h.key, r.time, window, max).retryAfterMs == Oldest(k.zset) + window - r.time
  {
    TrimIsWindow(h, now, r.time, window);
    TrimShrinks(Unexpired(h.key, r.time), r.time, window);
    var z := Live(h.key, r.time, window);
    assert k.zset == z;
    var m :| m in z && z[m] == Oldest(z);
  }

  lemma RetryFrom(window: int, max: int, h: History, now: int, r: Request, reply: Reply, k: Key, later: seq<Request>)
    requires 1 <= window && 1 <= max && Mirrors(h, now, window) && 0 <= now <= r.time && |h.key.zset| <= max
    requires reply == Answer(h.key, r.time, window, max) && k == Next(h, window, max, r).key && reply.limited
    requires forall i | 0 <= i < |later| :: r.time <= later[i].time < r.time + reply.retryAfterMs
    ensures 1 <= reply.retryAfterMs && AllRefused(k, window, max, later)
    ensures !Answer(k, r.time + reply.retryAfterMs, window, max).limited
  {
    LimitedIsFull(window, max, h, now, r, k);
    var oldest := Oldest(k.zset);
    assert r.time + reply.retryAfterMs == oldest + window;
    AllLimited(k, r.time, window, max, oldest, later);
    RoomAgain(k, r.time, window, max, oldest);
  }

  lemma Reached(window: int, max: int, rs: seq<Request>, h: History)
    requires 1 <= window && Clocked(0, rs) && h == Run(window, max, Start(), rs)
    ensures Mirrors(h, Clock(0, rs), window) && 0 <= Clock(0, rs) && |h.key.zset| <= AtLeastZero(max)
  {
    MirroredRun(window, max, Start(), 0, rs);
    SetFits(window, max, Start(), rs);
  }

  /** The answer to a limited check is exact: with retry r and nothing accepted in between, r is at least 1, every check
      before now + r is limited and leaves the set alone, and a check at now + r is accepted. */
  lemma RetryExact(window: int, max: int, rs: seq<Request>, h: History, r: Request, reply: Reply, k: Key,
                   later: seq<Request>)
    requires 1 <= window && 1 <= max && Clocked(0, rs) && Clock(0, rs) <= r.time && h == Run(window, max, Start(), rs)
    requires reply == Answer(h.key, r.time, window, max) && k == Next(h, window, max, r).key && reply.limited
    requires forall i | 0 <= i < |later| :: r.time <= later[i].time < r.time + reply.retryAfterMs
    ensures 1 <= reply.retryAfterMs && AllRefused(k, window, max, later)
    ensures !Answer(k, r.time + reply.retryAfterMs, window, max).limited
  {
    Reached(window, max, rs, h);
    RetryFrom(window, max, h, Clock(0, rs), r, reply, k, later);
  }
}
