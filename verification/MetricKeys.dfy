/** Metric keys (apps/api-gateway/src/metrics/counters.ts). */
module MetricKeys {
  import opened Wrappers

  // A counter is stored under a text made of its name and labels; a reader that
  // takes such a text apart again shows that different counters never share one.

  // ----- Escaping

  // v.replace(/c/g, to)
  function Replace(v: string, c: char, to: string): string {
    if v == "" then "" else (if v[0] == c then to else [v[0]]) + Replace(v[1..], c, to)
  }

  function Escape(v: string): string {
    Replace(Replace(Replace(v, '\\', "\\\\"), '"', "\\\""), '\n', "\\n")
  }

  function EscapeChar(c: char): string {
    if c == '\\' then "\\\\" else if c == '"' then "\\\"" else if c == '\n' then "\\n" else [c]
  }

  function EscapeOnce(v: string): string {
    if v == "" then "" else EscapeChar(v[0]) + EscapeOnce(v[1..])
  }

  lemma {:induction false} ReplaceConcat(a: string, b: string, c: char, to: string)
    ensures Replace(a + b, c, to) == Replace(a, c, to) + Replace(b, c, to)
    decreases |a|
  {
    if a == "" {
      assert a + b == b;
    } else {
      assert (a + b)[1..] == a[1..] + b;
      ReplaceConcat(a[1..], b, c, to);
    }
  }

  lemma ReplaceOne(d: char, c: char, to: string)
    ensures Replace([d], c, to) == if d == c then to else [d]
  {
    assert [d][1..] == "";
  }

  // The later replacements leave what the earlier ones wrote alone.
  lemma EscapeOneChar(d: char)
    ensures Escape([d]) == EscapeChar(d)
  {
    ReplaceOne(d, '\\', "\\\\");
    if d == '\\' {
      assert "\\\\" == ['\\'] + ['\\'];
      ReplaceConcat(['\\'], ['\\'], '"', "\\\"");
      ReplaceConcat(['\\'], ['\\'], '\n', "\\n");
      ReplaceOne('\\', '"', "\\\"");
      ReplaceOne('\\', '\n', "\\n");
    } else if d == '"' {
      ReplaceOne('"', '"', "\\\"");
      assert "\\\"" == ['\\'] + ['"'];
      ReplaceConcat(['\\'], ['"'], '\n', "\\n");
      ReplaceOne('\\', '\n', "\\n");
      ReplaceOne('"', '\n', "\\n");
    } else {
      ReplaceOne(d, '"', "\\\"");
      ReplaceOne(d, '\n', "\\n");
    }
  }

  /** The three replacements one after the other are a single pass over the text. */
  lemma {:induction false} EscapeIsOnePass(v: string)
    ensures Escape(v) == EscapeOnce(v)
    decreases |v|
  {
    if v != "" {
      var head, tail := [v[0]], v[1..];
      assert v == head + tail;
      ReplaceConcat(head, tail, '\\', "\\\\");
      ReplaceConcat(Replace(head, '\\', "\\\\"), Replace(tail, '\\', "\\\\"), '"', "\\\"");
      ReplaceConcat(Replace(Replace(head, '\\', "\\\\"), '"', "\\\""),
                    Replace(Replace(tail, '\\', "\\\\"), '"', "\\\""),
                    '\n', "\\n");
      EscapeOneChar(v[0]);
      EscapeIsOnePass(tail);
    }
  }

  // Reads an escaped value up to the quote that ends it.
  function ReadValue(s: string): (r: Option<(string, string)>)
    ensures r.Some? ==> |r.value.1| < |s|
  {
    if s == "" then None
    else if s[0] == '"' then Some(("", s[1..]))
    else if s[0] != '\\' then
      var r := ReadValue(s[1..]);
      if r.None? then None else Some(([s[0]] + r.value.0, r.value.1))
    else if |s| < 2 || s[1] !in "\\\"n" then None
    else
      var r := ReadValue(s[2..]);
      if r.None? then None else Some(([if s[1] == 'n' then '\n' else s[1]] + r.value.0, r.value.1))
  }

  lemma {:induction false} ReadUndoesEscape(v: string, after: string)
    ensures ReadValue(Escape(v) + "\"" + after) == Some((v, after))
    decreases |v|
  {
    EscapeIsOnePass(v);
    var s := EscapeOnce(v) + "\"" + after;
    if v == "" {
      assert s == "\"" + after;
      assert s[0] == '"' && s[1..] == after;
    } else {
      var e := EscapeChar(v[0]);
      var rest := EscapeOnce(v[1..]) + "\"" + after;
      assert s == e + rest;
      EscapeIsOnePass(v[1..]);
      ReadUndoesEscape(v[1..], after);
      assert s[|e|..] == rest;
      assert s[0] == e[0];
      if |e| == 2 {
        assert s[1] == e[1];
        assert e[1] in "\\\"n";
      }
      assert v == [v[0]] + v[1..];
    }
  }

  // ----- Keys

  datatype Entry = Entry(name: string, value: string)

  // A metric as a reader of the rendered text sees it: its labels in order.
  datatype Metric = Metric(name: string, entries: seq<Entry>)

  function Part(e: Entry): string {
    e.name + "=\"" + Escape(e.value) + "\""
  }

  function JoinParts(entries: seq<Entry>): string
    requires entries != []
  {
    if |entries| == 1 then Part(entries[0]) else Part(entries[0]) + "," + JoinParts(entries[1..])
  }

  function KeyText(m: Metric): string {
    if m.entries == [] then m.name else m.name + "{" + JoinParts(m.entries) + "}"
  }

  function IndexOf(s: string, c: char): (i: nat)
    ensures i <= |s|
    ensures c !in s[..i]
    ensures i < |s| ==> s[i] == c
  {
    if s == "" || s[0] == c then 0
    else
      var i := IndexOf(s[1..], c);
      assert s[..1 + i] == [s[0]] + s[1..][..i];
      1 + i
  }

  // One rendered entry and what follows it.
  function ReadEntry(s: string): (r: Option<(Entry, string)>)
    ensures r.Some? ==> |r.value.1| < |s|
  {
    var i := IndexOf(s, '=');
    if i + 1 >= |s| || s[i + 1] != '"' then None
    else
      var v := ReadValue(s[i + 2..]);
      if v.None? then None else Some((Entry(s[..i], v.value.0), v.value.1))
  }

  function ReadEntries(s: string): Option<seq<Entry>>
    decreases |s|
  {
    var first := ReadEntry(s);
    if first.None? || first.value.1 == "" then None
    else if first.value.1 == "}" then Some([first.value.0])
    else if first.value.1[0] != ',' then None
    else
      var more := ReadEntries(first.value.1[1..]);
      if more.None? then None else Some([first.value.0] + more.value)
  }

  function ReadKey(s: string): Option<Metric> {
    var i := IndexOf(s, '{');
    if i == |s| then Some(Metric(s, []))
    else
      var entries := ReadEntries(s[i + 1..]);
      if entries.None? then None else Some(Metric(s[..i], entries.value))
  }

  // Names as identifiers have them; all that matters is that a name holds no
  // brace and a label no equals sign.
  predicate PlainNames(m: Metric) {
    '{' !in m.name && forall e :: e in m.entries ==> '=' !in e.name
  }

  lemma {:induction false} IndexOfFirst(a: string, c: char, b: string)
    requires c !in a
    ensures IndexOf(a + [c] + b, c) == |a|
    decreases |a|
  {
    if a == "" {
      assert a + [c] + b == [c] + b;
    } else {
      assert (a + [c] + b)[1..] == a[1..] + [c] + b;
      assert a[0] in a;
      IndexOfFirst(a[1..], c, b);
    }
  }

  // Reading one rendered entry gives its name, its value and what follows.
  lemma ReadUndoesPart(e: Entry, after: string)
    requires '=' !in e.name
    ensures ReadEntry(Part(e) + after) == Some((e, after))
  {
    var s := Part(e) + after;
    var value := Escape(e.value) + "\"" + after;
    assert s == e.name + ['='] + ("\"" + value);
    IndexOfFirst(e.name, '=', "\"" + value);
    assert s[|e.name| + 2..] == value && s[..|e.name|] == e.name;
    ReadUndoesEscape(e.value, after);
  }

  // Reading a list of entries goes entry by entry.
  lemma ReadLast(e: Entry)
    requires '=' !in e.name
    ensures ReadEntries(Part(e) + "}") == Some([e])
  {
    ReadUndoesPart(e, "}");
  }

  lemma ReadNext(s: string, e: Entry, rest: string, more: seq<Entry>)
    requires '=' !in e.name && ReadEntries(rest) == Some(more)
    requires s == Part(e) + ("," + rest)
    ensures ReadEntries(s) == Some([e] + more)
  {
    var after := "," + rest;
    ReadUndoesPart(e, after);
    assert after[0] == ',' && after[1..] == rest;
  }

  lemma JoinUnfolds(entries: seq<Entry>)
    requires |entries| > 1
    ensures JoinParts(entries) + "}" == Part(entries[0]) + ("," + (JoinParts(entries[1..]) + "}"))
  {
    ConcatAssociates(Part(entries[0]), ",", JoinParts(entries[1..]), "}");
  }

  lemma ConcatAssociates(a: string, b: string, c: string, d: string)
    ensures a + b + c + d == a + (b + (c + d))
  {
  }

  lemma {:induction false} ReadUndoesJoin(entries: seq<Entry>, s: string)
    requires entries != [] && forall e :: e in entries ==> '=' !in e.name
    requires s == JoinParts(entries) + "}"
    ensures ReadEntries(s) == Some(entries)
    decreases |entries|
  {
    assert entries[0] in entries;
    if |entries| == 1 {
      ReadLast(entries[0]);
      assert entries == [entries[0]];
    } else {
      var rest := JoinParts(entries[1..]) + "}";
      ReadUndoesJoin(entries[1..], rest);
      JoinUnfolds(entries);
      ReadNext(s, entries[0], rest, entries[1..]);
      assert entries == [entries[0]] + entries[1..];
    }
  }

  lemma ReadUndoesKey(m: Metric)
    requires PlainNames(m)
    ensures ReadKey(KeyText(m)) == Some(m)
  {
    if m.entries == [] {
      if IndexOf(m.name, '{') < |m.name| { assert false; }
    } else {
      var body := JoinParts(m.entries) + "}";
      var s := KeyText(m);
      assert s == m.name + ['{'] + body;
      IndexOfFirst(m.name, '{', body);
      assert s[|m.name| + 1..] == body && s[..|m.name|] == m.name;
      ReadUndoesJoin(m.entries, body);
    }
  }

  /** Two metrics have the same key exactly when they are the same. */
  lemma KeysAreInjective(a: Metric, b: Metric)
    requires PlainNames(a) && PlainNames(b)
    ensures KeyText(a) == KeyText(b) <==> a == b
  {
    ReadUndoesKey(a);
    ReadUndoesKey(b);
  }

  // Without plain names keys do coincide: a name with braces reads like
  // labels, and a label name holding an equals sign and a quote like two of them.
  lemma OtherNamesCollide(name: string, entries: seq<Entry>, a: Entry, b: Entry)
    requires entries != []
    ensures KeyText(Metric(name + "{" + JoinParts(entries) + "}", [])) == KeyText(Metric(name, entries))
    ensures KeyText(Metric(name, [Entry(a.name + "=\"" + Escape(a.value) + "\"," + b.name, b.value)]))
         == KeyText(Metric(name, [a, b]))
  {
    var one := Entry(a.name + "=\"" + Escape(a.value) + "\"," + b.name, b.value);
    assert [a, b][1..] == [b];
    assert JoinParts([a, b]) == Part(a) + "," + Part(b);
    assert JoinParts([one]) == Part(one);
    assert Part(one) == Part(a) + "," + Part(b);
  }

  // ----- Sorted labels

  predicate Less(a: string, b: string) {
    if b == "" then false
    else if a == "" then true
    else if a[0] != b[0] then a[0] < b[0]
    else Less(a[1..], b[1..])
  }

  lemma {:induction false} LessIrreflexive(a: string)
    ensures !Less(a, a)
    decreases |a|
  {
    if a != "" {
      LessIrreflexive(a[1..]);
    }
  }

  lemma {:induction false} LessTotal(a: string, b: string)
    ensures Less(a, b) || Less(b, a) || a == b
    ensures !(Less(a, b) && Less(b, a)) && !Less(a, a)
    decreases |a| + |b|
  {
    LessIrreflexive(a);
    if a != "" && b != "" && a[0] == b[0] {
      LessTotal(a[1..], b[1..]);
      assert a == [a[0]] + a[1..] && b == [b[0]] + b[1..];
    }
  }

  lemma {:induction false} LessTransitive(a: string, b: string, c: string)
    requires Less(a, b) && Less(b, c)
    ensures Less(a, c)
    decreases |a|
  {
    if a != "" && a[0] == b[0] == c[0] {
      LessTransitive(a[1..], b[1..], c[1..]);
    }
  }

  ghost predicate Ascending(s: seq<string>) {
    forall i, j :: 0 <= i < j < |s| ==> Less(s[i], s[j])
  }

  ghost predicate Distinct(s: seq<string>) {
    forall i, j :: 0 <= i < j < |s| ==> s[i] != s[j]
  }

  function Insert(x: string, s: seq<string>): seq<string> {
    if s == [] || Less(x, s[0]) then [x] + s else [s[0]] + Insert(x, s[1..])
  }

  function Sort(s: seq<string>): seq<string> {
    if s == [] then [] else Insert(s[0], Sort(s[1..]))
  }

  lemma {:induction false} InsertSorts(x: string, s: seq<string>)
    requires Ascending(s) && x !in s
    ensures Ascending(Insert(x, s))
    ensures forall y :: y in Insert(x, s) <==> y == x || y in s
    decreases |s|
  {
    if s != [] {
      assert s == [s[0]] + s[1..];
      if Less(x, s[0]) {
        forall j | 0 <= j < |s| ensures Less(x, s[j]) {
          if j > 0 { LessTransitive(x, s[0], s[j]); }
        }
      } else {
        LessTotal(x, s[0]);
        InsertSorts(x, s[1..]);
        var t := Insert(x, s[1..]);
        forall j | 0 <= j < |t| ensures Less(s[0], t[j]) {
          assert t[j] in t;
          if t[j] != x {
            var k :| 0 <= k < |s[1..]| && s[1..][k] == t[j];
            assert s[k + 1] == t[j];
          }
        }
      }
    }
  }

  lemma {:induction false} SortSorts(s: seq<string>)
    requires Distinct(s)
    ensures Ascending(Sort(s))
    ensures forall y :: y in Sort(s) <==> y in s
    decreases |s|
  {
    if s != [] {
      assert s == [s[0]] + s[1..];
      SortSorts(s[1..]);
      assert s[0] !in s[1..];
      InsertSorts(s[0], Sort(s[1..]));
    }
  }

  lemma SomeMember(s: seq<string>)
    ensures s != [] ==> exists y :: y in s
  {
    if s != [] {
      assert s[0] in s;
    }
  }

  lemma {:induction false} AscendingUnique(a: seq<string>, b: seq<string>)
    requires Ascending(a) && Ascending(b)
    requires forall y :: y in a <==> y in b
    ensures a == b
    decreases |a|
  {
    if a == [] {
      SomeMember(b);
    } else {
      assert a[0] in a && a[0] in b;
      assert b[0] in b && b[0] in a;
      LessTotal(a[0], b[0]);
      LeastFirst(a, b[0]);
      LeastFirst(b, a[0]);
      assert a == [a[0]] + a[1..] && b == [b[0]] + b[1..];
      forall y ensures y in a[1..] <==> y in b[1..] {
        TailMembers(a, y);
        TailMembers(b, y);
      }
      AscendingUnique(a[1..], b[1..]);
    }
  }

  lemma LeastFirst(a: seq<string>, y: string)
    requires Ascending(a) && y in a
    ensures y == a[0] || Less(a[0], y)
  {
  }

  lemma TailMembers(a: seq<string>, y: string)
    requires Ascending(a) && a != []
    ensures y in a[1..] <==> y in a && y != a[0]
  {
    assert a == [a[0]] + a[1..];
    LessTotal(a[0], a[0]);
    if y in a[1..] {
      var k :| 0 <= k < |a[1..]| && a[1..][k] == y;
      assert a[k + 1] == y && Less(a[0], a[k + 1]);
    }
  }

  // The labels in the order Object.keys gives them.
  ghost predicate Enumerates(order: seq<string>, labels: map<string, string>) {
    Distinct(order) && forall y :: y in order <==> y in labels
  }

  function EntriesOf(keys: seq<string>, labels: map<string, string>): seq<Entry> {
    seq(|keys|, i requires 0 <= i < |keys| => Entry(keys[i], if keys[i] in labels then labels[keys[i]] else ""))
  }

  function Named(name: string, order: seq<string>, labels: map<string, string>): Metric {
    Metric(name, EntriesOf(Sort(order), labels))
  }

  /** The key does not depend on the order in which labels were put into the object, only on the labels. */
  lemma KeyIgnoresOrder(name: string, a: seq<string>, b: seq<string>, labels: map<string, string>)
    requires Enumerates(a, labels) && Enumerates(b, labels)
    ensures KeyText(Named(name, a, labels)) == KeyText(Named(name, b, labels))
  {
    SortSorts(a);
    SortSorts(b);
    AscendingUnique(Sort(a), Sort(b));
  }

  /** Different names or different labels give different keys. */
  lemma KeyIsItsLabels(name: string, a: seq<string>, labels: map<string, string>,
                       other: string, b: seq<string>, others: map<string, string>)
    requires Enumerates(a, labels) && Enumerates(b, others)
    requires '{' !in name && '{' !in other
    requires forall l :: l in labels || l in others ==> '=' !in l
    ensures KeyText(Named(name, a, labels)) == KeyText(Named(other, b, others)) <==> name == other && labels == others
  {
    var m, n := Named(name, a, labels), Named(other, b, others);
    SortSorts(a);
    SortSorts(b);
    forall e | e in m.entries || e in n.entries ensures '=' !in e.name {
      assert e.name in Sort(a) || e.name in Sort(b);
    }
    KeysAreInjective(m, n);
    if name == other && labels == others {
      KeyIgnoresOrder(name, a, b, labels);
    }
    if m == n {
      forall l ensures l in labels <==> l in others {
        assert Sort(a) == Sort(b) by { SameKeys(Sort(a), labels, Sort(b), others); }
      }
      forall l | l in labels ensures labels[l] == others[l] {
        SameKeys(Sort(a), labels, Sort(b), others);
        var i :| 0 <= i < |Sort(a)| && Sort(a)[i] == l;
        assert m.entries[i] == n.entries[i];
      }
    }
  }

  lemma SameKeys(a: seq<string>, labels: map<string, string>, b: seq<string>, others: map<string, string>)
    requires EntriesOf(a, labels) == EntriesOf(b, others)
    ensures a == b
  {
    forall i | 0 <= i < |a| ensures i < |b| && a[i] == b[i] {
      assert EntriesOf(a, labels)[i] == EntriesOf(b, others)[i];
    }
    assert |EntriesOf(a, labels)| == |EntriesOf(b, others)|;
  }

  // ----- The counters

  datatype Increment = Increment(metric: Metric, amount: real)

  function Total(h: seq<Increment>, m: Metric): real {
    if h == [] then 0.0
    else Total(h[..|h| - 1], m) + if h[|h| - 1].metric == m then h[|h| - 1].amount else 0.0
  }

  ghost predicate Mentions(h: seq<Increment>, m: Metric) {
    exists i :: 0 <= i < |h| && h[i].metric == m
  }

  // When every metric so far has plain names, each counter holds the sum of
  // its own increments and of no other's.
  ghost predicate Separate(counters: map<string, real>, h: seq<Increment>) {
    (forall i :: 0 <= i < |h| ==> PlainNames(h[i].metric)) ==>
      forall m: Metric :: PlainNames(m) ==>
        && (KeyText(m) in counters <==> Mentions(h, m))
        && (KeyText(m) in counters ==> counters[KeyText(m)] == Total(h, m))
  }

  // What was added under a key text, whichever metrics share it.
  function KeyTotal(h: seq<Increment>, key: string): real {
    if h == [] then 0.0
    else
      var last := h[|h| - 1];
      KeyTotal(h[..|h| - 1], key) + if KeyText(last.metric) == key then last.amount else 0.0
  }

  ghost predicate Written(h: seq<Increment>, key: string) {
    exists i :: 0 <= i < |h| && KeyText(h[i].metric) == key
  }

  // Every counter is the sum of the increments with its key text, whatever the names.
  ghost predicate Keyed(counters: map<string, real>, h: seq<Increment>) {
    forall key ::
      && (key in counters <==> Written(h, key))
      && (key in counters ==> counters[key] == KeyTotal(h, key))
  }

  lemma {:induction false} UnwrittenIsZero(h: seq<Increment>, key: string)
    requires !Written(h, key)
    ensures KeyTotal(h, key) == 0.0
    decreases |h|
  {
    if h != [] {
      assert forall i :: 0 <= i < |h| - 1 ==> h[..|h| - 1][i] == h[i];
      UnwrittenIsZero(h[..|h| - 1], key);
    }
  }

  lemma WrittenSnoc(h: seq<Increment>, inc: Increment, key: string)
    ensures Written(h + [inc], key) <==> Written(h, key) || KeyText(inc.metric) == key
    ensures KeyTotal(h + [inc], key) == KeyTotal(h, key) + if KeyText(inc.metric) == key then inc.amount else 0.0
  {
    var next := h + [inc];
    assert next[..|h|] == h && next[|h|] == inc;
    if i :| 0 <= i < |h| && KeyText(h[i].metric) == key { assert next[i] == h[i]; }
  }

  lemma KeyedStep(counters: map<string, real>, h: seq<Increment>, inc: Increment, own: string, was: real)
    requires Keyed(counters, h) && own == KeyText(inc.metric)
    requires was == if own in counters then counters[own] else 0.0
    ensures Keyed(counters[own := was + inc.amount], h + [inc])
  {
    var after := counters[own := was + inc.amount];
    forall key
      ensures key in after <==> Written(h + [inc], key)
      ensures key in after ==> after[key] == KeyTotal(h + [inc], key)
    {
      WrittenSnoc(h, inc, key);
      if own !in counters { UnwrittenIsZero(h, own); }
    }
  }

  lemma {:induction false} OwnTotal(h: seq<Increment>, m: Metric)
    requires PlainNames(m) && forall i :: 0 <= i < |h| ==> PlainNames(h[i].metric)
    ensures Total(h, m) == KeyTotal(h, KeyText(m)) && (Written(h, KeyText(m)) <==> Mentions(h, m))
    decreases |h|
  {
    forall i | 0 <= i < |h| ensures KeyText(h[i].metric) == KeyText(m) <==> h[i].metric == m {
      KeysAreInjective(m, h[i].metric);
    }
    if h != [] {
      assert forall i :: 0 <= i < |h| - 1 ==> h[..|h| - 1][i] == h[i];
      OwnTotal(h[..|h| - 1], m);
    }
  }

  lemma KeyedSeparates(counters: map<string, real>, h: seq<Increment>)
    requires Keyed(counters, h)
    ensures Separate(counters, h)
  {
    if forall i :: 0 <= i < |h| ==> PlainNames(h[i].metric) {
      forall m: Metric | PlainNames(m)
        ensures KeyText(m) in counters <==> Mentions(h, m)
        ensures KeyText(m) in counters ==> counters[KeyText(m)] == Total(h, m)
      {
        OwnTotal(h, m);
      }
    }
  }

  // The last 5000 observations.
  function Recent(all: seq<real>): seq<real> {
    if |all| <= 5000 then all else all[|all| - 5000..]
  }

  lemma RecentIs(all: seq<real>)
    ensures exists older :: all == older + Recent(all) && if |all| <= 5000 then older == [] else |Recent(all)| == 5000
  {
    var k := if |all| <= 5000 then 0 else |all| - 5000;
    assert all == all[..k] + Recent(all);
  }

  class Counters {
    var counters: map<string, real>
    var hist: map<string, seq<real>>
    ghost var history: seq<Increment>

    constructor ()
      ensures Keyed(counters, history) && history == [] && hist == map[]
    {
      counters, hist, history := map[], map[], [];
    }

    method Inc(name: string, order: seq<string>, labels: map<string, string>, amount: real)
      requires Keyed(counters, history)
      modifies this
      ensures history == old(history) + [Increment(Named(name, order, labels), amount)]
      ensures Keyed(counters, history) && Separate(counters, history)
      ensures hist == old(hist)
    {
      var key := KeyText(Named(name, order, labels));
      var was := if key in counters then counters[key] else 0.0;
      ghost var inc := Increment(Named(name, order, labels), amount);
      KeyedStep(counters, history, inc, key, was);
      counters := counters[key := was + amount];
      history := history + [inc];
      KeyedSeparates(counters, history);
    }

    method Observe(name: string, order: seq<string>, labels: map<string, string>, value: real, ghost all: seq<real>)
      requires var key := KeyText(Named(name, order, labels));
        if key in hist then hist[key] == Recent(all) else all == []
      modifies this`hist
      ensures var key := KeyText(Named(name, order, labels));
        hist == old(hist)[key := Recent(all + [value])]
    {
      var key := KeyText(Named(name, order, labels));
      var arr := if key in hist then hist[key] else [];
      arr := arr + [value];
      if |arr| > 5000 {
        arr := arr[|arr| - 5000..];
      }
      assert |all| > 5000 ==> Recent(all) + [value] == (all + [value])[|all| - 5000..];
      hist := hist[key := arr];
    }
  }
}
