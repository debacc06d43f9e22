/**
 * Targeting conditions: attribute lookup, the operators and their conjunction
 * (apps/feature-flags/src/compiler/eval.ts).
 */
module Conditions {
  import opened Wrappers

  // A value of a context attribute or of a condition. Objects compare by
  // identity, and a context shares no object with a ruleset.
  datatype Value =
    | Undefined
    | Null
    | Bool(b: bool)
    | Num(n: real)
    | Str(s: string)
    | List(items: seq<Value>)
    | Object(id: nat)
    | Native(name: string)   // an inherited property of a plain object

  datatype Operator =
    | Eq | Neq | In | NotIn | Contains | Prefix | Suffix | Gt | Gte | Lt | Lte | Regex
    | Unknown(name: string)   // any other text

  datatype Condition = Condition(attr: string, op: Operator, value: Value)

  datatype Context = Context(userId: Option<string>, attrs: Option<map<string, Value>>)

  // Matching a text against a pattern; None when the pattern is not one.
  type Matcher = (string, string) -> Option<bool>

  datatype Truth = Yes | No | Throws

  function Of(b: bool): Truth {
    if b then Yes else No
  }

  function ReadAttr(ctx: Context, attr: string): Value {
    if attr == "userId" then if ctx.userId.Some? then Str(ctx.userId.value) else Undefined
    else if "attrs." <= attr then Property(ctx.attrs, attr[6..])
    else Property(ctx.attrs, attr)
  }

  function Property(attrs: Option<map<string, Value>>, key: string): Value {
    if attrs.None? then Undefined
    else if key in attrs.value then attrs.value[key]
    else if key in INHERITED then Native(key)
    else Undefined
  }

  // The operator ===.
  predicate Same(l: Value, r: Value) {
    l == r && !l.List? && !l.Object?
  }

  predicate Includes(items: seq<Value>, v: Value) {
    exists i :: 0 <= i < |items| && Same(items[i], v)
  }

  predicate OccursAt(part: string, whole: string, i: nat) {
    i + |part| <= |whole| && whole[i..i + |part|] == part
  }

  predicate Within(part: string, whole: string) {
    exists i: nat :: i <= |whole| && OccursAt(part, whole, i)
  }

  // The table of operators is a plain object: an inherited name finds a function in it, which is then called on no
  // object. Only Object itself and toString bear that; isPrototypeOf does when its argument is not an object.
  function CallInherited(name: string, l: Value): Truth {
    if name == "constructor" || name == "toString" then Yes
    else if name == "isPrototypeOf" then if l.List? || l.Object? || l.Native? then Throws else No
    else if name in INHERITED then Throws
    else No
  }

  function Test(c: Condition, ctx: Context, matcher: Matcher): Truth {
    var l, r := ReadAttr(ctx, c.attr), c.value;
    match c.op
    case Eq => Of(Same(l, r))
    case Neq => Of(!Same(l, r))
    case In => Of(r.List? && Includes(r.items, l))
    case NotIn => Of(r.List? && !Includes(r.items, l))
    case Contains => Of(l.Str? && r.Str? && Within(r.s, l.s))
    case Prefix => Of(l.Str? && r.Str? && r.s <= l.s)
    case Suffix => Of(l.Str? && r.Str? && |r.s| <= |l.s| && l.s[|l.s| - |r.s|..] == r.s)
    case Gt => Of(l.Num? && r.Num? && l.n > r.n)
    case Gte => Of(l.Num? && r.Num? && l.n >= r.n)
    case Lt => Of(l.Num? && r.Num? && l.n < r.n)
    case Lte => Of(l.Num? && r.Num? && l.n <= r.n)
    case Regex =>
      if !l.Str? || !r.Str? then No
      else if matcher(r.s, l.s).None? then Throws
      else Of(matcher(r.s, l.s).value)
    case Unknown(name) => CallInherited(name, l)
  }

  function MatchAll(conditions: seq<Condition>, ctx: Context, matcher: Matcher): Truth {
    if conditions == [] then Yes
    else
      var t := Test(conditions[0], ctx, matcher);
      if t != Yes then t else MatchAll(conditions[1..], ctx, matcher)
  }

  predicate AllHold(conditions: seq<Condition>, ctx: Context, matcher: Matcher) {
    forall c :: c in conditions ==> Test(c, ctx, matcher) == Yes
  }

  // Condition i breaks, and all before it hold.
  predicate BreaksAt(conditions: seq<Condition>, i: nat, ctx: Context, matcher: Matcher) {
    && i < |conditions| && Test(conditions[i], ctx, matcher) == Throws
    && AllHold(conditions[..i], ctx, matcher)
  }

  predicate Breaks(conditions: seq<Condition>, ctx: Context, matcher: Matcher) {
    exists i: nat :: i < |conditions| && BreaksAt(conditions, i, ctx, matcher)
  }

  lemma {:induction false} MatchesIff(conditions: seq<Condition>, ctx: Context, matcher: Matcher)
    ensures MatchAll(conditions, ctx, matcher) == Yes <==> AllHold(conditions, ctx, matcher)
    decreases |conditions|
  {
    if conditions != [] {
      MatchesIff(conditions[1..], ctx, matcher);
      assert conditions == [conditions[0]] + conditions[1..];
    }
  }

  lemma {:induction false} BreaksIff(conditions: seq<Condition>, ctx: Context, matcher: Matcher)
    ensures MatchAll(conditions, ctx, matcher) == Throws <==> Breaks(conditions, ctx, matcher)
    decreases |conditions|
  {
    if conditions != [] {
      var first, rest := conditions[0], conditions[1..];
      if Test(first, ctx, matcher) == Yes {
        BreaksIff(rest, ctx, matcher);
        if i: nat :| BreaksAt(rest, i, ctx, matcher) {
          assert conditions[..i + 1] == [first] + rest[..i];
          assert BreaksAt(conditions, i + 1, ctx, matcher);
        }
        if i: nat :| BreaksAt(conditions, i, ctx, matcher) {
          assert conditions[..i] == [first] + rest[..i - 1];
          assert BreaksAt(rest, i - 1, ctx, matcher);
        }
      } else if Test(first, ctx, matcher) == Throws {
        assert BreaksAt(conditions, 0, ctx, matcher);
      } else {
        forall i: nat ensures !BreaksAt(conditions, i, ctx, matcher) {
          if 0 < i <= |conditions| { assert conditions[..i][0] == first; }
        }
      }
    }
  }
}
