/** What each targeting operator answers, seen from a whole evaluation (apps/feature-flags/src/compiler/eval.ts). */
module Operators {
  import opened Wrappers
  import opened Conditions
  import opened Compiler
  import opened Evaluator
  import opened Flags

  // ---- attributes ----

  // An own entry of the attributes, else an inherited property, else nothing.
  ghost predicate Finds(attrs: Option<map<string, Value>>, key: string, v: Value) {
    if attrs.Some? && key in attrs.value then v == attrs.value[key]
    else if attrs.Some? && key in INHERITED then v == Native(key)
    else v == Undefined
  }

  // The name userId is the user's id; any other name is a key, with or without the prefix "attrs.".
  ghost predicate Has(ctx: Context, attr: string, v: Value) {
    if attr == "userId" then v == (if ctx.userId.Some? then Str(ctx.userId.value) else Undefined)
    else exists key :: Finds(ctx.attrs, key, v) &&
                       (attr == "attrs." + key || (attr == key && forall rest :: attr != "attrs." + rest))
  }

  lemma PrefixedOrNot(attr: string)
    ensures "attrs." <= attr <==> exists rest :: attr == "attrs." + rest
    ensures "attrs." <= attr ==> attr == "attrs." + attr[6..]
    ensures forall rest | attr == "attrs." + rest :: rest == attr[6..]
  {
    if "attrs." <= attr { assert attr == "attrs." + attr[6..]; }
    forall rest | attr == "attrs." + rest ensures "attrs." <= attr && rest == attr[6..] {
    }
  }

  lemma ReadsIff(ctx: Context, attr: string, v: Value)
    ensures ReadAttr(ctx, attr) == v <==> Has(ctx, attr, v)
  {
    PrefixedOrNot(attr);
    var key := if "attrs." <= attr then attr[6..] else attr;
    if attr != "userId" {
      assert Finds(ctx.attrs, key, v) <==> Property(ctx.attrs, key) == v;
      forall k | attr == "attrs." + k || (attr == k && forall rest :: attr != "attrs." + rest) ensures k == key {
      }
    }
  }

  // A key reads the same with its prefix and without.
  lemma PrefixReadsSame(ctx: Context, key: string, v: Value)
    requires key != "userId" && forall rest :: key != "attrs." + rest
    ensures Has(ctx, "attrs." + key, v) <==> Has(ctx, key, v)
  {
    PrefixedOrNot("attrs." + key);
    assert ("attrs." + key)[6..] == key;
    assert ("attrs." + key)[0] == 'a' && "userId"[0] == 'u';
    ReadsIff(ctx, "attrs." + key, v);
    ReadsIff(ctx, key, v);
    PrefixedOrNot(key);
  }

  // ---- what the operators mean ----

  // Equal values of one of the kinds that are not compared by identity.
  predicate Equal(l: Value, r: Value) {
    match (l, r)
    case (Undefined, Undefined) => true
    case (Null, Null) => true
    case (Bool(a), Bool(b)) => a == b
    case (Num(a), Num(b)) => a == b
    case (Str(a), Str(b)) => a == b
    case (Native(a), Native(b)) => a == b
    case _ => false
  }

  ghost predicate Meant(op: Operator, l: Value, r: Value, matcher: Matcher) {
    match op
    case Eq => Equal(l, r)
    case Neq => !Equal(l, r)
    case In => r.List? && exists i :: 0 <= i < |r.items| && Equal(l, r.items[i])
    case NotIn => r.List? && forall i :: 0 <= i < |r.items| ==> !Equal(l, r.items[i])
    case Contains => l.Str? && r.Str? && exists a, b :: l.s == a + r.s + b
    case Prefix => l.Str? && r.Str? && exists b :: l.s == r.s + b
    case Suffix => l.Str? && r.Str? && exists a :: l.s == a + r.s
    case Gt => l.Num? && r.Num? && l.n > r.n
    case Gte => l.Num? && r.Num? && l.n >= r.n
    case Lt => l.Num? && r.Num? && l.n < r.n
    case Lte => l.Num? && r.Num? && l.n <= r.n
    case Regex => l.Str? && r.Str? && matcher(r.s, l.s) == Some(true)
    case Unknown(name) => name == "constructor" || name == "toString"
  }

  // A pattern that is not one; or an inherited function that cannot be called on no object.
  ghost predicate Breaking(op: Operator, l: Value, r: Value, matcher: Matcher) {
    match op
    case Regex => l.Str? && r.Str? && matcher(r.s, l.s) == None
    case Unknown(name) =>
      && name in INHERITED && name != "constructor" && name != "toString"
      && (name == "isPrototypeOf" ==> l.List? || l.Object? || l.Native?)
    case _ => false
  }

  lemma WithinIff(part: string, whole: string)
    ensures Within(part, whole) <==> exists a, b :: whole == a + part + b
  {
    if i: nat :| i <= |whole| && OccursAt(part, whole, i) {
      assert whole == whole[..i] + part + whole[i + |part|..];
    }
    if a, b :| whole == a + part + b {
      assert OccursAt(part, whole, |a|);
    }
  }

  lemma PrefixIff(part: string, whole: string)
    ensures part <= whole <==> exists b :: whole == part + b
  {
    if part <= whole { assert whole == part + whole[|part|..]; }
  }

  lemma SuffixIff(part: string, whole: string)
    ensures |part| <= |whole| && whole[|whole| - |part|..] == part <==> exists a :: whole == a + part
  {
    if |part| <= |whole| && whole[|whole| - |part|..] == part {
      assert whole == whole[..|whole| - |part|] + part;
    }
    if a :| whole == a + part { assert whole[|a|..] == part; }
  }

  lemma EqualIsSame(l: Value, r: Value)
    ensures Equal(l, r) <==> Same(r, l)
    ensures Equal(l, r) <==> Same(l, r)
  {
  }

  lemma IncludesIff(l: Value, items: seq<Value>)
    ensures Includes(items, l) <==> exists i :: 0 <= i < |items| && Equal(l, items[i])
  {
    forall i | 0 <= i < |items| ensures Equal(l, items[i]) <==> Same(items[i], l) {
      EqualIsSame(l, items[i]);
    }
  }

  lemma TestMeans(c: Condition, ctx: Context, matcher: Matcher, l: Value)
    requires Has(ctx, c.attr, l)
    ensures Test(c, ctx, matcher) ==
      if Meant(c.op, l, c.value, matcher) then Yes else if Breaking(c.op, l, c.value, matcher) then Throws else No
  {
    ReadsIff(ctx, c.attr, l);
    var r := c.value;
    EqualIsSame(l, r);
    if r.List? { IncludesIff(l, r.items); }
    if l.Str? && r.Str? {
      WithinIff(r.s, l.s);
      PrefixIff(r.s, l.s);
      SuffixIff(r.s, l.s);
    }
  }

  // ---- a flag with one rule of one condition ----

  ghost predicate OneRule(flag: Flag, env: string, c: Condition, variant: string) {
    && env in flag.environments && flag.environments[env].enabled && Declared(flag.variants, variant)
    && exists id :: flag.environments[env].rules == Some([Rule(id, [c], variant)])
  }

  /** Evaluated from its definition on, such a flag gives the rule's variant exactly when the operator's meaning holds
      of the attribute's value, throws exactly when the operator breaks on it, and never matches otherwise. */
  lemma OneRuleIff(flag: Flag, env: string, c: Condition, variant: string, ctx: Context, matcher: Matcher, l: Value)
    requires OneRule(flag, env, c, variant) && Has(ctx, c.attr, l)
    ensures var outcome := Evaluate(Index(CompiledFlags([flag], env)), flag.key, ctx, matcher);
            && (outcome == Threw <==> Breaking(c.op, l, c.value, matcher))
            && (outcome.Result? && outcome.reason == RuleMatch <==> Meant(c.op, l, c.value, matcher))
            && (outcome.Result? && outcome.reason == RuleMatch ==> outcome.variant == variant)
  {
    var cfg := flag.environments[env];
    var compiled := CompileConfig(flag, cfg);
    IndexOne(flag, env);
    TestMeans(c, ctx, matcher, l);
    FoundIff(flag, cfg, variant);
    assert compiled.rules == [CompiledRule([c], variant)];
    MatchOne(c, ctx, matcher);
    EvalOne(compiled, c, variant, ctx, matcher);
  }

  lemma IndexOne(flag: Flag, env: string)
    requires env in flag.environments
    ensures Index(CompiledFlags([flag], env)) == map[flag.key := CompileConfig(flag, flag.environments[env])]
  {
    assert [flag][..0] == [];
    var compiled := CompileConfig(flag, flag.environments[env]);
    assert CompiledFlags([flag], env) == [] + [compiled] == [compiled];
    assert [compiled][..0] == [];
  }

  lemma MatchOne(c: Condition, ctx: Context, matcher: Matcher)
    ensures MatchAll([c], ctx, matcher) == Test(c, ctx, matcher)
  {
    assert [c][1..] == [];
  }

  lemma EvalOne(flag: CompiledFlag, c: Condition, variant: string, ctx: Context, matcher: Matcher)
    requires flag.enabled && flag.rules == [CompiledRule([c], variant)] && Resolve(flag, variant).Some?
    ensures var outcome, t := EvalFlag(flag, ctx, matcher), MatchAll([c], ctx, matcher);
            && (outcome == Threw <==> t == Throws)
            && (outcome.Result? && outcome.reason == RuleMatch <==> t == Yes)
            && (outcome.Result? && outcome.reason == RuleMatch ==> outcome.variant == variant)
  {
    assert EvalRules(flag, 1, ctx, matcher) == None;
  }
}
