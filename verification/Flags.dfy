/** Feature flags from definition to evaluation (apps/feature-flags/src/compiler). */
module Flags {
  import opened Wrappers
  import opened Conditions
  import opened Compiler
  import opened Buckets
  import opened Evaluator

  // ----- What a definition means

  // Value v is that of the last variant under this name.
  predicate LastVariant(variants: seq<Variant>, name: string, v: FlagValue) {
    exists i :: 0 <= i < |variants| && variants[i].key == name && variants[i].value == v
                && forall j :: i < j < |variants| ==> variants[j].key != name
  }

  predicate Declared(variants: seq<Variant>, name: string) {
    exists i :: 0 <= i < |variants| && variants[i].key == name
  }

  predicate Offers(flag: Flag, outcome: Outcome, name: string, reason: Reason) {
    && outcome.Result?
    && outcome.flag == flag.key && outcome.variant == name && outcome.reason == reason
    && LastVariant(flag.variants, name, outcome.value)
  }

  // The default variant's value, or the type's empty value if it is not declared.
  predicate FallsBack(flag: Flag, cfg: Config, outcome: Outcome, reason: Reason) {
    if Declared(flag.variants, cfg.defaultVariant) then Offers(flag, outcome, cfg.defaultVariant, reason)
    else
      var empty := match flag.kind case Boolean => BoolValue(false) case Text => TextValue("") case Number =>
          NumberValue(0.0);
      outcome == Result(flag.key, cfg.defaultVariant, empty, reason)
  }

  // A rule stops the search when evaluating it throws, or when it holds and
  // its variant is declared.
  predicate Stops(flag: Flag, rule: Rule, ctx: Context, matcher: Matcher) {
    || Breaks(rule.conditions, ctx, matcher)
    || (AllHold(rule.conditions, ctx, matcher) && Declared(flag.variants, rule.variant))
  }

  predicate FirstStop(flag: Flag, cfg: Config, i: nat, ctx: Context, matcher: Matcher) {
    && i < |Rules(cfg)|
    && Stops(flag, Rules(cfg)[i], ctx, matcher)
    && forall j: nat :: j < i ==> !Stops(flag, Rules(cfg)[j], ctx, matcher)
  }

  // The search stops first at rule i, with this outcome.
  predicate StoppedBy(flag: Flag, cfg: Config, i: nat, ctx: Context, matcher: Matcher, outcome: Outcome) {
    && FirstStop(flag, cfg, i, ctx, matcher)
    && if Breaks(Rules(cfg)[i].conditions, ctx, matcher) then outcome == Threw
       else Offers(flag, outcome, Rules(cfg)[i].variant, RuleMatch)
  }

  predicate RolloutReaches(flag: Flag, cfg: Config, ctx: Context) {
    && cfg.rollout.Some?
    && ctx.userId.Some? && ctx.userId.value != ""
    && Bucket(ctx.userId.value, flag.key) as real < cfg.rollout.value.percentage * 100.0
    && Declared(flag.variants, cfg.rollout.value.variant)
  }

  // What a definition promises for a context: the main result is that compile,
  // index and evaluate together give an outcome of which this holds.
  ghost predicate Means(flag: Flag, cfg: Config, ctx: Context, matcher: Matcher, outcome: Outcome) {
    && (!cfg.enabled ==> FallsBack(flag, cfg, outcome, Disabled))
    && (cfg.enabled ==>
      && (forall i: nat :: FirstStop(flag, cfg, i, ctx, matcher) ==> StoppedBy(flag, cfg, i, ctx, matcher, outcome))
      && ((forall i: nat :: !FirstStop(flag, cfg, i, ctx, matcher)) ==>
            if RolloutReaches(flag, cfg, ctx) then Offers(flag, outcome, cfg.rollout.value.variant, RolledOut)
            else FallsBack(flag, cfg, outcome, Default)))
  }

  lemma OffersUnique(flag: Flag, a: Outcome, b: Outcome, name: string, reason: Reason)
    requires Offers(flag, a, name, reason) && Offers(flag, b, name, reason)
    ensures a == b
  {
    var i :| 0 <= i < |flag.variants| && flag.variants[i].key == name && flag.variants[i].value == a.value
             && forall j :: i < j < |flag.variants| ==> flag.variants[j].key != name;
    var k :| 0 <= k < |flag.variants| && flag.variants[k].key == name && flag.variants[k].value == b.value
             && forall j :: k < j < |flag.variants| ==> flag.variants[j].key != name;
    assert i == k;
  }

  // A definition means one outcome only.
  lemma MeansUnique(flag: Flag, cfg: Config, ctx: Context, matcher: Matcher, a: Outcome, b: Outcome)
    requires Means(flag, cfg, ctx, matcher, a) && Means(flag, cfg, ctx, matcher, b)
    ensures a == b
  {
    if !cfg.enabled {
      if Declared(flag.variants, cfg.defaultVariant) { OffersUnique(flag, a, b, cfg.defaultVariant, Disabled); }
    } else if i: nat :| FirstStop(flag, cfg, i, ctx, matcher) {
      if !Breaks(Rules(cfg)[i].conditions, ctx, matcher) { OffersUnique(flag, a, b, Rules(cfg)[i].variant, RuleMatch); }
    } else if RolloutReaches(flag, cfg, ctx) {
      OffersUnique(flag, a, b, cfg.rollout.value.variant, RolledOut);
    } else if Declared(flag.variants, cfg.defaultVariant) {
      OffersUnique(flag, a, b, cfg.defaultVariant, Default);
    }
  }

  // ----- Compilation preserves the meaning

  // A name the compiled record looks up as the definition declares it.
  predicate Plain(variants: seq<Variant>, name: string) {
    name !in INHERITED || (name != "__proto__" && Declared(variants, name))
  }

  lemma {:induction false} VariantMapMeans(variants: seq<Variant>, name: string)
    ensures name in VariantMap(variants) <==> name != "__proto__" && Declared(variants, name)
    ensures name in VariantMap(variants) ==> LastVariant(variants, name, VariantMap(variants)[name])
    decreases |variants|
  {
    if variants != [] {
      var init, last := variants[..|variants| - 1], variants[|variants| - 1];
      VariantMapMeans(init, name);
      assert variants == init + [last];
      if name in VariantMap(variants) && last.key != name {
        var v := VariantMap(init)[name];
        var i :| 0 <= i < |init| && init[i].key == name && init[i].value == v
                 && forall j :: i < j < |init| ==> init[j].key != name;
        assert variants[i] == init[i];
      }
      if Declared(variants, name) && last.key != name {
        var i :| 0 <= i < |variants| && variants[i].key == name;
        assert init[i].key == name;
      }
    }
  }

  ghost predicate Agrees(flag: Flag, cfg: Config, name: string) {
    var v := Resolve(CompileConfig(flag, cfg), name);
    && (v.Some? <==> Declared(flag.variants, name))
    && (v.Some? ==> LastVariant(flag.variants, name, v.value))
  }

  // Looking a name up in the compiled record agrees with the declarations
  // exactly when no inherited property stands in for it.
  lemma ResolveIff(flag: Flag, cfg: Config, name: string)
    ensures Agrees(flag, cfg, name) <==> Plain(flag.variants, name)
  {
    VariantMapMeans(flag.variants, name);
    if name == "__proto__" && Declared(flag.variants, name) {
      assert Resolve(CompileConfig(flag, cfg), name) == Some(Builtin(name));
    }
  }

  lemma FallbackMeans(flag: Flag, cfg: Config, reason: Reason)
    requires Plain(flag.variants, cfg.defaultVariant)
    ensures FallsBack(flag, cfg, DefaultOutcome(CompileConfig(flag, cfg), reason), reason)
  {
    ResolveIff(flag, cfg, cfg.defaultVariant);
  }

  // The names a configuration makes evaluation look up.
  ghost predicate Names(cfg: Config, name: string) {
    || name == cfg.defaultVariant
    || (exists r :: r in Rules(cfg) && r.variant == name)
    || (cfg.rollout.Some? && name == cfg.rollout.value.variant)
  }

  ghost predicate PlainNames(flag: Flag, cfg: Config) {
    forall name :: Names(cfg, name) ==> Plain(flag.variants, name)
  }

  lemma {:induction false} RulesMean(flag: Flag, cfg: Config, i: nat, ctx: Context, matcher: Matcher)
    requires PlainNames(flag, cfg)
    requires i <= |Rules(cfg)|
    requires forall j: nat :: j < i ==> !Stops(flag, Rules(cfg)[j], ctx, matcher)
    ensures var r := EvalRules(CompileConfig(flag, cfg), i, ctx, matcher);
      && (r.None? ==> forall j: nat :: j < |Rules(cfg)| ==> !Stops(flag, Rules(cfg)[j], ctx, matcher))
      && (r.Some? ==> exists k: nat :: StoppedBy(flag, cfg, k, ctx, matcher, r.value))
    decreases |Rules(cfg)| - i
  {
    if i < |Rules(cfg)| {
      var rule := Rules(cfg)[i];
      assert rule in Rules(cfg) && Names(cfg, rule.variant);
      ResolveIff(flag, cfg, rule.variant);
      MatchesIff(rule.conditions, ctx, matcher);
      BreaksIff(rule.conditions, ctx, matcher);
      if Stops(flag, rule, ctx, matcher) {
        var r := EvalRules(CompileConfig(flag, cfg), i, ctx, matcher);
        assert StoppedBy(flag, cfg, i, ctx, matcher, r.value);
      } else {
        RulesMean(flag, cfg, i + 1, ctx, matcher);
      }
    }
  }

  lemma EvalMeans(flag: Flag, cfg: Config, ctx: Context, matcher: Matcher)
    requires PlainNames(flag, cfg)
    ensures Means(flag, cfg, ctx, matcher, EvalFlag(CompileConfig(flag, cfg), ctx, matcher))
  {
    var c := CompileConfig(flag, cfg);
    var outcome := EvalFlag(c, ctx, matcher);
    assert Names(cfg, cfg.defaultVariant);
    FallbackMeans(flag, cfg, Disabled);
    FallbackMeans(flag, cfg, Default);
    if cfg.enabled {
      RulesMean(flag, cfg, 0, ctx, matcher);
      if EvalRules(c, 0, ctx, matcher).Some? {
        var k: nat :| StoppedBy(flag, cfg, k, ctx, matcher, outcome);
        assert forall i: nat :: FirstStop(flag, cfg, i, ctx, matcher) ==> i == k;
      } else if cfg.rollout.Some? {
        assert Names(cfg, cfg.rollout.value.variant);
        ResolveIff(flag, cfg, cfg.rollout.value.variant);
        if ctx.userId.Some? {
          InRolloutIff(ctx.userId.value, flag.key, cfg.rollout.value.percentage);
        }
      }
    }
  }

  // A definition is evaluated as it means, in every configuration that names
  // `name` alone and for every context, exactly when `name` is plain.
  lemma MeaningKeptIff(flag: Flag, name: string, matcher: Matcher)
    ensures Plain(flag.variants, name)
       <==> forall cfg: Config, ctx: Context :: (forall n :: Names(cfg, n) ==> n == name) ==>
              Means(flag, cfg, ctx, matcher, EvalFlag(CompileConfig(flag, cfg), ctx, matcher))
  {
    if Plain(flag.variants, name) {
      forall cfg: Config, ctx: Context | forall n :: Names(cfg, n) ==> n == name
        ensures Means(flag, cfg, ctx, matcher, EvalFlag(CompileConfig(flag, cfg), ctx, matcher))
      {
        EvalMeans(flag, cfg, ctx, matcher);
      }
    } else {
      var cfg := Config(false, name, None, None);
      var ctx := Context(None, None);
      ResolveIff(flag, cfg, name);
      VariantMapMeans(flag.variants, name);
      assert forall n :: Names(cfg, n) ==> n == name;
      assert EvalFlag(CompileConfig(flag, cfg), ctx, matcher).value == Builtin(name);
      if Means(flag, cfg, ctx, matcher, EvalFlag(CompileConfig(flag, cfg), ctx, matcher)) {
        var v: FlagValue := Builtin(name);
        if LastVariant(flag.variants, name, v) { assert false; }
      }
    }
  }

  // ----- From the definitions to the index

  // The definition that counts for a key: the last one that has it and is
  // configured in the environment.
  ghost predicate Counts(flags: seq<Flag>, env: string, key: string, i: nat) {
    && i < |flags| && flags[i].key == key && env in flags[i].environments
    && forall j: nat :: i < j < |flags| ==> flags[j].key != key || env !in flags[j].environments
  }

  ghost predicate IndexedFrom(flags: seq<Flag>, env: string, key: string, i: nat, compiled: CompiledFlag) {
    Counts(flags, env, key, i) && compiled == CompileConfig(flags[i], flags[i].environments[env])
  }

  lemma IndexSnoc(flags: seq<Flag>, env: string)
    requires flags != []
    ensures var init, last := flags[..|flags| - 1], flags[|flags| - 1];
            Index(CompiledFlags(flags, env)) ==
              if env in last.environments
              then Index(CompiledFlags(init, env))[last.key := CompileConfig(last, last.environments[env])]
              else Index(CompiledFlags(init, env))
  {
    var before := CompiledFlags(flags[..|flags| - 1], env);
    var last := Compiled(flags[|flags| - 1], env);
    if last.Some? {
      assert (before + [last.value])[..|before|] == before;
    } else {
      assert before + [] == before;
    }
  }

  ghost predicate Unconfigured(flags: seq<Flag>, env: string, key: string) {
    forall j: nat :: j < |flags| ==> flags[j].key != key || env !in flags[j].environments
  }

  lemma StillIndexed(flags: seq<Flag>, env: string, key: string, i: nat, compiled: CompiledFlag)
    requires flags != [] && IndexedFrom(flags[..|flags| - 1], env, key, i, compiled)
    requires flags[|flags| - 1].key != key || env !in flags[|flags| - 1].environments
    ensures IndexedFrom(flags, env, key, i, compiled)
  {
    var init := flags[..|flags| - 1];
    assert forall j: nat | j < |init| :: init[j] == flags[j];
  }

  lemma {:induction false} IndexMeans(flags: seq<Flag>, env: string, key: string, byKey: map<string, CompiledFlag>)
    requires byKey == Index(CompiledFlags(flags, env))
    ensures if key in byKey then exists i: nat :: IndexedFrom(flags, env, key, i, byKey[key])
            else Unconfigured(flags, env, key)
    decreases |flags|
  {
    if flags != [] {
      var init, last := flags[..|flags| - 1], flags[|flags| - 1];
      var before := Index(CompiledFlags(init, env));
      IndexMeans(init, env, key, before);
      IndexSnoc(flags, env);
      if env in last.environments && last.key == key {
        assert IndexedFrom(flags, env, key, |flags| - 1, byKey[key]);
      } else if key in before {
        var i: nat :| IndexedFrom(init, env, key, i, before[key]);
        StillIndexed(flags, env, key, i, byKey[key]);
      } else {
        forall j: nat | j < |flags| ensures flags[j].key != key || env !in flags[j].environments {
          if j < |init| { assert init[j] == flags[j]; }
        }
      }
    }
  }

  /** Compiling, indexing and evaluating gives what the definition that counts means, or says the flag is missing. */
  lemma CompilationPreservesMeaning(flags: seq<Flag>, env: string, key: string, ctx: Context, matcher: Matcher)
    requires forall i: nat :: Counts(flags, env, key, i) ==> PlainNames(flags[i], flags[i].environments[env])
    ensures var outcome := Evaluate(Index(CompiledFlags(flags, env)), key, ctx, matcher);
      && (forall i: nat :: Counts(flags, env, key, i) ==>
            Means(flags[i], flags[i].environments[env], ctx, matcher, outcome))
      && ((forall i: nat :: !Counts(flags, env, key, i)) ==>
            outcome == Result(key, "", BoolValue(false), FlagMissing))
  {
    var byKey := Index(CompiledFlags(flags, env));
    IndexMeans(flags, env, key, byKey);
    if key in byKey {
      var i: nat :| IndexedFrom(flags, env, key, i, byKey[key]);
      EvalMeans(flags[i], flags[i].environments[env], ctx, matcher);
      forall k: nat | Counts(flags, env, key, k) ensures k == i {
      }
    }
  }

  // ----- Rollout

  lemma {:induction false} RulesIgnoreRollout(a: CompiledFlag, b: CompiledFlag, i: nat, ctx: Context, matcher: Matcher)
    requires b == a.(rollout := b.rollout)
    requires i <= |a.rules|
    ensures EvalRules(a, i, ctx, matcher) == EvalRules(b, i, ctx, matcher)
    decreases |a.rules| - i
  {
    if i < |a.rules| {
      RulesIgnoreRollout(a, b, i + 1, ctx, matcher);
    }
  }

  /** Raising the percentage leaves a user's outcome alone or moves it from the default to the rollout variant. */
  lemma RolloutIsMonotone(flag: Flag, cfg: Config, more: Config, p: real, q: real, variant: string, ctx: Context,
                          matcher: Matcher)
    requires cfg.rollout == Some(Rollout(variant, p)) && p <= q && more == cfg.(rollout := Some(Rollout(variant, q)))
    ensures var before := EvalFlag(CompileConfig(flag, cfg), ctx, matcher);
            var after := EvalFlag(CompileConfig(flag, more), ctx, matcher);
            || after == before
            || (before.Result? && before.reason == Default
                && after.Result? && after.reason == RolledOut && after.variant == variant)
  {
    var a, b := CompileConfig(flag, cfg), CompileConfig(flag, more);
    RulesIgnoreRollout(a, b, 0, ctx, matcher);
    if ctx.userId.Some? {
      InRolloutIff(ctx.userId.value, flag.key, p);
      InRolloutIff(ctx.userId.value, flag.key, q);
    }
  }

  // ----- Evaluation can throw

  // A rule halts the search when a condition of it breaks, or when it holds and the lookup finds its variant, among the
  // declared ones or among the inherited names.
  predicate Halts(flag: Flag, rule: Rule, ctx: Context, matcher: Matcher) {
    || Breaks(rule.conditions, ctx, matcher)
    || (AllHold(rule.conditions, ctx, matcher)
        && (Declared(flag.variants, rule.variant) || rule.variant in INHERITED))
  }

  predicate FirstHalt(flag: Flag, cfg: Config, i: nat, ctx: Context, matcher: Matcher) {
    && i < |Rules(cfg)|
    && Halts(flag, Rules(cfg)[i], ctx, matcher)
    && forall j: nat :: j < i ==> !Halts(flag, Rules(cfg)[j], ctx, matcher)
  }

  lemma FoundIff(flag: Flag, cfg: Config, name: string)
    ensures Resolve(CompileConfig(flag, cfg), name).Some? <==> Declared(flag.variants, name) || name in INHERITED
  {
    VariantMapMeans(flag.variants, name);
  }

  lemma {:induction false} RulesHalt(flag: Flag, cfg: Config, i: nat, ctx: Context, matcher: Matcher)
    requires i <= |Rules(cfg)|
    requires forall j: nat :: j < i ==> !Halts(flag, Rules(cfg)[j], ctx, matcher)
    ensures EvalRules(CompileConfig(flag, cfg), i, ctx, matcher) == Some(Threw)
       <==> exists k: nat :: FirstHalt(flag, cfg, k, ctx, matcher) && Breaks(Rules(cfg)[k].conditions, ctx, matcher)
    decreases |Rules(cfg)| - i
  {
    if i < |Rules(cfg)| {
      var rule := Rules(cfg)[i];
      MatchesIff(rule.conditions, ctx, matcher);
      BreaksIff(rule.conditions, ctx, matcher);
      FoundIff(flag, cfg, rule.variant);
      if Halts(flag, rule, ctx, matcher) {
        assert FirstHalt(flag, cfg, i, ctx, matcher);
        assert forall k: nat :: FirstHalt(flag, cfg, k, ctx, matcher) ==> k == i;
      } else {
        RulesHalt(flag, cfg, i + 1, ctx, matcher);
      }
    }
  }

  /** Evaluation throws exactly when the flag is enabled and the first rule to halt the search halts it by a condition
      that breaks, whatever the flag and its variants are called. */
  lemma ThrowsIff(flag: Flag, cfg: Config, ctx: Context, matcher: Matcher)
    ensures EvalFlag(CompileConfig(flag, cfg), ctx, matcher) == Threw
       <==> cfg.enabled && exists i: nat :: FirstHalt(flag, cfg, i, ctx, matcher)
                                         && Breaks(Rules(cfg)[i].conditions, ctx, matcher)
  {
    if cfg.enabled {
      RulesHalt(flag, cfg, 0, ctx, matcher);
    }
  }

  // One rule with a pattern that is not one is enough.
  lemma BrokenPatternThrows(matcher: Matcher)
    requires matcher("(", "ann").None?
    ensures exists flag: Flag, cfg: Config, ctx: Context ::
              EvalFlag(CompileConfig(flag, cfg), ctx, matcher) == Threw
  {
    var conditions := [Condition("userId", Regex, Str("("))];
    var cfg := Config(true, "off", Some([Rule("r", conditions, "on")]), None);
    var flag := Flag("f", Boolean, [Variant("on", BoolValue(true)), Variant("off", BoolValue(false))],
                     map["prod" := cfg]);
    var ctx := Context(Some("ann"), None);
    assert MatchAll(conditions, ctx, matcher) == Throws;
    assert EvalFlag(CompileConfig(flag, cfg), ctx, matcher) == Threw;
  }
}
