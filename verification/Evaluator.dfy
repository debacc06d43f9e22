/** Evaluating a compiled flag, and the index by key (apps/feature-flags/src/compiler/eval.ts). */
module Evaluator {
  import opened Wrappers
  import opened Conditions
  import opened Compiler
  import opened Buckets

  // flag.variants[variant] on the compiled record, inherited names included.
  function Resolve(flag: CompiledFlag, variant: string): Option<FlagValue> {
    if variant in flag.variants then Some(flag.variants[variant])
    else if variant in INHERITED then Some(Builtin(variant))
    else None
  }

  function Falsey(kind: FlagType): FlagValue {
    match kind
    case Boolean => BoolValue(false)
    case Text => TextValue("")
    case Number => NumberValue(0.0)
  }

  function DefaultOutcome(flag: CompiledFlag, reason: Reason): Outcome {
    var v := Resolve(flag, flag.defaultVariant);
    Result(flag.key, flag.defaultVariant, if v.Some? then v.value else Falsey(flag.kind), reason)
  }

  // The loop over the rules from the i-th on; None when no rule decides.
  function EvalRules(flag: CompiledFlag, i: nat, ctx: Context, matcher: Matcher): Option<Outcome>
    requires i <= |flag.rules|
    decreases |flag.rules| - i
  {
    if i == |flag.rules| then None
    else
      var t, v := MatchAll(flag.rules[i].conditions, ctx, matcher), Resolve(flag, flag.rules[i].variant);
      if t == Throws then Some(Threw)
      else if t == Yes && v.Some? then Some(Result(flag.key, flag.rules[i].variant, v.value, RuleMatch))
      else EvalRules(flag, i + 1, ctx, matcher)
  }

  function EvalFlag(flag: CompiledFlag, ctx: Context, matcher: Matcher): Outcome {
    if !flag.enabled then DefaultOutcome(flag, Disabled)
    else
      var byRule := EvalRules(flag, 0, ctx, matcher);
      if byRule.Some? then byRule.value
      else if flag.rollout.Some? && ctx.userId.Some? && ctx.userId.value != ""
              && InRollout(ctx.userId.value, flag.key, flag.rollout.value.percentage)
              && Resolve(flag, flag.rollout.value.variant).Some?
      then Result(flag.key, flag.rollout.value.variant, Resolve(flag, flag.rollout.value.variant).value, RolledOut)
      else DefaultOutcome(flag, Default)
  }

  function Index(flags: seq<CompiledFlag>): map<string, CompiledFlag> {
    if flags == [] then map[]
    else Index(flags[..|flags| - 1])[flags[|flags| - 1].key := flags[|flags| - 1]]
  }

  function Evaluate(byKey: map<string, CompiledFlag>, key: string, ctx: Context, matcher: Matcher): Outcome {
    if key !in byKey then Result(key, "", BoolValue(false), FlagMissing) else EvalFlag(byKey[key], ctx, matcher)
  }

  class RulesetIndex {
    var byKey: map<string, CompiledFlag>
    const env: string
    const version: nat

    constructor (ruleset: Ruleset)
      ensures byKey == Index(ruleset.flags) && env == ruleset.env && version == ruleset.version
    {
      env, version, byKey := ruleset.env, ruleset.version, map[];
      new;
      for i := 0 to |ruleset.flags|
        invariant byKey == Index(ruleset.flags[..i])
      {
        assert ruleset.flags[..i + 1][..i] == ruleset.flags[..i];
        byKey := byKey[ruleset.flags[i].key := ruleset.flags[i]];
      }
      assert ruleset.flags[..|ruleset.flags|] == ruleset.flags;
    }

    method Eval(key: string, ctx: Context, matcher: Matcher) returns (r: Outcome)
      ensures r == Evaluate(byKey, key, ctx, matcher)
    {
      if key !in byKey {
        return Result(key, "", BoolValue(false), FlagMissing);
      }
      r := EvalFlag(byKey[key], ctx, matcher);
    }
  }
}
