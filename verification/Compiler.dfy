/**
 * Flag definitions and their compilation into a ruleset
 * (apps/feature-flags/src/compiler/compile.ts).
 */
module Compiler {
  import opened Wrappers
  import opened Conditions

  datatype FlagType = Boolean | Text | Number

  datatype FlagValue = BoolValue(b: bool) | TextValue(s: string) | NumberValue(n: real) | Builtin(name: string)

  // What a definition can declare; Builtin is an inherited property found in its place.
  type DeclaredValue = v: FlagValue | !v.Builtin? witness BoolValue(false)

  datatype Variant = Variant(key: string, value: DeclaredValue)

  datatype Rule = Rule(id: string, conditions: seq<Condition>, variant: string)

  datatype Rollout = Rollout(variant: string, percentage: real)

  datatype Config = Config(enabled: bool, defaultVariant: string, rules: Option<seq<Rule>>, rollout: Option<Rollout>)

  datatype Flag = Flag(key: string, kind: FlagType, variants: seq<Variant>, environments: map<string, Config>)

  datatype CompiledRule = CompiledRule(conditions: seq<Condition>, variant: string)

  datatype CompiledFlag = CompiledFlag(key: string, kind: FlagType, enabled: bool, variants: map<string, DeclaredValue>,
                                       defaultVariant: string, rules: seq<CompiledRule>, rollout: Option<Rollout>)

  datatype Ruleset = Ruleset(env: string, version: nat, flags: seq<CompiledFlag>)

  datatype Reason = Disabled | RuleMatch | RolledOut | Default | FlagMissing

  datatype Outcome = Result(flag: string, variant: string, value: FlagValue, reason: Reason) | Threw

  // variantMap[v.key] = v.value on a plain object: the key __proto__ makes no entry.
  function Assign(m: map<string, DeclaredValue>, v: Variant): map<string, DeclaredValue> {
    if v.key == "__proto__" then m else m[v.key := v.value]
  }

  function VariantMap(variants: seq<Variant>): map<string, DeclaredValue> {
    if variants == [] then map[]
    else Assign(VariantMap(variants[..|variants| - 1]), variants[|variants| - 1])
  }

  function Rules(cfg: Config): seq<Rule> {
    if cfg.rules.Some? then cfg.rules.value else []
  }

  function CompileRules(rules: seq<Rule>): seq<CompiledRule> {
    seq(|rules|, i requires 0 <= i < |rules| => CompiledRule(rules[i].conditions, rules[i].variant))
  }

  function CompileConfig(flag: Flag, cfg: Config): CompiledFlag {
    CompiledFlag(flag.key, flag.kind, cfg.enabled, VariantMap(flag.variants), cfg.defaultVariant,
                 CompileRules(Rules(cfg)), cfg.rollout)
  }

  function Compiled(flag: Flag, env: string): Option<CompiledFlag> {
    if env in flag.environments then Some(CompileConfig(flag, flag.environments[env])) else None
  }

  function CompiledFlags(flags: seq<Flag>, env: string): seq<CompiledFlag> {
    if flags == [] then []
    else
      var last := Compiled(flags[|flags| - 1], env);
      CompiledFlags(flags[..|flags| - 1], env) + if last.Some? then [last.value] else []
  }

  method CompileFlag(flag: Flag, env: string) returns (r: Option<CompiledFlag>)
    ensures r == Compiled(flag, env)
  {
    if env !in flag.environments {
      return None;
    }
    var cfg := flag.environments[env];
    var variantMap: map<string, DeclaredValue> := map[];
    for i := 0 to |flag.variants|
      invariant variantMap == VariantMap(flag.variants[..i])
    {
      assert flag.variants[..i + 1][..i] == flag.variants[..i];
      variantMap := Assign(variantMap, flag.variants[i]);
    }
    assert flag.variants[..|flag.variants|] == flag.variants;
    var compiled := CompiledFlag(flag.key, flag.kind, cfg.enabled, variantMap, cfg.defaultVariant,
                                 CompileRules(Rules(cfg)), None);
    if cfg.rollout.Some? {
      compiled := compiled.(rollout := cfg.rollout);
    }
    return Some(compiled);
  }

  method CompileRuleset(flags: seq<Flag>, env: string, version: nat) returns (ruleset: Ruleset)
    ensures ruleset == Ruleset(env, version, CompiledFlags(flags, env))
  {
    var compiled: seq<CompiledFlag> := [];
    for i := 0 to |flags|
      invariant compiled == CompiledFlags(flags[..i], env)
    {
      assert flags[..i + 1][..i] == flags[..i];
      var c := CompileFlag(flags[i], env);
      if c.Some? {
        compiled := compiled + [c.value];
      }
    }
    assert flags[..|flags|] == flags;
    ruleset := Ruleset(env, version, compiled);
  }
}
