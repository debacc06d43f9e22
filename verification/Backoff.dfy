/** Retry delays (apps/job-queue/src/retry.ts). Delays are reals; the random draw is a parameter. */
module Backoff {
  import opened Wrappers

  // Other is any kind outside the declared three: the switch falls through to its default.
  datatype Kind = Fixed | Exponential | ExponentialJitter | Other

  datatype Options = Options(kind: Kind, delayMs: real, maxDelayMs: Option<real>, factor: Option<real>)

  function Pow(x: real, n: nat): real {
    if n == 0 then 1.0 else x * Pow(x, n - 1)
  }

  function Min(a: real, b: real): real {
    if a <= b then a else b
  }

  function Cap(opts: Options): real {
    if opts.maxDelayMs.Some? then opts.maxDelayMs.value else 60000.0
  }

  function Factor(opts: Options): real {
    if opts.factor.Some? then opts.factor.value else 2.0
  }

  function Grown(n: nat, opts: Options): real
    requires 1 <= n
  {
    Min(opts.delayMs * Pow(Factor(opts), n - 1), Cap(opts))
  }

  function Jittered(random: real, delay: real): real {
    (random * delay).Floor as real
  }

  function Compute(attempt: int, opts: Options, random: real): real {
    var n: nat := if attempt < 1 then 1 else attempt;
    match opts.kind
    case Fixed => Min(opts.delayMs, Cap(opts))
    case Exponential => Grown(n, opts)
    case ExponentialJitter => Jittered(random, Grown(n, opts))
    case Other => opts.delayMs
  }

  ghost predicate Sane(opts: Options) {
    0.0 <= opts.delayMs && 0.0 <= Cap(opts) && 0.0 <= Factor(opts)
  }

  lemma {:induction false} PowNonNegative(x: real, n: nat)
    requires 0.0 <= x
    ensures 0.0 <= Pow(x, n)
  {
    if n > 0 {
      PowNonNegative(x, n - 1);
    }
  }

  lemma FloorBelow(x: real, bound: real)
    requires 0.0 <= x <= bound
    ensures 0.0 <= x.Floor as real <= bound
  {
  }

  lemma ScaleBelow(r: real, x: real)
    requires 0.0 <= r < 1.0 && 0.0 <= x
    ensures 0.0 <= r * x <= x
  {
  }

  lemma ProductNonNegative(x: real, y: real)
    requires 0.0 <= x && 0.0 <= y
    ensures 0.0 <= x * y
  {
  }

  lemma GrownWithinCap(n: nat, opts: Options)
    requires Sane(opts) && 1 <= n
    ensures 0.0 <= Grown(n, opts) <= Cap(opts)
  {
    PowNonNegative(Factor(opts), n - 1);
    ProductNonNegative(opts.delayMs, Pow(Factor(opts), n - 1));
  }

  lemma JitterWithin(random: real, delay: real, cap: real)
    requires 0.0 <= random < 1.0 && 0.0 <= delay <= cap
    ensures 0.0 <= Jittered(random, delay) <= cap
  {
    ScaleBelow(random, delay);
    FloorBelow(random * delay, cap);
  }

  /** A delay lies within [0, cap] exactly when the kind is one of the declared three or the raw delay
      already does: the default branch of the switch is the only one that skips the cap. */
  lemma DelayWithinCapIff(attempt: int, opts: Options, random: real)
    requires Sane(opts) && 0.0 <= random < 1.0
    ensures 0.0 <= Compute(attempt, opts, random) <= Cap(opts) <==> opts.kind != Other || opts.delayMs <= Cap(opts)
  {
    var n: nat := if attempt < 1 then 1 else attempt;
    if opts.kind == Exponential || opts.kind == ExponentialJitter {
      GrownWithinCap(n, opts);
      JitterWithin(random, Grown(n, opts), Cap(opts));
    }
  }

  // ---- the delays themselves ----

  lemma {:induction false} PowersGrow(d: nat -> real, first: real, factor: real, n: nat)
    requires 1 <= n && d(1) == first && forall k: nat | 1 <= k :: d(k + 1) == factor * d(k)
    ensures d(n) == first * Pow(factor, n - 1)
    decreases n
  {
    if n > 1 {
      PowersGrow(d, first, factor, n - 1);
      Regroup(first, factor, Pow(factor, n - 2));
    }
  }

  lemma Regroup(a: real, f: real, p: real)
    ensures f * (a * p) == a * (f * p)
  {
  }

  lemma GrownIs(d: nat -> real, n: nat, opts: Options)
    requires 1 <= n && d(1) == opts.delayMs && forall k: nat | 1 <= k :: d(k + 1) == Factor(opts) * d(k)
    ensures Grown(n, opts) == if d(n) <= Cap(opts) then d(n) else Cap(opts)
  {
    PowersGrow(d, opts.delayMs, Factor(opts), n);
  }

  lemma JitterIs(random: real, grown: real, delay: real)
    requires delay == Jittered(random, grown)
    ensures delay <= random * grown < delay + 1.0 && delay == delay.Floor as real
  {
  }

  /** With d the delays of an uncapped series that starts at delayMs and grows by the factor (2 if none is given), the
      n-th exponential delay is d(n) or the cap (a minute if none is given), whichever is less; jitter takes the whole
      milliseconds of a random part of that; a fixed delay is d(1) or the cap; and attempts below one count as one. */
  lemma DelayIs(d: nat -> real, attempt: int, opts: Options, random: real)
    requires d(1) == opts.delayMs
    requires forall k: nat | 1 <= k :: d(k + 1) == (if opts.factor.Some? then opts.factor.value else 2.0) * d(k)
    ensures var n: nat := if attempt < 1 then 1 else attempt;
            var cap := if opts.maxDelayMs.Some? then opts.maxDelayMs.value else 60000.0;
            var grown := if d(n) <= cap then d(n) else cap;
            var delay := Compute(attempt, opts, random);
            && (opts.kind == Fixed ==> delay == if d(1) <= cap then d(1) else cap)
            && (opts.kind == Exponential ==> delay == grown)
            && (opts.kind == ExponentialJitter ==>
                  delay <= random * grown < delay + 1.0 && delay == delay.Floor as real)
            && (opts.kind == Other ==> delay == opts.delayMs)
  {
    var n: nat := if attempt < 1 then 1 else attempt;
    GrownIs(d, n, opts);
    if opts.kind == ExponentialJitter {
      JitterIs(random, Grown(n, opts), Compute(attempt, opts, random));
    }
  }
}
