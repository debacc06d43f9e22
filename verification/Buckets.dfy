/** Hash buckets for percentage rollouts (apps/feature-flags/src/compiler/bucket.ts). */
module Buckets {
  const FNV_PRIME := 16777619
  const FNV_OFFSET := 2166136261
  const TWO_TO_32 := 0x1_0000_0000

  type Word = n: nat | n < 0x1_0000_0000
  type Unit = n: nat | n < 0x1_0000

  // The UTF-16 code units charCodeAt reads.
  function Units(s: string): seq<Unit> {
    if s == [] then []
    else
      var c := s[0] as int;
      (if c < 0x10000 then [c] else [0xD800 + (c - 0x10000) / 0x400, 0xDC00 + (c - 0x10000) % 0x400]) + Units(s[1..])
  }

  // Bitwise exclusive or.
  function Xor(a: nat, b: nat): nat {
    if a == 0 && b == 0 then 0 else (a % 2 + b % 2) % 2 + 2 * Xor(a / 2, b / 2)
  }

  function Fnv(units: seq<Unit>): Word {
    if units == [] then FNV_OFFSET
    else ((Xor(Fnv(units[..|units| - 1]), units[|units| - 1]) % TWO_TO_32) * FNV_PRIME) % TWO_TO_32
  }

  method Fnv1a32(input: string) returns (h: Word)
    ensures h == Fnv(Units(input))
  {
    var units := Units(input);
    h := FNV_OFFSET;
    for i := 0 to |units|
      invariant h == Fnv(units[..i])
    {
      assert units[..i + 1][..i] == units[..i];
      h := Xor(h, units[i]) % TWO_TO_32;
      h := (h * FNV_PRIME) % TWO_TO_32;
    }
    assert units[..|units|] == units;
  }

  function Bucket(userId: string, flagKey: string): (b: nat)
    ensures b < 10000
  {
    Fnv(Units(flagKey + "|" + userId)) % 10000
  }

  predicate InRollout(userId: string, flagKey: string, percentage: real) {
    if percentage <= 0.0 then false
    else if percentage >= 100.0 then true
    else Bucket(userId, flagKey) as real < percentage * 100.0
  }

  // The two shortcuts change nothing: whatever the percentage, a user is in
  // exactly when their bucket is below a hundred times it.
  lemma InRolloutIff(userId: string, flagKey: string, percentage: real)
    ensures InRollout(userId, flagKey, percentage) <==> Bucket(userId, flagKey) as real < percentage * 100.0
  {
    var b := Bucket(userId, flagKey);
    assert 0 <= b < 10000;
    if percentage <= 0.0 { assert percentage * 100.0 <= 0.0; }
    if percentage >= 100.0 { assert percentage * 100.0 >= 10000.0; }
  }

  // ---- the hash by its bits ----

  predicate Bit(n: nat, i: nat) {
    if i == 0 then n % 2 == 1 else Bit(n / 2, i - 1)
  }

  lemma {:induction false} XorBits(a: nat, b: nat, i: nat)
    ensures Bit(Xor(a, b), i) <==> Bit(a, i) != Bit(b, i)
    decreases i
  {
    if a == 0 && b == 0 {
      ZeroBits(i);
    } else {
      assert Xor(a, b) / 2 == Xor(a / 2, b / 2) && Xor(a, b) % 2 == (a % 2 + b % 2) % 2;
      if i > 0 { XorBits(a / 2, b / 2, i - 1); }
    }
  }

  lemma {:induction false} ZeroBits(i: nat)
    ensures !Bit(0, i)
  {
    if i > 0 {
      ZeroBits(i - 1);
    }
  }

  // The states of the hash: each from the one before and the next unit, by exclusive or and the prime, in 32 bits.
  ghost predicate States(h: nat -> nat, units: seq<Unit>) {
    && h(0) == 2166136261
    && forall k: nat | k < |units| :: h(k + 1) == (Xor(h(k), units[k]) % 4294967296 * 16777619) % 4294967296
  }

  lemma {:induction false} HashIs(h: nat -> nat, units: seq<Unit>, n: nat)
    requires States(h, units) && n <= |units|
    ensures Fnv(units[..n]) == h(n)
  {
    if n > 0 {
      HashIs(h, units, n - 1);
      assert units[..n][..n - 1] == units[..n - 1];
      assert h(n - 1 + 1) == (Xor(h(n - 1), units[n - 1]) % 4294967296 * 16777619) % 4294967296;
    }
  }

  // Text whose characters are single code units.
  ghost predicate Plain(s: string) {
    forall i | 0 <= i < |s| :: s[i] as int < 0x10000
  }

  lemma {:induction false} PlainUnits(s: string)
    requires Plain(s)
    ensures |Units(s)| == |s| && forall i | 0 <= i < |s| :: Units(s)[i] == s[i] as int
    decreases |s|
  {
    if s != [] {
      PlainUnits(s[1..]);
    }
  }

  // Any other character is a pair of surrogates that stands for it.
  lemma SurrogatesStand(c: char)
    requires c as int >= 0x10000
    ensures var u := Units([c]);
            && |u| == 2 && 0xD800 <= u[0] < 0xDC00 <= u[1] < 0xE000
            && var high: int, low: int := u[0] - 0xD800, u[1] - 0xDC00;
               0x10000 + high * 0x400 + low == c as int
  {
    assert [c][1..] == [];
    assert Units([c]) == [0xD800 + (c as int - 0x10000) / 0x400, 0xDC00 + (c as int - 0x10000) % 0x400] + Units([]);
  }

  /** A user's bucket is the last state, modulo 10000, of the hash of the flag's key, a bar and the user's id. */
  lemma BucketIs(userId: string, flagKey: string, units: seq<Unit>, h: nat -> nat)
    requires Plain(flagKey + "|" + userId) && |units| == |flagKey| + 1 + |userId| && States(h, units)
    requires forall i | 0 <= i < |units| :: units[i] == (flagKey + "|" + userId)[i] as int
    ensures Bucket(userId, flagKey) == h(|units|) % 10000
  {
    PlainUnits(flagKey + "|" + userId);
    assert units == Units(flagKey + "|" + userId);
    assert units[..|units|] == units;
    HashIs(h, units, |units|);
  }
}
