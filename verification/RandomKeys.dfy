/** The text that a row's random key is hashed from: draws under different seeds, steps or groups differ in it. */
module RandomKeys {
  import opened Decimal

  const PREFIX := "voicebox-qwen-batch-v1:"

  function PrintInt(n: int): string {
    if n < 0 then "-" + Print(-n) else Print(n)
  }

  function Payload(seed: int, counter: nat): string {
    PREFIX + (PrintInt(seed) + ":" + Print(counter))
  }

  lemma PrintIntIsInjective(m: int, n: int)
    requires PrintInt(m) == PrintInt(n)
    ensures m == n
  {
    ParsePrint(if m < 0 then -m else m);
    ParsePrint(if n < 0 then -n else n);
    assert Print(if m < 0 then -m else m)[0] != '-' && Print(if n < 0 then -n else n)[0] != '-';
    if m < 0 {
      assert PrintInt(m)[1..] == Print(-m) && PrintInt(n)[1..] == Print(-n);
    }
  }

  lemma {:induction false} ColonSplits(a: string, b: string, c: string, d: string)
    requires ':' !in a && ':' !in c && a + ":" + b == c + ":" + d
    ensures a == c && b == d
  {
    var left, right := a + ":" + b, c + ":" + d;
    if a == "" || c == "" {
      assert left[0] == right[0];
      assert a == "" && c == "";
      assert left[1..] == b && right[1..] == d;
    } else {
      assert left[1..] == a[1..] + ":" + b && right[1..] == c[1..] + ":" + d;
      assert left[0] == a[0] && right[0] == c[0];
      ColonSplits(a[1..], b, c[1..], d);
      assert a == [a[0]] + a[1..] && c == [c[0]] + c[1..];
    }
  }

  /** Different seeds or counters are hashed from different texts. */
  lemma PayloadIsInjective(seed: int, counter: nat, otherSeed: int, otherCounter: nat)
    requires Payload(seed, counter) == Payload(otherSeed, otherCounter)
    ensures seed == otherSeed && counter == otherCounter
  {
    var own, other := PrintInt(seed) + ":" + Print(counter), PrintInt(otherSeed) + ":" + Print(otherCounter);
    assert Payload(seed, counter)[|PREFIX|..] == own && Payload(otherSeed, otherCounter)[|PREFIX|..] == other;
    ColonSplits(PrintInt(seed), Print(counter), PrintInt(otherSeed), Print(otherCounter));
    PrintIntIsInjective(seed, otherSeed);
    ParsePrint(counter);
    ParsePrint(otherCounter);
  }

  /** Draw `k` of step `s` in a row with `groups` draws a step: no other draw under its seed, and none under another,
   has its payload. */
  lemma DrawsHaveTheirOwnPayload(seed: int, s: nat, k: nat, otherSeed: int, t: nat, m: nat, groups: nat)
    requires k < groups && m < groups
    requires Payload(seed, s * groups + k) == Payload(otherSeed, t * groups + m)
    ensures seed == otherSeed && s == t && k == m
  {
    SameCounter(seed, s * groups + k, otherSeed, t * groups + m, s, k, t, m, groups);
  }

  lemma {:induction false} SameCounter(
      seed: int, counter: nat, otherSeed: int, otherCounter: nat, s: nat, k: nat, t: nat, m: nat, groups: nat)
    requires k < groups && m < groups && counter == s * groups + k && otherCounter == t * groups + m
    requires Payload(seed, counter) == Payload(otherSeed, otherCounter)
    ensures seed == otherSeed && s == t && k == m
  {
    PayloadIsInjective(seed, counter, otherSeed, otherCounter);
    StepAndGroup(s, k, t, m, groups, counter);
  }

  lemma StepAndGroup(s: nat, k: nat, t: nat, m: nat, groups: nat, counter: nat)
    requires k < groups && m < groups && counter == s * groups + k && counter == t * groups + m
    ensures s == t && k == m
  {
    if s < t {
      StepsApart(s, t, groups);
    } else if t < s {
      StepsApart(t, s, groups);
    }
  }

  lemma StepsApart(s: nat, t: nat, groups: nat)
    requires s < t
    ensures s * groups + groups <= t * groups
  {
    AtLeastOneStep(t - s, groups);
    assert t * groups == s * groups + (t - s) * groups;
  }

  lemma {:induction false} AtLeastOneStep(steps: nat, groups: nat)
    requires steps > 0
    ensures steps * groups >= groups
  {
    if steps > 1 {
      AtLeastOneStep(steps - 1, groups);
      assert steps * groups == (steps - 1) * groups + groups;
    }
  }
}
