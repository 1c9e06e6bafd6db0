/**
 * Prefix scoring, shared by both versions of the rules: slots are compared
 * left to right against the target, each matching slot i (0-based) earns
 * BASE_POINTS * MULTIPLIERS[i] = 2^i points, and the scan stops at the first
 * mismatch.
 */
module Scoring {
  import opened Cards
  import opened Patterns

  /** MULTIPLIERS: the per-slot multiplier ladder. */
  const Multipliers: seq<nat> := [1, 2, 4, 8, 16]

  /** BASE_POINTS. */
  const BasePoints: nat := 1

  function Pow2(n: nat): (r: nat)
    ensures r >= 1
  {
    if n == 0 then 1 else 2 * Pow2(n - 1)
  }

  /** The ladder doubles from 1: the multiplier of slot i (0-based) is 2^i. */
  lemma MultipliersArePowers()
    ensures |Multipliers| == PatternLength
    ensures forall i :: 0 <= i < |Multipliers| ==> Multipliers[i] == Pow2(i)
  {
    assert Pow2(0) == 1 && Pow2(1) == 2 && Pow2(2) == 4 && Pow2(3) == 8 && Pow2(4) == 16;
  }

  /** getMultipliers: a copy of the ladder, slot i worth 2^i. */
  function GetMultipliers(): (m: seq<nat>)
    ensures |m| == PatternLength
    ensures forall i :: 0 <= i < |m| ==> m[i] == Pow2(i)
  {
    MultipliersArePowers();
    Multipliers
  }

  /** One entry of the score breakdown. */
  datatype SlotScore = SlotScore(slot: nat, multiplier: nat, points: nat)

  /**
   * The number of leading slots of `tokens`, from `i` on, that match the
   * target: the index at which the left-to-right scan stops.
   */
  function MatchFrom(tokens: Row, target: Row, i: nat): (k: nat)
    requires i <= |tokens|
    ensures i <= k <= |tokens|
    ensures forall j :: i <= j < k ==> SlotIs(target, j, tokens[j])
    ensures k < |tokens| ==> !SlotIs(target, k, tokens[k])
    decreases |tokens| - i
  {
    if i == |tokens| || !SlotIs(target, i, tokens[i]) then i else MatchFrom(tokens, target, i + 1)
  }

  /** The length of the matching prefix: where the scan stops. */
  function MatchLength(tokens: Row, target: Row): (k: nat)
    ensures k <= |tokens|
  {
    MatchFrom(tokens, target, 0)
  }

  /** The matching prefix is the longest one: slots before it match, the slot at it does not. */
  lemma MatchLengthMeans(tokens: Row, target: Row, k: nat)
    requires k <= |tokens|
    ensures MatchLength(tokens, target) == k <==>
      (forall j :: 0 <= j < k ==> SlotIs(target, j, tokens[j])) && (k < |tokens| ==> !SlotIs(target, k, tokens[k]))
  {
  }

  /** The breakdown entry of slot i (0-based): shown as slot i+1. */
  function Entry(i: nat): SlotScore
    requires i < |Multipliers|
  {
    SlotScore(i + 1, Multipliers[i], BasePoints * Multipliers[i])
  }

  /** The breakdown of a scan that matched `k` slots: one entry per matched slot, in order. */
  function Breakdown(k: nat): (b: seq<SlotScore>)
    requires k <= |Multipliers|
    ensures |b| == k
    ensures forall j :: 0 <= j < k ==> b[j] == SlotScore(j + 1, Pow2(j), Pow2(j))
  {
    MultipliersArePowers();
    seq(k, j requires 0 <= j < k => Entry(j))
  }

  /** The points of a breakdown, summed in order. */
  function Points(b: seq<SlotScore>): nat
  {
    if b == [] then 0 else Points(b[..|b| - 1]) + b[|b| - 1].points
  }

  /** A prefix of k matched slots is worth 1 + 2 + ... + 2^(k-1) = 2^k - 1 points. */
  lemma {:induction false} PointsOfBreakdown(k: nat)
    requires k <= |Multipliers|
    ensures Points(Breakdown(k)) == Pow2(k) - 1
  {
    if k > 0 {
      PointsOfBreakdown(k - 1);
      assert Breakdown(k)[..k - 1] == Breakdown(k - 1);
    }
  }

  /** The points of a matched prefix, as the scan accumulates them. */
  function PrefixPoints(tokens: Row, target: Row): (score: nat)
    requires |tokens| <= |Multipliers|
    ensures score == Pow2(MatchLength(tokens, target)) - 1
    ensures score <= 31
  {
    PointsOfBreakdown(MatchLength(tokens, target));
    PowBound(MatchLength(tokens, target));
    Points(Breakdown(MatchLength(tokens, target)))
  }

  /** For a five-slot row the full 31 points are scored exactly when the row matches the target. */
  lemma FullScoreIffMatched(tokens: Row, target: Row)
    requires |tokens| == PatternLength
    ensures PrefixPoints(tokens, target) == 31 <==> PatternsEqual(tokens, target)
  {
    MatchLengthMeans(tokens, target, |tokens|);
    PowBound(MatchLength(tokens, target));
    assert Pow2(5) == 32;
  }

  lemma {:induction false} PowBound(k: nat)
    requires k <= 5
    ensures Pow2(k) <= 32
    ensures k < 5 ==> Pow2(k) <= 16
  {
    if k > 0 {
      PowBound(k - 1);
    }
  }

  /**
   * The scoring loop of calculateScore: scan left to right, add each matching
   * slot's points and record its entry, stop at the first mismatch.
   */
  method ScanPrefix(tokens: Row, targetColors: Row) returns (score: nat, breakdown: seq<SlotScore>)
    requires |tokens| <= |Multipliers|
    ensures breakdown == Breakdown(MatchLength(tokens, targetColors))
    ensures score == PrefixPoints(tokens, targetColors)
  {
    score, breakdown := 0, [];
    var i := 0;
    while i < |tokens|
      invariant 0 <= i <= |tokens|
      invariant forall j :: 0 <= j < i ==> SlotIs(targetColors, j, tokens[j])
      invariant breakdown == Breakdown(i)
      invariant score == Points(breakdown)
    {
      if SlotIs(targetColors, i, tokens[i]) {
        var points := BasePoints * Multipliers[i];
        score := score + points;
        assert Breakdown(i + 1)[..i] == Breakdown(i);
        breakdown := breakdown + [SlotScore(i + 1, Multipliers[i], points)];
      } else {
        break;
      }
      i := i + 1;
    }
    MatchLengthMeans(tokens, targetColors, i);
  }
}
