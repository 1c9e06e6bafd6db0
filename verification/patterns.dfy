/**
 * Token patterns: the equality test the game logic uses and the rejection
 * loop that draws a starting pattern different from the target.
 */
module Patterns {
  import opened Cards

  /** Every pattern the game draws has five slots. */
  const PatternLength := 5

  /** `pattern[i] === color`, where an index past the end reads as `undefined`. */
  predicate SlotIs(pattern: Row, i: nat, color: Color)
  {
    i < |pattern| && pattern[i] == color
  }

  /**
   * arePatternsEqual: every slot of the first pattern equals the same slot of
   * the second. Reading past the end of the second pattern gives `undefined`,
   * which equals no colour, so the test is "the first is a prefix of the second".
   */
  predicate PatternsEqual(pattern1: Row, pattern2: Row)
  {
    forall i :: 0 <= i < |pattern1| ==> SlotIs(pattern2, i, pattern1[i])
  }

  /** Equality of patterns is "the first is a prefix of the second"; for equal lengths it is plain equality. */
  lemma PatternsEqualMeans(pattern1: Row, pattern2: Row)
    ensures PatternsEqual(pattern1, pattern2) <==> |pattern1| <= |pattern2| && pattern2[..|pattern1|] == pattern1
    ensures |pattern1| == |pattern2| ==> (PatternsEqual(pattern1, pattern2) <==> pattern1 == pattern2)
  {
    if |pattern1| > |pattern2| {
      var i := |pattern2|;
      assert 0 <= i < |pattern1| && !SlotIs(pattern2, i, pattern1[i]);
    }
  }

  /**
   * generatePatterns. `draws` stands for the successive results of
   * generateRandomPattern: the first is the target, the following ones are
   * starting candidates, and the loop redraws the starting pattern while it
   * equals the target. The random source is assumed to produce, eventually,
   * a pattern different from the first one; `consumed` is the number of
   * draws the loop used.
   */
  method GeneratePatterns(draws: seq<Row>) returns (starting: Row, target: Row, consumed: nat)
    requires forall j :: 0 <= j < |draws| ==> |draws[j]| == PatternLength
    requires exists j :: 1 <= j < |draws| && draws[j] != draws[0]
    ensures starting != target
    ensures |starting| == PatternLength && |target| == PatternLength
    ensures 2 <= consumed <= |draws| && target == draws[0] && starting == draws[consumed - 1]
    ensures forall j :: 1 <= j < consumed - 1 ==> draws[j] == target
  {
    target := draws[0];
    starting := draws[1];
    consumed := 2;
    while PatternsEqual(starting, target)
      invariant 2 <= consumed <= |draws| && starting == draws[consumed - 1]
      invariant forall j :: 1 <= j < consumed - 1 ==> draws[j] == target
      invariant exists j :: consumed - 1 <= j < |draws| && draws[j] != target
      decreases |draws| - consumed
    {
      PatternsEqualMeans(starting, target);
      starting := draws[consumed];
      consumed := consumed + 1;
    }
    PatternsEqualMeans(starting, target);
  }
}
