/**
 * The earlier rules (src/client/game/gameLogic.ts): a single trial without
 * waves, scored by the matched prefix alone, and over as soon as the hand is
 * empty.
 */
module Legacy {
  import opened Wrappers
  import opened Cards
  import opened Patterns
  import opened Scoring
  import opened Hands

  /** The status line, as the outcome it reports. */
  datatype Message =
    | MatchTargets
    | InvalidTarget
    | GameOverCalculating
    | Played(cardName: string)

  datatype LegacyState = LegacyState(
    tokens: Row,
    targetColors: Row,
    hand: seq<Card>,
    deck: seq<Card>,
    isGameOver: bool,
    score: nat,
    scoreBreakdown: seq<SlotScore>,
    message: Message)

  /** The value calculateScore returns: no bonus in this version. */
  datatype LegacyScore = LegacyScore(score: nat, breakdown: seq<SlotScore>)

  /** calculateScore: the matched prefix, worth 2^k - 1 points, and nothing else. */
  method CalculateScore(tokens: Row, targetColors: Row) returns (result: LegacyScore)
    requires |tokens| <= |Multipliers|
    ensures result.breakdown == Breakdown(MatchLength(tokens, targetColors))
    ensures result.score == Pow2(|result.breakdown|) - 1 && result.score <= 31
  {
    var score, breakdown := ScanPrefix(tokens, targetColors);
    result := LegacyScore(score, breakdown);
  }

  /**
   * playCard. A finished game ignores the play; a targeting card without a
   * target inside the row only sets the message; otherwise the effect is
   * applied, every card with the played id leaves the hand, the score is
   * recomputed, and the game is over exactly when the hand is empty.
   */
  function PlayCard(st: LegacyState, card: Card, targetIndex: Option<int>): (r: LegacyState)
    requires |st.tokens| <= |Multipliers|
    ensures st.isGameOver ==> r == st
    ensures !st.isGameOver && card.requiresTarget && !ValidTarget(targetIndex, |st.tokens|) ==>
      r == st.(message := InvalidTarget)
    ensures !st.isGameOver && (card.requiresTarget ==> ValidTarget(targetIndex, |st.tokens|)) ==>
      && r.tokens == Apply(card.kind, st.tokens, targetIndex)
      && r.hand == RemoveById(st.hand, card.id)
      && r.targetColors == st.targetColors && r.deck == st.deck
      && (r.isGameOver <==> |r.hand| == 0)
      && r.scoreBreakdown == Breakdown(MatchLength(r.tokens, st.targetColors))
      && r.score == Pow2(|r.scoreBreakdown|) - 1
      && r.message == (if r.isGameOver then GameOverCalculating else Played(card.name))
  {
    if st.isGameOver then st
    else if card.requiresTarget && !ValidTarget(targetIndex, |st.tokens|) then st.(message := InvalidTarget)
    else
      var newTokens := Apply(card.kind, st.tokens, targetIndex);
      var newHand := RemoveById(st.hand, card.id);
      var gameOver := |newHand| == 0;
      var k := MatchLength(newTokens, st.targetColors);
      LegacyState(
        tokens := newTokens,
        targetColors := st.targetColors,
        hand := newHand,
        deck := st.deck,
        isGameOver := gameOver,
        score := PrefixPoints(newTokens, st.targetColors),
        scoreBreakdown := Breakdown(k),
        message := if gameOver then GameOverCalculating else Played(card.name))
  }

  /** createInitialState with its random draws given. */
  function InitialState(fullDeck: seq<Card>, starting: Row, target: Row, hand: seq<Card>): (r: LegacyState)
    ensures r.tokens == starting && r.targetColors == target && r.hand == hand && r.deck == fullDeck
    ensures !r.isGameOver && r.score == 0 && r.scoreBreakdown == [] && r.message == MatchTargets
  {
    LegacyState(starting, target, hand, fullDeck, false, 0, [], MatchTargets)
  }

  /**
   * What every state of the game satisfies: five-slot rows, a hand drawn from
   * the deck, the game over exactly when the hand is empty, and a score that
   * is the breakdown of a matched prefix.
   */
  ghost predicate LegacyInv(st: LegacyState)
  {
    && |st.tokens| == PatternLength && |st.targetColors| == PatternLength
    && multiset(st.hand) <= multiset(st.deck)
    && (st.isGameOver <==> |st.hand| == 0)
    && |st.scoreBreakdown| <= PatternLength
    && st.scoreBreakdown == Breakdown(|st.scoreBreakdown|)
    && st.score == Pow2(|st.scoreBreakdown|) - 1
  }

  lemma InitialStateInv(fullDeck: seq<Card>, starting: Row, target: Row, hand: seq<Card>)
    requires |starting| == PatternLength && |target| == PatternLength
    requires |hand| > 0 && multiset(hand) <= multiset(fullDeck)
    ensures LegacyInv(InitialState(fullDeck, starting, target, hand))
  {
  }

  lemma PlayCardInv(st: LegacyState, card: Card, targetIndex: Option<int>)
    requires LegacyInv(st)
    ensures LegacyInv(PlayCard(st, card, targetIndex))
  {
  }

  /**
   * Every play of a held card that goes through shrinks the hand, so a game
   * whose plays are taken from the hand ends after at most |hand| of them.
   */
  lemma PlayHeldShrinksHand(st: LegacyState, card: Card, targetIndex: Option<int>)
    requires LegacyInv(st) && card in st.hand
    requires card.requiresTarget ==> ValidTarget(targetIndex, |st.tokens|)
    ensures |PlayCard(st, card, targetIndex).hand| < |st.hand|
  {
    RemoveHeldShrinks(st.hand, card);
  }

  /** The reported score is the full 31 exactly when the row matches the target. */
  lemma FullScoreMeansMatched(st: LegacyState)
    requires LegacyInv(st)
    requires st.scoreBreakdown == Breakdown(MatchLength(st.tokens, st.targetColors))
    ensures st.score == 31 <==> PatternsEqual(st.tokens, st.targetColors)
  {
    FullScoreIffMatched(st.tokens, st.targetColors);
  }

  /** createInitialState: draw the patterns and deal five cards from the shuffled deck. */
  method CreateInitialState(fullDeck: seq<Card>, draws: seq<Row>, shuffled: seq<Card>) returns (r: LegacyState)
    requires forall j :: 0 <= j < |draws| ==> |draws[j]| == PatternLength
    requires exists j :: 1 <= j < |draws| && draws[j] != draws[0]
    requires multiset(shuffled) == multiset(fullDeck)
    ensures r == InitialState(fullDeck, r.tokens, r.targetColors, DealCards(fullDeck, 5, shuffled).hand)
    ensures r.targetColors == draws[0] && r.tokens != r.targetColors
    ensures |fullDeck| > 0 ==> LegacyInv(r)
  {
    var starting, target, _ := GeneratePatterns(draws);
    var deal := DealCards(fullDeck, 5, shuffled);
    r := InitialState(fullDeck, starting, target, deal.hand);
  }
}
