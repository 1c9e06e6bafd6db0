/**
 * The current rules (the GameLogic class of the shipped bundle): scoring with
 * the full-match bonus, the play transition with trial, wave and game-over
 * accounting, the initial state and the rollover to the next trial.
 *
 * Randomness is factored out: the pattern draws and the shuffled deck are
 * parameters, and the minimum number of moves is computed by the solver.
 */
module Rules {
  import opened Wrappers
  import opened Cards
  import opened Patterns
  import opened Scoring
  import opened Hands
  import opened Solver

  /** The bonus for matching all five slots in the minimum number of moves. */
  const BonusPoints: nat := 5

  /** The most one trial can score: 31 for a full match plus the bonus. */
  const MaxTrialScore: nat := 36

  /** The number of cards dealt for each trial. */
  const HandSize: nat := 5

  const InitialMaxTrials: int := 3
  const InitialMaxWaves: int := 2
  const InitialTargetScore: int := 180
  const InitialWaveTargetScore: int := 90

  /** The value calculateScore returns. */
  datatype ScoreResult = ScoreResult(score: nat, breakdown: seq<SlotScore>, bonusEarned: bool)

  /**
   * calculateScore: the matched prefix earns 2^k - 1 points and its
   * breakdown; the bonus is earned when all five slots matched and the
   * moves played equal the minimum, and then adds 5.
   */
  function ScoreOf(tokens: Row, targetColors: Row, movesPlayed: int, minMoves: int): (r: ScoreResult)
    requires |tokens| <= |Multipliers|
    ensures r.breakdown == Breakdown(MatchLength(tokens, targetColors))
    ensures r.bonusEarned <==> |r.breakdown| == PatternLength && movesPlayed == minMoves
    ensures r.score == Pow2(|r.breakdown|) - 1 + (if r.bonusEarned then BonusPoints else 0)
    ensures r.score <= MaxTrialScore
  {
    var k := MatchLength(tokens, targetColors);
    var bonus := k == PatternLength && movesPlayed == minMoves;
    ScoreResult(PrefixPoints(tokens, targetColors) + (if bonus then BonusPoints else 0), Breakdown(k), bonus)
  }

  /** For five-slot rows the bonus means: the target is matched, in exactly the minimum number of moves. */
  lemma BonusMeansSolvedInMinimum(tokens: Row, targetColors: Row, movesPlayed: int, minMoves: int)
    requires |tokens| == PatternLength
    ensures ScoreOf(tokens, targetColors, movesPlayed, minMoves).bonusEarned <==>
      PatternsEqual(tokens, targetColors) && movesPlayed == minMoves
    ensures ScoreOf(tokens, targetColors, movesPlayed, minMoves).bonusEarned ==>
      ScoreOf(tokens, targetColors, movesPlayed, minMoves).score == MaxTrialScore
  {
    MatchLengthMeans(tokens, targetColors, |tokens|);
    assert Pow2(5) == 32;
  }

  /** calculateScore: the shared scan, then the bonus check. */
  method CalculateScore(tokens: Row, targetColors: Row, movesPlayed: int, minMoves: int) returns (result: ScoreResult)
    requires |tokens| <= |Multipliers|
    ensures result == ScoreOf(tokens, targetColors, movesPlayed, minMoves)
  {
    var score, breakdown := ScanPrefix(tokens, targetColors);
    var bonusEarned := |breakdown| == PatternLength && movesPlayed == minMoves;
    if bonusEarned {
      score := score + BonusPoints;
    }
    result := ScoreResult(score, breakdown, bonusEarned);
  }

  /** The status line, as the outcome it reports (the text itself is not modelled). */
  datatype Message =
    | GameStart
    | TrialStart(wave: int, trial: int, maxTrials: int, waveScore: nat, waveTargetScore: int)
    | InvalidTarget
    | TargetMatched
    | TrialComplete(trial: int)
    | Played(cardName: string)
    | Victory(totalScore: nat, targetScore: int)
    | Defeat(totalScore: nat, targetScore: int)

  /** One entry of the play history. */
  datatype HistoryEntry = HistoryEntry(cardName: string, beforeTokens: Row, afterTokens: Row, targetIndex: Option<int>)

  datatype GameState = GameState(
    tokens: Row,
    targetColors: Row,
    hand: seq<Card>,
    deck: seq<Card>,
    isGameOver: bool,
    score: nat,
    scoreBreakdown: seq<SlotScore>,
    message: Message,
    currentTrial: int,
    currentWave: int,
    totalScore: nat,
    waveScore: nat,
    maxTrials: int,
    maxWaves: int,
    targetScore: int,
    waveTargetScore: int,
    isTrialOver: bool,
    isTargetMatched: bool,
    playHistory: seq<HistoryEntry>,
    trialScores: seq<nat>,
    waveScores: seq<nat>,
    bonusEarned: bool,
    minMovesTarget: nat)

  /** A play that goes through: the game is not over and a targeting card has a target inside the row. */
  predicate ValidPlay(st: GameState, card: Card, targetIndex: Option<int>)
  {
    !st.isGameOver && (card.requiresTarget ==> ValidTarget(targetIndex, |st.tokens|))
  }

  /** The play ends the trial and the trial was the last of its wave. */
  predicate WaveComplete(st: GameState, trialOver: bool)
  {
    trialOver && st.currentTrial >= st.maxTrials
  }

  /**
   * playCard. A finished game ignores the play; a targeting card without a
   * target inside the row only sets the message. Otherwise the card's effect
   * is applied, the play is recorded, every card with the played card's id
   * leaves the hand, and the trial ends when the hand is empty or the target
   * is matched. Only an ended trial adds its score to the wave and the
   * total; the last trial of a wave records the wave's score, and the last
   * wave ends the game.
   */
  function PlayCard(st: GameState, card: Card, targetIndex: Option<int>): (r: GameState)
    requires |st.tokens| <= |Multipliers|
    ensures st.isGameOver ==> r == st
    ensures !st.isGameOver && !ValidPlay(st, card, targetIndex) ==> r == st.(message := InvalidTarget)
    ensures ValidPlay(st, card, targetIndex) ==>
      && r.tokens == Apply(card.kind, st.tokens, targetIndex)
      && r.playHistory == st.playHistory + [HistoryEntry(card.name, st.tokens, r.tokens, targetIndex)]
      && r.hand == RemoveById(st.hand, card.id)
      && r.targetColors == st.targetColors && r.deck == st.deck
      && r.currentTrial == st.currentTrial && r.currentWave == st.currentWave
      && r.maxTrials == st.maxTrials && r.maxWaves == st.maxWaves
      && r.targetScore == st.targetScore && r.waveTargetScore == st.waveTargetScore
      && r.minMovesTarget == st.minMovesTarget
    ensures ValidPlay(st, card, targetIndex) ==>
      && (r.isTargetMatched <==> PatternsEqual(r.tokens, st.targetColors))
      && (r.isTrialOver <==> |r.hand| == 0 || r.isTargetMatched)
    ensures ValidPlay(st, card, targetIndex) ==>
      var s := ScoreOf(r.tokens, st.targetColors, |r.playHistory|, st.minMovesTarget);
      && r.score == s.score && r.scoreBreakdown == s.breakdown
      && (r.bonusEarned <==> r.isTrialOver && s.bonusEarned)
    ensures ValidPlay(st, card, targetIndex) ==>
      r.message ==
        (if r.isGameOver then
           (if r.totalScore >= st.targetScore then Victory(r.totalScore, st.targetScore)
            else Defeat(r.totalScore, st.targetScore))
         else if r.isTargetMatched then TargetMatched
         else if r.isTrialOver then TrialComplete(st.currentTrial)
         else Played(card.name))
  {
    if st.isGameOver then st
    else if card.requiresTarget && !ValidTarget(targetIndex, |st.tokens|) then st.(message := InvalidTarget)
    else
      var newTokens := Apply(card.kind, st.tokens, targetIndex);
      var newHistory := st.playHistory + [HistoryEntry(card.name, st.tokens, newTokens, targetIndex)];
      var newHand := RemoveById(st.hand, card.id);
      var result := ScoreOf(newTokens, st.targetColors, |newHistory|, st.minMovesTarget);
      var matched := PatternsEqual(newTokens, st.targetColors);
      var trialOver := |newHand| == 0 || matched;
      var newWaveScore := if trialOver then st.waveScore + result.score else st.waveScore;
      var newTotalScore := if trialOver then st.totalScore + result.score else st.totalScore;
      var newTrialScores := if trialOver then st.trialScores + [result.score] else st.trialScores;
      var waveComplete := WaveComplete(st, trialOver);
      var newWaveScores := if waveComplete then st.waveScores + [newWaveScore] else st.waveScores;
      var gameOver := waveComplete && st.currentWave >= st.maxWaves;
      var message :=
        if gameOver then
          (if newTotalScore >= st.targetScore then Victory(newTotalScore, st.targetScore)
           else Defeat(newTotalScore, st.targetScore))
        else if matched then TargetMatched
        else if trialOver then TrialComplete(st.currentTrial)
        else Played(card.name);
      GameState(
        tokens := newTokens,
        targetColors := st.targetColors,
        hand := newHand,
        deck := st.deck,
        isGameOver := gameOver,
        score := result.score,
        scoreBreakdown := result.breakdown,
        message := message,
        currentTrial := st.currentTrial,
        currentWave := st.currentWave,
        totalScore := newTotalScore,
        waveScore := newWaveScore,
        maxTrials := st.maxTrials,
        maxWaves := st.maxWaves,
        targetScore := st.targetScore,
        waveTargetScore := st.waveTargetScore,
        isTrialOver := trialOver,
        isTargetMatched := matched,
        playHistory := newHistory,
        trialScores := newTrialScores,
        waveScores := newWaveScores,
        bonusEarned := if trialOver then result.bonusEarned else false,
        minMovesTarget := st.minMovesTarget)
  }

  /**
   * The score ledger of a valid play: the trial's score reaches the wave
   * score, the total and the trial list only when the trial ends; the wave
   * list grows only when the wave ends; the game ends exactly when the last
   * trial of the last wave ends.
   */
  lemma PlayCardLedger(st: GameState, card: Card, targetIndex: Option<int>)
    requires |st.tokens| <= |Multipliers| && ValidPlay(st, card, targetIndex)
    ensures var r := PlayCard(st, card, targetIndex);
      && r.waveScore == st.waveScore + (if r.isTrialOver then r.score else 0)
      && r.totalScore == st.totalScore + (if r.isTrialOver then r.score else 0)
      && r.trialScores == st.trialScores + (if r.isTrialOver then [r.score] else [])
      && r.waveScores == st.waveScores + (if WaveComplete(st, r.isTrialOver) then [r.waveScore] else [])
      && (r.isGameOver <==> WaveComplete(st, r.isTrialOver) && st.currentWave >= st.maxWaves)
  {
    assert st.trialScores + [] == st.trialScores;
    assert st.waveScores + [] == st.waveScores;
  }

  /** The state for a fresh trial: new rows, a new hand, nothing played yet. */
  function FreshTrial(st: GameState, fullDeck: seq<Card>, starting: Row, target: Row, hand: seq<Card>, minMoves: nat,
                      trial: int, wave: int, waveScore: nat, trialScores: seq<nat>, message: Message): (r: GameState)
    ensures r.tokens == starting && r.targetColors == target && r.hand == hand && r.deck == fullDeck
    ensures r.currentTrial == trial && r.currentWave == wave && r.waveScore == waveScore && r.trialScores == trialScores
    ensures !r.isGameOver && !r.isTrialOver && !r.isTargetMatched && !r.bonusEarned
    ensures r.playHistory == [] && r.score == 0 && r.scoreBreakdown == []
    ensures r.totalScore == st.totalScore && r.waveScores == st.waveScores
    ensures r.maxTrials == st.maxTrials && r.maxWaves == st.maxWaves
    ensures r.targetScore == st.targetScore && r.waveTargetScore == st.waveTargetScore
    ensures r.minMovesTarget == minMoves && r.message == message
  {
    GameState(
      tokens := starting,
      targetColors := target,
      hand := hand,
      deck := fullDeck,
      isGameOver := false,
      score := 0,
      scoreBreakdown := [],
      message := message,
      currentTrial := trial,
      currentWave := wave,
      totalScore := st.totalScore,
      waveScore := waveScore,
      maxTrials := st.maxTrials,
      maxWaves := st.maxWaves,
      targetScore := st.targetScore,
      waveTargetScore := st.waveTargetScore,
      isTrialOver := false,
      isTargetMatched := false,
      playHistory := [],
      trialScores := trialScores,
      waveScores := st.waveScores,
      bonusEarned := false,
      minMovesTarget := minMoves)
  }

  /** The configuration a new game starts from, before any pattern is drawn. */
  const Opening: GameState := GameState(
    tokens := [], targetColors := [], hand := [], deck := [], isGameOver := false, score := 0,
    scoreBreakdown := [], message := GameStart, currentTrial := 1, currentWave := 1,
    totalScore := 0, waveScore := 0, maxTrials := InitialMaxTrials, maxWaves := InitialMaxWaves,
    targetScore := InitialTargetScore, waveTargetScore := InitialWaveTargetScore,
    isTrialOver := false, isTargetMatched := false, playHistory := [], trialScores := [],
    waveScores := [], bonusEarned := false, minMovesTarget := 0)

  /** createInitialState with its random draws and solver answer given: wave 1, trial 1 of 3, nothing scored. */
  function InitialState(fullDeck: seq<Card>, starting: Row, target: Row, hand: seq<Card>, minMoves: nat): (r: GameState)
    ensures r.tokens == starting && r.targetColors == target && r.hand == hand && r.deck == fullDeck
    ensures r.currentTrial == 1 && r.currentWave == 1
    ensures r.maxTrials == 3 && r.maxWaves == 2 && r.targetScore == 180 && r.waveTargetScore == 90
    ensures r.totalScore == 0 && r.waveScore == 0 && r.trialScores == [] && r.waveScores == []
    ensures !r.isGameOver && !r.isTrialOver && !r.isTargetMatched && !r.bonusEarned && r.playHistory == []
    ensures r.score == 0 && r.scoreBreakdown == []
    ensures r.minMovesTarget == minMoves && r.message == GameStart
  {
    FreshTrial(Opening, fullDeck, starting, target, hand, minMoves, 1, 1, 0, [], GameStart)
  }

  /**
   * startNextTrial with its random draws and solver answer given: the next
   * trial of the wave, or trial 1 of the next wave with the wave score and
   * trial list cleared.
   */
  function NextTrial(st: GameState, fullDeck: seq<Card>, starting: Row, target: Row, hand: seq<Card>, minMoves: nat): (r: GameState)
    ensures r.tokens == starting && r.targetColors == target && r.hand == hand && r.deck == fullDeck
    ensures st.currentTrial + 1 <= st.maxTrials ==>
      r.currentTrial == st.currentTrial + 1 && r.currentWave == st.currentWave &&
      r.waveScore == st.waveScore && r.trialScores == st.trialScores
    ensures st.currentTrial + 1 > st.maxTrials ==>
      r.currentTrial == 1 && r.currentWave == st.currentWave + 1 && r.waveScore == 0 && r.trialScores == []
    ensures r.totalScore == st.totalScore && r.waveScores == st.waveScores
    ensures r.maxTrials == st.maxTrials && r.maxWaves == st.maxWaves
    ensures r.targetScore == st.targetScore && r.waveTargetScore == st.waveTargetScore
    ensures !r.isGameOver && !r.isTrialOver && !r.isTargetMatched && !r.bonusEarned && r.playHistory == []
    ensures r.score == 0 && r.scoreBreakdown == []
    ensures r.minMovesTarget == minMoves
    ensures r.message == TrialStart(r.currentWave, r.currentTrial, st.maxTrials, r.waveScore, st.waveTargetScore)
  {
    var wrap := st.currentTrial + 1 > st.maxTrials;
    var nextTrial := if wrap then 1 else st.currentTrial + 1;
    var nextWave := if wrap then st.currentWave + 1 else st.currentWave;
    var newWaveScore := if wrap then 0 else st.waveScore;
    var newTrialScores := if wrap then [] else st.trialScores;
    FreshTrial(st, fullDeck, starting, target, hand, minMoves, nextTrial, nextWave, newWaveScore, newTrialScores,
               TrialStart(nextWave, nextTrial, st.maxTrials, newWaveScore, st.waveTargetScore))
  }

  /** The sum of a list of scores. */
  function Sum(s: seq<nat>): nat
  {
    if s == [] then 0 else Sum(s[..|s| - 1]) + s[|s| - 1]
  }

  lemma SumSnoc(s: seq<nat>, x: nat)
    ensures Sum(s + [x]) == Sum(s) + x
  {
    assert (s + [x])[..|s|] == s;
  }

  /** The wave has recorded its score: its last trial is over. */
  predicate WaveDone(st: GameState)
  {
    st.isTrialOver && st.currentTrial >= st.maxTrials
  }

  /**
   * What every state reached by plays during running trials and by rollovers
   * satisfies (a play after a trial has ended is not refused by the rules and
   * breaks it, see PlayAfterTrialOverBreaksInv): five-slot rows; trial and
   * wave counters in range; one trial score per finished trial of the wave,
   * summing to the wave score; one wave score per finished wave; the total is
   * the finished waves plus the running wave; the game is over exactly when
   * the last trial of the last wave is; a running trial has cards in hand, has
   * not reached the target and has no bonus; the hand comes from the deck.
   */
  ghost predicate Inv(st: GameState)
  {
    && |st.tokens| == PatternLength && |st.targetColors| == PatternLength
    && 1 <= st.currentTrial <= st.maxTrials
    && 1 <= st.currentWave <= st.maxWaves
    && |st.trialScores| == st.currentTrial - 1 + (if st.isTrialOver then 1 else 0)
    && Sum(st.trialScores) == st.waveScore
    && (forall j :: 0 <= j < |st.trialScores| ==> st.trialScores[j] <= MaxTrialScore)
    && |st.waveScores| == st.currentWave - 1 + (if WaveDone(st) then 1 else 0)
    && st.totalScore == Sum(st.waveScores) + (if WaveDone(st) then 0 else st.waveScore)
    && (st.isGameOver <==> WaveDone(st) && st.currentWave >= st.maxWaves)
    && (!st.isTrialOver ==> !st.bonusEarned && |st.hand| > 0 && !PatternsEqual(st.tokens, st.targetColors))
    && multiset(st.hand) <= multiset(st.deck)
  }

  /** A fresh trial's requirements on its draws: distinct five-slot rows and a non-empty hand from the deck. */
  ghost predicate GoodTrial(fullDeck: seq<Card>, starting: Row, target: Row, hand: seq<Card>)
  {
    && |starting| == PatternLength && |target| == PatternLength
    && !PatternsEqual(starting, target)
    && |hand| > 0 && multiset(hand) <= multiset(fullDeck)
  }

  lemma InitialStateInv(fullDeck: seq<Card>, starting: Row, target: Row, hand: seq<Card>, minMoves: nat)
    requires GoodTrial(fullDeck, starting, target, hand)
    ensures Inv(InitialState(fullDeck, starting, target, hand, minMoves))
  {
  }

  /** Playing a card during a running trial keeps the invariant. */
  lemma PlayCardInv(st: GameState, card: Card, targetIndex: Option<int>)
    requires Inv(st) && !st.isTrialOver
    ensures Inv(PlayCard(st, card, targetIndex))
  {
    var r := PlayCard(st, card, targetIndex);
    if ValidPlay(st, card, targetIndex) {
      PlayCardLedger(st, card, targetIndex);
      if r.isTrialOver {
        SumSnoc(st.trialScores, r.score);
        if WaveComplete(st, true) {
          SumSnoc(st.waveScores, r.waveScore);
        }
      }
    }
  }

  /**
   * playCard refuses plays only once the game is over, not once the trial is.
   * A play after the trial has ended either ends the trial again, appending
   * a second score for it, or reopens it; either way the ledger no longer
   * matches the counters.
   */
  lemma PlayAfterTrialOverBreaksInv(st: GameState, card: Card, targetIndex: Option<int>)
    requires Inv(st) && st.isTrialOver && ValidPlay(st, card, targetIndex)
    ensures PlayCard(st, card, targetIndex).isTrialOver ==>
      PlayCard(st, card, targetIndex).trialScores == st.trialScores + [PlayCard(st, card, targetIndex).score]
    ensures !Inv(PlayCard(st, card, targetIndex))
  {
    PlayCardLedger(st, card, targetIndex);
  }

  /** Moving on after a finished trial of a running game keeps the invariant. */
  lemma NextTrialInv(st: GameState, fullDeck: seq<Card>, starting: Row, target: Row, hand: seq<Card>, minMoves: nat)
    requires Inv(st) && st.isTrialOver && !st.isGameOver
    requires GoodTrial(fullDeck, starting, target, hand)
    ensures Inv(NextTrial(st, fullDeck, starting, target, hand, minMoves))
  {
  }

  /**
   * The hand-size bound: every play that goes through records one history
   * entry, and a play of a held card removes at least that card, so the plays
   * of a trial and the cards still held never exceed the five dealt.
   */
  ghost predicate HandBound(st: GameState)
  {
    |st.playHistory| + |st.hand| <= HandSize
  }

  /**
   * Playing a card taken from the hand (the engine only plays cards it found
   * there) keeps the bound, whether or not the trial is still running.
   */
  lemma HeldPlayKeepsBound(st: GameState, card: Card, targetIndex: Option<int>)
    requires |st.tokens| <= |Multipliers|
    requires card in st.hand && HandBound(st)
    ensures HandBound(PlayCard(st, card, targetIndex))
    ensures |PlayCard(st, card, targetIndex).hand| <= HandSize
    ensures |PlayCard(st, card, targetIndex).playHistory| <= HandSize
  {
    if ValidPlay(st, card, targetIndex) {
      RemoveHeldShrinks(st.hand, card);
    }
  }

  /**
   * Within the bound a trial has at most five plays, so a play that earns the
   * bonus was measured against a real optimum of at most five moves, never
   * against the solver's sentinel of ten.
   */
  lemma BonusBelowSentinel(st: GameState, card: Card, targetIndex: Option<int>)
    requires |st.tokens| <= |Multipliers|
    requires card in st.hand && HandBound(st)
    ensures ValidPlay(st, card, targetIndex) && PlayCard(st, card, targetIndex).bonusEarned ==>
      st.minMovesTarget == |PlayCard(st, card, targetIndex).playHistory| <= HandSize < MaxMoves
  {
    HeldPlayKeepsBound(st, card, targetIndex);
  }

  /**
   * createInitialState: draw the patterns, deal five cards from the shuffled
   * deck and ask the solver for the minimum number of moves.
   */
  method CreateInitialState(fullDeck: seq<Card>, draws: seq<Row>, shuffled: seq<Card>) returns (r: GameState)
    requires forall j :: 0 <= j < |draws| ==> |draws[j]| == PatternLength
    requires exists j :: 1 <= j < |draws| && draws[j] != draws[0]
    requires multiset(shuffled) == multiset(fullDeck)
    ensures r == InitialState(fullDeck, r.tokens, r.targetColors, DealCards(fullDeck, HandSize, shuffled).hand, r.minMovesTarget)
    ensures r.targetColors == draws[0] && r.tokens != r.targetColors
    ensures IsMinimumMoves(r.hand, r.tokens, r.targetColors, r.minMovesTarget)
    ensures HandBound(r)
    ensures |fullDeck| > 0 ==> Inv(r)
  {
    var starting, target, _ := GeneratePatterns(draws);
    var deal := DealCards(fullDeck, HandSize, shuffled);
    var minMoves := MinimumMoves(starting, target, deal.hand);
    r := InitialState(fullDeck, starting, target, deal.hand, minMoves);
    PatternsEqualMeans(starting, target);
    if |fullDeck| > 0 {
      InitialStateInv(fullDeck, starting, target, deal.hand, minMoves);
    }
  }

  /**
   * startNextTrial: draw new patterns, deal a new hand from the full deck,
   * solve, and move to the next trial or wave.
   */
  method StartNextTrial(st: GameState, fullDeck: seq<Card>, draws: seq<Row>, shuffled: seq<Card>) returns (r: GameState)
    requires forall j :: 0 <= j < |draws| ==> |draws[j]| == PatternLength
    requires exists j :: 1 <= j < |draws| && draws[j] != draws[0]
    requires multiset(shuffled) == multiset(fullDeck)
    ensures r == NextTrial(st, fullDeck, r.tokens, r.targetColors, DealCards(fullDeck, HandSize, shuffled).hand, r.minMovesTarget)
    ensures r.targetColors == draws[0] && r.tokens != r.targetColors
    ensures IsMinimumMoves(r.hand, r.tokens, r.targetColors, r.minMovesTarget)
    ensures HandBound(r)
    ensures Inv(st) && st.isTrialOver && !st.isGameOver && |fullDeck| > 0 ==> Inv(r)
  {
    var starting, target, _ := GeneratePatterns(draws);
    var deal := DealCards(fullDeck, HandSize, shuffled);
    var minMoves := MinimumMoves(starting, target, deal.hand);
    r := NextTrial(st, fullDeck, starting, target, deal.hand, minMoves);
    PatternsEqualMeans(starting, target);
    if Inv(st) && st.isTrialOver && !st.isGameOver && |fullDeck| > 0 {
      NextTrialInv(st, fullDeck, starting, target, deal.hand, minMoves);
    }
  }
}
