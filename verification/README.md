# Sequora game core in Dafny

Sequora is a turn-based puzzle. The player holds a hand of flip cards. Each
card toggles the colour (Red/Blue) of one or more slots of a five-token row,
and the goal is to turn the starting row into a target row. This project
models the game core:

- the card effects and the fixed ten-card deck;
- pattern generation and the pattern equality test;
- prefix scoring on the multiplier ladder `[1, 2, 4, 8, 16]`, with and without
  the +5 bonus;
- dealing a hand from a shuffled deck, and removing a played card from it;
- the breadth-first minimum-moves solver;
- the two versions of the rules. The current one is the `GameLogic` class of
  `js/bundle.js`, with trials, waves, a score ledger and the bonus. The earlier
  one is `src/client/game/gameLogic.ts`, a single trial that ends when the hand
  is empty.

Modules:

- `Wrappers`: `Option`.
- `Cards`: colours, rows, card kinds, `Apply` (the effect of a card as a value),
  the in-place `execute` bodies, the card factories and the deck.
- `Patterns`: `arePatternsEqual` and the `generatePatterns` rejection loop.
- `Scoring`: the multiplier ladder and the prefix scan shared by both versions
  of `calculateScore`.
- `Hands`: `hand.filter(c => c.id !== card.id)` and `dealCards`.
- `Solver`: `calculateMinimumMoves`. The search is proved against
  `IsMinimumMoves`, which is stated over sequences of card plays:
  - the answer is at most 10;
  - it is 0 exactly when the start already matches the target;
  - no legal sequence of plays shorter than the answer reaches the target;
  - an answer below 10 is reached by some sequence of exactly that many plays.

  Cards are never used up during the search, so plays may repeat a card.
- `SolverExamples`: what that contract pins down on the situations in the
  game's test file and the five-Single-Flip case, and a lower bound for hands
  of Single Flip cards.
- `Rules`: the current `GameLogic`. The invariant `Inv` ties the score ledger
  to the trial and wave counters. It is preserved by `PlayCard` during a
  running trial and by `NextTrial` from a finished trial of a running game; a
  play after a trial ends breaks it (see `Rules.PlayAfterTrialOverBreaksInv`).
  A second predicate, `HandBound`, keeps the plays of a trial plus the cards
  held within the five dealt, so a bonus is never judged against the solver's
  sentinel.
- `Legacy`: the earlier `gameLogic.ts`, with its own invariant.

Randomness is a parameter everywhere:

- `generatePatterns` takes the successive random draws;
- `dealCards` takes the shuffled order of the deck, which must be a
  permutation of it;
- `createInitialState` and `startNextTrial` take both.

## Model

| member | source | states |
|---|---|---|
| Cards.Flip | src/client/game/cards.ts:6-8 | the result is the other colour |
| Cards.FlipInvolutive | src/client/game/cards.ts:6-8 | flipping twice gives back the original colour |
| Cards.Apply | js/bundle.js:29-79 | every effect returns a row of the same length as its input |
| Cards.ApplyEffect | src/client/game/cards.ts:19-76 | for Single Flip and Adjacent Flip, an absent, negative or too-large index leaves the row unchanged; Single Flip changes exactly the target slot; Adjacent Flip changes exactly the target and its in-bounds neighbours; Row Flip changes every slot |
| Cards.SingleChangesOne | src/client/game/cards.ts:24-26 | a valid Single Flip changes exactly the set of slots {target} |
| Cards.AdjacentChangesUpToThree | src/client/game/cards.ts:45-60 | a valid Adjacent Flip changes 1 + (left neighbour exists) + (right neighbour exists) slots, so 2 at an edge and 3 in the interior |
| Cards.RowChangesAll | src/client/game/cards.ts:74-76 | Row Flip changes as many slots as the row has, whatever the index |
| Cards.ExecuteSingle | src/client/game/cards.ts:19-27 | the copy-then-assign-in-place body returns exactly `Apply(SingleFlip, …)` |
| Cards.ExecuteAdjacent | src/client/game/cards.ts:40-61 | the copy then three guarded in-place flips return exactly `Apply(AdjacentFlip, …)` |
| Cards.ExecuteRow | src/client/game/cards.ts:74-76 | `tokens.map(flipToken)` returns exactly `Apply(RowFlip, …)` |
| Cards.Execute | js/bundle.js:29-79 | `card.execute` dispatches on the card's kind and returns its `Apply` |
| Cards.CreateSingleFlipCard | src/client/game/cards.ts:13-29 | the card keeps the given id, is a targeting Single Flip card, and its name agrees with its kind |
| Cards.CreateAdjacentFlipCard | src/client/game/cards.ts:34-63 | the card keeps the given id, is a targeting Adjacent Flip card, and its name agrees with its kind |
| Cards.CreateRowFlipCard | src/client/game/cards.ts:68-78 | the card keeps the given id, is a Row Flip card that needs no target, and its name agrees with its kind |
| Cards.CreateInitialDeck | src/client/game/cards.ts:83-96 | the deck has 10 cards, every card is well formed (requiresTarget holds exactly for the non-Row kinds), and the kinds are laid out as 4 Single Flip, then 3 Adjacent Flip, then 3 Row Flip |
| Cards.DeckComposition | src/client/game/cards.ts:84-95 | 4 Single Flip, 3 Adjacent Flip and 3 Row Flip cards |
| Cards.DeckIdsDistinct | src/client/game/cards.ts:84-95 | the ten ids are pairwise distinct |
| Patterns.PatternsEqualMeans | js/bundle.js:254-256 | `arePatternsEqual(p1, p2)` holds iff p1 is a prefix of p2; for equal lengths it is plain equality |
| Patterns.GeneratePatterns | js/bundle.js:260-268 | the target is the first draw and the starting pattern is the first later draw that differs from it; every draw skipped in between equals the target; the two results differ and have 5 slots |
| Scoring.MultipliersArePowers | js/bundle.js:541 | the ladder has 5 entries and the entry for slot i is 2^i |
| Scoring.GetMultipliers | js/bundle.js:484-486 | `getMultipliers` returns 5 entries, the entry for slot i being 2^i |
| Scoring.MatchFrom | js/bundle.js:275-289 | the scan from i stops at the first mismatching slot; every slot before it matches |
| Scoring.MatchLengthMeans | js/bundle.js:275-289 | the scan stops at k iff slots 0..k-1 match and slot k, if it exists, does not |
| Scoring.Breakdown | js/bundle.js:278-283 | the breakdown of k matched slots has k entries, and entry j is slot j+1 with multiplier = points = 2^j |
| Scoring.PointsOfBreakdown | js/bundle.js:277-279 | the points of the breakdown of k slots sum to 2^k - 1 |
| Scoring.PrefixPoints | src/client/game/gameLogic.ts:42-61 | the prefix score is 2^k - 1 for k matched slots, so at most 31 |
| Scoring.FullScoreIffMatched | src/client/game/gameLogic.ts:46-59 | for a five-slot row, the prefix score is 31 iff the row matches the target |
| Scoring.ScanPrefix | js/bundle.js:273-289 | the accumulating loop returns the breakdown of the matched prefix and 2^k - 1 points |
| Hands.RemoveById | js/bundle.js:376 | the filtered hand keeps exactly the cards with a different id, is no longer than the hand, and is a sub-multiset of it |
| Hands.RemoveByIdAppend | src/client/game/gameLogic.ts:89 | filtering keeps order: filtering a concatenation filters each part |
| Hands.RemoveByIdCount | src/client/game/gameLogic.ts:89 | the filtered hand is shorter by the number of cards carrying that id |
| Hands.RemoveHeldShrinks | js/bundle.js:376 | playing a held card shrinks the hand |
| Hands.RemoveByIdAbsent | js/bundle.js:376 | a hand without that id is returned unchanged |
| Hands.DealCards | js/bundle.js:440-446 | the hand has min(count, \|deck\|) cards, and hand followed by remainingDeck is the shuffled deck, hence a permutation of the deck |
| Solver.SlotSuccessorsMeans | js/bundle.js:320-322 | the rows a targeting card generates are exactly its effect aimed at slots 0..\|row\|-1 |
| Solver.SuccessorOfPlay | js/bundle.js:318-345 | every legal play from a row is among the rows the hand generates from it |
| Solver.PlayOfSuccessor | js/bundle.js:318-345 | every row the hand generates comes from a legal play |
| Solver.MinimumMovesUnique | js/bundle.js:301-349 | the minimum-moves contract determines the answer |
| Solver.Visit | js/bundle.js:323-330 | a generated row is reported iff it matches the target; otherwise it ends up visited, and a new one is queued one level deeper |
| Solver.TrySlots | js/bundle.js:320-331 | a targeting card is tried at every slot; the search reports a hit iff one of those rows matches, otherwise all of them are visited |
| Solver.TryCard | js/bundle.js:319-344 | one card is tried on the popped row, at every slot or once, with the same hit-or-visited outcome |
| Solver.ExpandNode | js/bundle.js:318-345 | every card of the hand is tried on the popped row; a hit means some successor matches, otherwise every successor is visited |
| Solver.MinimumMoves | js/bundle.js:301-349 | the answer is at most 10 and is 0 iff start matches target; no legal sequence of plays (cards may repeat) shorter than the answer reaches the target; an answer below 10 is reached by one of exactly that length |
| SolverExamples.RunLength | js/bundle.js:321 | plays keep the row length |
| SolverExamples.OneMoveAnswer | js/bundle.js:323-325 | a single legal play that reaches a different target makes the answer 1 |
| SolverExamples.EmptyHandSentinel | js/bundle.js:348 | with no cards and start different from target, the answer is the sentinel 10 |
| SolverExamples.Distance | src/client/game/gameLogic.test.ts:182-193 | the distance of rows is at most their length, and 0 iff they are equal |
| SolverExamples.DistanceOneSlot | src/client/game/cards.ts:24-26 | changing one slot moves a row at most one closer to any other |
| SolverExamples.SinglesLowerBound | src/client/game/cards.ts:24-26 | with only Single Flip cards, a legal run closes at most one differing slot per play |
| SolverExamples.SinglesAnswerBound | js/bundle.js:301-349 | with only Single Flip cards, an answer below 10 is at least the number of differing slots |
| SolverExamples.RowFlipInOne | src/client/game/gameLogic.test.ts:164-178 | RRRRR to BBBBB with five Single Flip cards and a Row Flip card answers 1 |
| SolverExamples.AdjacentInOne | src/client/game/gameLogic.test.ts:117-125 | RRRBB to BBBBB with one Adjacent Flip card answers 1 |
| SolverExamples.ThreeSinglesRun | src/client/game/gameLogic.test.ts:182-193 | flipping slots 0, 2 and 4 turns RBRBR into BBBBB legally |
| SolverExamples.ThreeSingles | src/client/game/gameLogic.test.ts:182-193 | RBRBR to BBBBB with three Single Flip cards answers exactly 3 |
| SolverExamples.FiveSinglesRun | src/client/game/cards.ts:19-27 | flipping slots 0 to 4 in turn with one Single Flip card is a legal run from RRRRR to BBBBB |
| SolverExamples.FiveSingles | js/bundle.js:301-349 | RRRRR to BBBBB with five Single Flip cards answers exactly 5 |
| Rules.ScoreOf | js/bundle.js:272-296 | the breakdown is that of the matched prefix; the bonus holds iff all 5 slots matched and moves played equals the minimum; the score is 2^k - 1, plus 5 with the bonus, and at most 36 |
| Rules.BonusMeansSolvedInMinimum | js/bundle.js:291-294 | for five-slot rows, the bonus holds iff the row matches the target and the moves equal the minimum; then the score is 36 |
| Rules.CalculateScore | js/bundle.js:272-296 | the scan plus the bonus check return exactly ScoreOf |
| Rules.PlayCard | js/bundle.js:353-436 | a finished game is returned unchanged; a targeting card with no target inside the row changes only the message; a valid play applies the effect, appends one history entry with the before and after rows, drops every card with that id, and keeps the target, deck, counters, limits, score targets and minimum; the trial is over iff the hand is empty or the target is matched; the score and breakdown are calculateScore's for the new row and history length; the bonus is calculateScore's when the trial is over and false otherwise; the message is victory or defeat (total against target) when the game ends, else target matched, else trial complete, else the card played |
| Rules.PlayCardLedger | js/bundle.js:383-392 | the wave score, total and trial list take the score only when the trial ends; the wave list grows only when the last trial of the wave ends; the game ends iff that happens in the last wave |
| Rules.FreshTrial | js/bundle.js:514-537 | a fresh trial has the new rows, hand and minimum, no plays, no score, no flags set, and carries the total, wave list and limits |
| Rules.InitialState | js/bundle.js:450-480 | trial 1 of wave 1; limits 3 trials, 2 waves, target 180, wave target 90; score 0, empty breakdown, empty ledgers; nothing played; no flag set; the game-start message |
| Rules.NextTrial | js/bundle.js:496-538 | advances the trial by one, or wraps to trial 1 of the next wave with the wave score 0 and the trial list empty; the total, wave list and limits are carried; the history is empty, the score 0 and the breakdown empty; no flag set; the message names the new wave, trial and wave score |
| Rules.SumSnoc | js/bundle.js:381-386 | appending a score to a list adds it to the sum |
| Rules.InitialStateInv | js/bundle.js:450-480 | a new game satisfies the ledger invariant |
| Rules.PlayCardInv | js/bundle.js:353-436 | a play during a running trial keeps the ledger invariant |
| Rules.PlayAfterTrialOverBreaksInv | js/bundle.js:355-357 | a play after the trial has ended is not refused; if it ends the trial again the trial's score is appended a second time, and in every case the ledger invariant is broken |
| Rules.NextTrialInv | js/bundle.js:496-538 | moving on from a finished trial of a running game keeps the ledger invariant |
| Rules.HeldPlayKeepsBound | js/bundle.js:370-381 | playing a card from the hand keeps plays made plus cards held at most 5, so the hand and the play history each stay within 5, whether or not the trial is still running |
| Rules.BonusBelowSentinel | js/bundle.js:377-379 | within the hand-size bound, a play that earns the bonus matched a minimum equal to its move count, at most 5 and so below the solver's sentinel of 10 |
| Rules.CreateInitialState | js/bundle.js:450-480 | draws the patterns, deals five cards and solves; the rows differ, the minimum meets the solver's contract, the new state is within the hand-size bound (no plays, at most 5 cards), and a non-empty deck gives a state satisfying the invariant |
| Rules.StartNextTrial | js/bundle.js:496-538 | draws, deals from the full deck and solves, then rolls over as NextTrial; the new state is within the hand-size bound, and the invariant carries over from a finished trial of a running game |
| Legacy.CalculateScore | src/client/game/gameLogic.ts:42-61 | the breakdown is that of the matched prefix and the score is 2^k - 1, at most 31, with no bonus |
| Legacy.PlayCard | src/client/game/gameLogic.ts:67-112 | a finished game is returned unchanged; a targeting card without a valid target changes only the message; a valid play applies the effect, drops every card with that id, keeps the target and the deck, rescores, and ends the game iff the new hand is empty |
| Legacy.InitialState | src/client/game/gameLogic.ts:128-142 | the drawn rows and dealt hand, the full deck, not over, score 0 and empty breakdown |
| Legacy.InitialStateInv | src/client/game/gameLogic.ts:128-142 | a new game satisfies the invariant |
| Legacy.PlayCardInv | src/client/game/gameLogic.ts:67-112 | every play keeps the invariant: the game is over iff the hand is empty, and the score is 2^k - 1 of its breakdown |
| Legacy.PlayHeldShrinksHand | src/client/game/gameLogic.ts:89-93 | a valid play of a held card shrinks the hand, so a game ends after at most as many plays as cards held |
| Legacy.FullScoreMeansMatched | src/client/game/gameLogic.ts:92 | a scored state reports 31 iff the row matches the target |
| Legacy.CreateInitialState | src/client/game/gameLogic.ts:128-142 | draws the patterns and deals five cards; the rows differ; a non-empty deck gives a state satisfying the invariant |

## Left out

- Rendering, audio, the engine's event glue, the server and the bootstrap are
  not part of this model.
- `Math.random`: the pattern draws and the shuffled deck are parameters. The
  sort-based shuffle is not modelled, only its outcome, a permutation of the
  deck.
- Patterns.GeneratePatterns: requires that some later draw differs from the
  first one, since the source's loop terminates only with probability 1.
- Messages are an enum of outcomes. The text, including the emoji of the
  victory message, is not modelled.
- Rules.ScoreOf, Rules.CalculateScore, Rules.PlayCard, Scoring.ScanPrefix,
  Scoring.PrefixPoints, Legacy.PlayCard and Legacy.CalculateScore: these
  require rows of at most 5 slots. A longer row is scored normally by the
  source unless its first six slots all match: only then does the scan reach
  the sixth slot with a match, multiply by the missing ladder entry
  (`undefined`) and score `NaN`. Every row the game builds has 5 slots.
- Hands.DealCards: `count` is a natural number. The source's behaviour for a
  negative count (`slice` from the end) is not modelled; every caller passes 5.
- `resetGame` in both versions just calls `createInitialState`, so it is
  modelled by Rules.CreateInitialState and Legacy.CreateInitialState.
- The earlier `generatePatterns`, `dealCards` and `getMultipliers` are the same
  code as the current ones. They share Patterns.GeneratePatterns,
  Hands.DealCards and Scoring.GetMultipliers, and both versions of
  `calculateScore` share Scoring.ScanPrefix.
- The solver's visited set holds rows rather than the joined strings the
  source uses. Joining single-letter colours is injective, so the two agree.
- Solver.MinimumMoves: the search computes a successor with the pure `Apply`
  instead of calling the in-place `execute` bodies. Those are proved equal to
  `Apply` by Cards.ExecuteSingle, Cards.ExecuteAdjacent and Cards.ExecuteRow.
- Rules.PlayCardInv: requires a running trial. The source refuses plays only
  once the game is over, so a play after the trial has ended and before
  `startNextTrial` goes through. It either scores the trial a second time or
  reopens it, and Rules.PlayAfterTrialOverBreaksInv shows that the invariant
  then fails. The model keeps this behaviour and does not correct it.
- Rules.PlayCard and Legacy.PlayCard: the played card need not be in the hand.
  The source does not check this, and the model does not either. Removal is by
  id, so such a play leaves the hand as it was only when no held card carries
  that id (Hands.RemoveByIdAbsent); otherwise the held cards with that id are
  dropped. In the current rules the play also lengthens the history; the
  earlier rules keep no history.
- Rules.HeldPlayKeepsBound and Rules.BonusBelowSentinel: require the played
  card to be in the hand, as the engine only plays a card it found there
  (js/bundle.js:157). A play of a card that is not held lengthens the history
  without shrinking the hand, so the bound `|playHistory| + |hand| <= 5` is a
  separate predicate, Rules.HandBound, and not part of Rules.Inv.
- Removing a played card drops every card of the hand with that id, as the
  source's `filter` does, not a single instance. The ids of the deck are
  distinct (Cards.DeckIdsDistinct), so in play the two agree.
- The target index is an optional integer. In the source it is a JavaScript
  number, so a fractional or `NaN` index passes the range guard, leaves the
  row unchanged and still counts as a play. Callers only pass integer slot
  indices, so this case is not modelled.
- A card's `execute` is a closure in the source. Here a card carries a kind
  tag, and `Apply` dispatches on it. The effects work on immutable sequences,
  so the source's guarantee that no effect modifies its input holds by
  construction.
