/**
 * What the minimum-moves contract pins down on the situations the game's
 * own test suite exercises, and a lower bound for hands of Single Flip cards:
 * each such play changes one slot, so the answer is at least the number of
 * slots in which the start and the target differ.
 */
module SolverExamples {
  import opened Wrappers
  import opened Cards
  import opened Patterns
  import opened Solver

  /** A play that goes through changes a row's colours but never its length. */
  lemma {:induction false} RunLength(start: Row, plays: seq<Play>)
    ensures |Run(start, plays)| == |start|
  {
    if plays != [] {
      RunLength(start, plays[..|plays| - 1]);
    }
  }

  /** Extending a legal run by a legal play. */
  lemma RunSnoc(cards: seq<Card>, start: Row, plays: seq<Play>, p: Play)
    requires LegalRun(cards, start, plays) && LegalPlay(cards, Run(start, plays), p)
    ensures LegalRun(cards, start, plays + [p])
    ensures Run(start, plays + [p]) == Apply(p.card.kind, Run(start, plays), p.targetIndex)
  {
    assert (plays + [p])[..|plays|] == plays;
  }

  /** A run of exactly the answer's length that reaches the target, when the answer is below the sentinel. */
  lemma Witness(cards: seq<Card>, start: Row, target: Row, r: nat) returns (plays: seq<Play>)
    requires IsMinimumMoves(cards, start, target, r) && r < MaxMoves
    ensures |plays| == r && Solves(cards, start, target, plays)
  {
    plays :| |plays| == r && Solves(cards, start, target, plays);
  }

  /** A single legal play that turns a start different from the target into it makes the answer 1. */
  lemma OneMoveAnswer(cards: seq<Card>, start: Row, target: Row, p: Play, r: nat)
    requires IsMinimumMoves(cards, start, target, r)
    requires !PatternsEqual(start, target)
    requires LegalPlay(cards, start, p) && PatternsEqual(Apply(p.card.kind, start, p.targetIndex), target)
    ensures r == 1
  {
    RunSnoc(cards, start, [], p);
    assert [] + [p] == [p];
    assert Solves(cards, start, target, [p]);
  }

  /** With no cards nothing can be played, so a start different from the target gets the sentinel. */
  lemma EmptyHandSentinel(start: Row, target: Row, r: nat)
    requires IsMinimumMoves([], start, target, r)
    requires !PatternsEqual(start, target)
    ensures r == MaxMoves
  {
  }

  /** The number of slots in which two rows of equal length differ. */
  function Distance(a: Row, b: Row): (d: nat)
    requires |a| == |b|
    ensures d <= |a|
    ensures d == 0 <==> a == b
  {
    if a == [] then 0
    else
      var rest := Distance(a[1..], b[1..]);
      assert a == [a[0]] + a[1..] && b == [b[0]] + b[1..];
      (if a[0] != b[0] then 1 else 0) + rest
  }

  /** Rows that differ in at most slot k are at most one apart from any third row. */
  lemma {:induction false} DistanceOneSlot(a: Row, a': Row, t: Row, k: int)
    requires |a| == |a'| == |t|
    requires forall i :: 0 <= i < |a| && i != k ==> a'[i] == a[i]
    ensures Distance(a, t) <= Distance(a', t) + 1
  {
    if a != [] {
      if k == 0 {
        assert a[1..] == a'[1..];
      } else {
        DistanceOneSlot(a[1..], a'[1..], t[1..], k - 1);
      }
    }
  }

  /**
   * With a hand of Single Flip cards only, a legal sequence of plays closes
   * at most one differing slot per play.
   */
  lemma {:induction false} SinglesLowerBound(cards: seq<Card>, start: Row, target: Row, plays: seq<Play>)
    requires forall c :: c in cards ==> c.kind == SingleFlip
    requires |start| == |target| && LegalRun(cards, start, plays)
    ensures |Run(start, plays)| == |start|
    ensures Distance(start, target) <= |plays| + Distance(Run(start, plays), target)
  {
    RunLength(start, plays);
    if plays != [] {
      var before := plays[..|plays| - 1];
      var last := plays[|plays| - 1];
      SinglesLowerBound(cards, start, target, before);
      var s := Run(start, before);
      ApplyEffect(SingleFlip, s, last.targetIndex);
      DistanceOneSlot(s, Run(start, plays), target, if last.targetIndex.Some? then last.targetIndex.value else -1);
    }
  }

  /**
   * Hence an answer below the sentinel for a hand of Single Flip cards is at
   * least the number of differing slots.
   */
  lemma SinglesAnswerBound(cards: seq<Card>, start: Row, target: Row, r: nat)
    requires forall c :: c in cards ==> c.kind == SingleFlip
    requires |start| == |target| && IsMinimumMoves(cards, start, target, r)
    ensures r < MaxMoves ==> Distance(start, target) <= r
  {
    if r < MaxMoves {
      var plays := Witness(cards, start, target, r);
      SinglesLowerBound(cards, start, target, plays);
      var last := Run(start, plays);
      PatternsEqualMeans(last, target);
    }
  }

  /** Row Flip turns RRRRR into BBBBB in one play, even with five Single Flip cards in hand. */
  lemma RowFlipInOne(r: nat)
    requires IsMinimumMoves([CreateSingleFlipCard("s1"), CreateSingleFlipCard("s2"), CreateSingleFlipCard("s3"),
                             CreateSingleFlipCard("s4"), CreateSingleFlipCard("s5"), CreateRowFlipCard("row1")],
                            [R, R, R, R, R], [B, B, B, B, B], r)
    ensures r == 1
  {
    var cards := [CreateSingleFlipCard("s1"), CreateSingleFlipCard("s2"), CreateSingleFlipCard("s3"),
                  CreateSingleFlipCard("s4"), CreateSingleFlipCard("s5"), CreateRowFlipCard("row1")];
    var p := Play(CreateRowFlipCard("row1"), None);
    assert cards[5] == p.card;
    assert Apply(RowFlip, [R, R, R, R, R], None) == [B, B, B, B, B];
    assert !SlotIs([B, B, B, B, B], 0, R);
    OneMoveAnswer(cards, [R, R, R, R, R], [B, B, B, B, B], p, r);
  }

  /** Adjacent Flip aimed at slot 1 turns RRRBB into BBBBB in one play. */
  lemma AdjacentInOne(r: nat)
    requires IsMinimumMoves([CreateAdjacentFlipCard("adj1")], [R, R, R, B, B], [B, B, B, B, B], r)
    ensures r == 1
  {
    var p := Play(CreateAdjacentFlipCard("adj1"), Some(1));
    assert Apply(AdjacentFlip, [R, R, R, B, B], Some(1)) == [B, B, B, B, B];
    assert !SlotIs([B, B, B, B, B], 0, R);
    OneMoveAnswer([CreateAdjacentFlipCard("adj1")], [R, R, R, B, B], [B, B, B, B, B], p, r);
  }

  /** Slots 0, 2 and 4 flipped by one Single Flip card turn RBRBR into BBBBB. */
  lemma ThreeSinglesRun(cards: seq<Card>, c: Card)
    requires c in cards && c.kind == SingleFlip && c.requiresTarget
    ensures Solves(cards, [R, B, R, B, R], [B, B, B, B, B], [Play(c, Some(0)), Play(c, Some(2)), Play(c, Some(4))])
  {
    var start: Row := [R, B, R, B, R];
    var p0, p1, p2 := Play(c, Some(0)), Play(c, Some(2)), Play(c, Some(4));
    assert Apply(SingleFlip, start, Some(0)) == [B, B, R, B, R];
    assert Apply(SingleFlip, [B, B, R, B, R], Some(2)) == [B, B, B, B, R];
    assert Apply(SingleFlip, [B, B, B, B, R], Some(4)) == [B, B, B, B, B];
    RunSnoc(cards, start, [], p0);
    assert [] + [p0] == [p0];
    RunSnoc(cards, start, [p0], p1);
    assert [p0] + [p1] == [p0, p1];
    RunSnoc(cards, start, [p0, p1], p2);
    assert [p0, p1] + [p2] == [p0, p1, p2];
  }

  /** RBRBR to BBBBB with three Single Flip cards takes exactly three plays. */
  lemma ThreeSingles(r: nat)
    requires IsMinimumMoves([CreateSingleFlipCard("s1"), CreateSingleFlipCard("s2"), CreateSingleFlipCard("s3")],
                            [R, B, R, B, R], [B, B, B, B, B], r)
    ensures r == 3
  {
    var cards := [CreateSingleFlipCard("s1"), CreateSingleFlipCard("s2"), CreateSingleFlipCard("s3")];
    var c := cards[0];
    ThreeSinglesRun(cards, c);
    var plays := [Play(c, Some(0)), Play(c, Some(2)), Play(c, Some(4))];
    assert |plays| == 3;
    SinglesAnswerBound(cards, [R, B, R, B, R], [B, B, B, B, B], r);
    assert Distance([R, B, R, B, R], [B, B, B, B, B]) == 3;
  }

  /** Slots 0 to 4 flipped in turn by one Single Flip card turn RRRRR into BBBBB. */
  lemma FiveSinglesRun(cards: seq<Card>, c: Card)
    requires c in cards && c.kind == SingleFlip && c.requiresTarget
    ensures Solves(cards, [R, R, R, R, R], [B, B, B, B, B],
                   [Play(c, Some(0)), Play(c, Some(1)), Play(c, Some(2)), Play(c, Some(3)), Play(c, Some(4))])
  {
    var start: Row := [R, R, R, R, R];
    var p0, p1, p2, p3, p4 := Play(c, Some(0)), Play(c, Some(1)), Play(c, Some(2)), Play(c, Some(3)), Play(c, Some(4));
    assert Apply(SingleFlip, start, Some(0)) == [B, R, R, R, R];
    assert Apply(SingleFlip, [B, R, R, R, R], Some(1)) == [B, B, R, R, R];
    assert Apply(SingleFlip, [B, B, R, R, R], Some(2)) == [B, B, B, R, R];
    assert Apply(SingleFlip, [B, B, B, R, R], Some(3)) == [B, B, B, B, R];
    assert Apply(SingleFlip, [B, B, B, B, R], Some(4)) == [B, B, B, B, B];
    RunSnoc(cards, start, [], p0);
    assert [] + [p0] == [p0];
    RunSnoc(cards, start, [p0], p1);
    assert [p0] + [p1] == [p0, p1];
    RunSnoc(cards, start, [p0, p1], p2);
    assert [p0, p1] + [p2] == [p0, p1, p2];
    RunSnoc(cards, start, [p0, p1, p2], p3);
    assert [p0, p1, p2] + [p3] == [p0, p1, p2, p3];
    RunSnoc(cards, start, [p0, p1, p2, p3], p4);
    assert [p0, p1, p2, p3] + [p4] == [p0, p1, p2, p3, p4];
  }

  /** RRRRR to BBBBB with five Single Flip cards takes exactly five plays. */
  lemma FiveSingles(r: nat)
    requires IsMinimumMoves([CreateSingleFlipCard("s1"), CreateSingleFlipCard("s2"), CreateSingleFlipCard("s3"),
                             CreateSingleFlipCard("s4"), CreateSingleFlipCard("s5")],
                            [R, R, R, R, R], [B, B, B, B, B], r)
    ensures r == 5
  {
    var cards := [CreateSingleFlipCard("s1"), CreateSingleFlipCard("s2"), CreateSingleFlipCard("s3"),
                  CreateSingleFlipCard("s4"), CreateSingleFlipCard("s5")];
    var c := cards[0];
    FiveSinglesRun(cards, c);
    var plays := [Play(c, Some(0)), Play(c, Some(1)), Play(c, Some(2)), Play(c, Some(3)), Play(c, Some(4))];
    assert |plays| == 5;
    SinglesAnswerBound(cards, [R, R, R, R, R], [B, B, B, B, B], r);
    assert Distance([R, R, R, R, R], [B, B, B, B, B]) == 5;
  }
}
