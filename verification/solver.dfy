/**
 * calculateMinimumMoves: breadth-first search over token rows for the
 * fewest card plays that turn the starting row into the target row.
 *
 * Cards are never used up during the search: every card of the hand is
 * tried at every depth, so the answer counts plays WITH repetition. The
 * search discards nodes at depth 10 and answers the sentinel 10 when the
 * target is not reached by then.
 *
 * The proof of the search is stated over an arbitrary successor function
 * `step` (Reach, the queue invariants); `StepsBy(step, cards)` ties it to
 * the rows the hand generates, and `Solves` states the answer in terms of
 * sequences of card plays.
 */
module Solver {
  import opened Wrappers
  import opened Cards
  import opened Patterns

  /** The depth bound of the search, returned as the "not reachable" sentinel. */
  const MaxMoves: nat := 10

  /** One card play: a card from the hand and the index it is aimed at. */
  datatype Play = Play(card: Card, targetIndex: Option<int>)

  /**
   * A play the search considers from row `s`: a card of the hand, aimed at a
   * slot of the row when it requires a target, and with no index otherwise.
   */
  ghost predicate LegalPlay(cards: seq<Card>, s: Row, p: Play)
  {
    && p.card in cards
    && (if p.card.requiresTarget then ValidTarget(p.targetIndex, |s|) else p.targetIndex == None)
  }

  /** The row after a sequence of plays. */
  function Run(start: Row, plays: seq<Play>): Row
  {
    if plays == [] then start
    else
      var last := plays[|plays| - 1];
      Apply(last.card.kind, Run(start, plays[..|plays| - 1]), last.targetIndex)
  }

  /** Every play of the sequence is legal in the row it is made from. */
  ghost predicate LegalRun(cards: seq<Card>, start: Row, plays: seq<Play>)
  {
    plays == [] ||
    (LegalRun(cards, start, plays[..|plays| - 1]) &&
     LegalPlay(cards, Run(start, plays[..|plays| - 1]), plays[|plays| - 1]))
  }

  /** `plays` is a legal sequence of plays (cards may repeat) that ends on the target. */
  ghost predicate Solves(cards: seq<Card>, start: Row, target: Row, plays: seq<Play>)
  {
    LegalRun(cards, start, plays) && PatternsEqual(Run(start, plays), target)
  }

  /** The rows a targeted card produces from `s` aimed at slots `0..n-1`, in that order. */
  function SlotSuccessors(kind: Kind, s: Row, n: nat): seq<Row>
  {
    if n == 0 then [] else SlotSuccessors(kind, s, n - 1) + [Apply(kind, s, Some(n - 1))]
  }

  lemma {:induction false} SlotSuccessorsMeans(kind: Kind, s: Row, n: nat, t: Row)
    ensures t in SlotSuccessors(kind, s, n) <==> exists i :: 0 <= i < n && t == Apply(kind, s, Some(i))
  {
    if n > 0 {
      SlotSuccessorsMeans(kind, s, n - 1, t);
    }
  }

  /** The rows one card produces from `s`, in the order the search generates them. */
  function CardSuccessors(card: Card, s: Row): seq<Row>
  {
    if card.requiresTarget then SlotSuccessors(card.kind, s, |s|)
    else [Apply(card.kind, s, None)]
  }

  /** The rows generated from `s` when the whole hand is tried, card after card. */
  function Successors(cards: seq<Card>, s: Row): seq<Row>
  {
    if cards == [] then []
    else Successors(cards[..|cards| - 1], s) + CardSuccessors(cards[|cards| - 1], s)
  }

  /** Every legal play's row is generated. */
  lemma {:induction false} SuccessorOfPlay(cards: seq<Card>, s: Row, p: Play)
    requires LegalPlay(cards, s, p)
    ensures Apply(p.card.kind, s, p.targetIndex) in Successors(cards, s)
    decreases |cards|
  {
    var last := cards[|cards| - 1];
    var init := cards[..|cards| - 1];
    assert cards == init + [last];
    if p.card == last {
      if last.requiresTarget {
        SlotSuccessorsMeans(last.kind, s, |s|, Apply(p.card.kind, s, p.targetIndex));
      }
    } else {
      assert p.card in init;
      SuccessorOfPlay(init, s, p);
    }
  }

  /** Every generated row comes from a legal play. */
  lemma {:induction false} PlayOfSuccessor(cards: seq<Card>, s: Row, t: Row) returns (p: Play)
    requires t in Successors(cards, s)
    ensures LegalPlay(cards, s, p) && Apply(p.card.kind, s, p.targetIndex) == t
    decreases |cards|
  {
    var last := cards[|cards| - 1];
    var init := cards[..|cards| - 1];
    assert cards == init + [last];
    if t in Successors(init, s) {
      p := PlayOfSuccessor(init, s, t);
    } else if last.requiresTarget {
      SlotSuccessorsMeans(last.kind, s, |s|, t);
      var i :| 0 <= i < |s| && t == Apply(last.kind, s, Some(i));
      p := Play(last, Some(i));
    } else {
      p := Play(last, None);
    }
  }

  /** The rows generated by one more card of the hand follow those of the cards before it. */
  lemma SuccessorsSnoc(cards: seq<Card>, k: nat, s: Row)
    requires k < |cards|
    ensures Successors(cards[..k + 1], s) == Successors(cards[..k], s) + CardSuccessors(cards[k], s)
  {
    assert cards[..k + 1][..k] == cards[..k];
  }

  /** Some row of `rows` matches the target. */
  ghost predicate HitsTarget(rows: seq<Row>, target: Row)
  {
    exists t :: t in rows && PatternsEqual(t, target)
  }

  /** Every row of `rows` has been seen. */
  ghost predicate AllSeen(rows: seq<Row>, visited: set<Row>)
  {
    forall t :: t in rows ==> t in visited
  }

  lemma SeenSnoc(rows: seq<Row>, t: Row, visited: set<Row>, visited': set<Row>)
    requires AllSeen(rows, visited) && visited <= visited' && t in visited'
    ensures AllSeen(rows + [t], visited')
  {
  }

  /** A target hit by a prefix of the hand is hit by the whole hand. */
  lemma {:induction false} SuccessorsPrefix(cards: seq<Card>, k: nat, s: Row, target: Row)
    requires k <= |cards|
    ensures HitsTarget(Successors(cards[..k], s), target) ==> HitsTarget(Successors(cards, s), target)
    ensures k == |cards| ==> cards[..k] == cards
    decreases |cards| - k
  {
    if k < |cards| {
      SuccessorsPrefix(cards, k + 1, s, target);
      SuccessorsSnoc(cards, k, s);
    } else {
      assert cards[..k] == cards;
    }
  }

  /** The rows generated from any row of `rows`. */
  ghost function Next(step: Row -> seq<Row>, rows: set<Row>): set<Row>
  {
    set u, t | u in rows && t in step(u) :: t
  }

  /** The rows reachable from `start` in at most `k` steps. */
  ghost function Reach(step: Row -> seq<Row>, start: Row, k: nat): set<Row>
  {
    if k == 0 then {start}
    else Reach(step, start, k - 1) + Next(step, Reach(step, start, k - 1))
  }

  /** All rows of length `n`: the bound that makes the search finite. */
  ghost function AllRows(n: nat): set<Row>
  {
    if n == 0 then {[]}
    else (set r | r in AllRows(n - 1) :: r + [R]) + (set r | r in AllRows(n - 1) :: r + [B])
  }

  lemma {:induction false} InAllRows(s: Row)
    ensures s in AllRows(|s|)
  {
    if |s| > 0 {
      var p := s[..|s| - 1];
      InAllRows(p);
      if s[|s| - 1] == R {
        assert s == p + [R];
      } else {
        assert s == p + [B];
      }
    }
  }

  lemma {:induction false} ReachMonotone(step: Row -> seq<Row>, start: Row, j: nat, k: nat)
    requires j <= k
    ensures Reach(step, start, j) <= Reach(step, start, k)
    decreases k
  {
    if j < k {
      ReachMonotone(step, start, j, k - 1);
    }
  }

  /** Rows generated from rows within `d` steps lie within `d+1` steps. */
  lemma SuccessorsInReach(step: Row -> seq<Row>, start: Row, d: nat, u: Row, t: Row)
    requires u in Reach(step, start, d) && t in step(u)
    ensures t in Reach(step, start, d + 1)
  {
    assert t in Next(step, Reach(step, start, d));
  }

  /** A set that holds `start` and every row generated from its members holds every reachable row. */
  lemma {:induction false} ClosedHoldsReach(step: Row -> seq<Row>, start: Row, rows: set<Row>, k: nat)
    requires start in rows
    requires forall u, t :: u in rows && t in step(u) ==> t in rows
    ensures Reach(step, start, k) <= rows
  {
    if k > 0 {
      ClosedHoldsReach(step, start, rows, k - 1);
    }
  }

  /** `step` generates, from every row, exactly the rows the hand generates. */
  ghost predicate StepsBy(step: Row -> seq<Row>, cards: seq<Card>)
  {
    forall u {:trigger Successors(cards, u)} :: step(u) == Successors(cards, u)
  }

  /** The successor function of a hand. */
  lemma StepFor(cards: seq<Card>) returns (step: Row -> seq<Row>)
    ensures StepsBy(step, cards)
  {
    step := u => Successors(cards, u);
  }

  /** A legal run of `k` plays ends in a row reachable within `k` steps. */
  lemma {:induction false} RunInReach(cards: seq<Card>, step: Row -> seq<Row>, start: Row, plays: seq<Play>)
    requires StepsBy(step, cards)
    requires LegalRun(cards, start, plays)
    ensures Run(start, plays) in Reach(step, start, |plays|)
    decreases |plays|
  {
    if plays != [] {
      var init := plays[..|plays| - 1];
      var u := Run(start, init);
      RunInReach(cards, step, start, init);
      SuccessorOfPlay(cards, u, plays[|plays| - 1]);
      SuccessorsInReach(step, start, |init|, u, Run(start, plays));
    }
  }

  /** Every row reachable within `k` steps is the end of a legal run of at most `k` plays. */
  lemma {:induction false} ReachByRun(cards: seq<Card>, step: Row -> seq<Row>, start: Row, k: nat, t: Row)
    returns (plays: seq<Play>)
    requires StepsBy(step, cards)
    requires t in Reach(step, start, k)
    ensures |plays| <= k && LegalRun(cards, start, plays) && Run(start, plays) == t
    decreases k
  {
    if k == 0 {
      plays := [];
    } else if t in Reach(step, start, k - 1) {
      plays := ReachByRun(cards, step, start, k - 1, t);
    } else {
      var u :| u in Reach(step, start, k - 1) && t in step(u);
      assert step(u) == Successors(cards, u);
      var init := ReachByRun(cards, step, start, k - 1, u);
      var p := PlayOfSuccessor(cards, u, t);
      plays := init + [p];
      assert plays[..|plays| - 1] == init;
    }
  }

  /** A queue entry: a row and the number of plays that produced it. */
  datatype Node = Node(tokens: Row, moves: nat)

  /** All rows generated from `u` have been seen. */
  ghost predicate Expanded(step: Row -> seq<Row>, u: Row, visited: set<Row>)
  {
    forall t :: t in step(u) ==> t in visited
  }

  /** The queue holds depth-`d` nodes followed by depth-`d+1` nodes, none deeper than the bound. */
  ghost predicate Layered(queue: seq<Node>, d: nat)
  {
    && (forall j :: 0 <= j < |queue| ==> (queue[j].moves == d || queue[j].moves == d + 1) && queue[j].moves <= MaxMoves)
    && (forall j, k :: 0 <= j < k < |queue| ==> queue[j].moves <= queue[k].moves)
  }

  /** Every queued row has been seen, and those queued at depth `d` are reachable within `d` steps. */
  ghost predicate Recorded(step: Row -> seq<Row>, start: Row, d: nat, queue: seq<Node>, visited: set<Row>)
  {
    forall j :: 0 <= j < |queue| ==>
      queue[j].tokens in visited && (queue[j].moves == d ==> queue[j].tokens in Reach(step, start, d))
  }

  /** No seen row is the target, and all have the start's length. */
  ghost predicate Safe(start: Row, target: Row, visited: set<Row>)
  {
    && (forall v {:trigger PatternsEqual(v, target)} :: v in visited ==> !PatternsEqual(v, target))
    && (forall v :: v in visited ==> |v| == |start|)
  }

  /** Every row within `d` steps, other than those in `busy`, is expanded or still queued at depth `d`. */
  ghost predicate Covered(step: Row -> seq<Row>, start: Row, d: nat, queue: seq<Node>, visited: set<Row>, busy: set<Row>)
  {
    forall u {:trigger Expanded(step, u, visited)} ::
      u in Reach(step, start, d) && u !in busy ==> Expanded(step, u, visited) || Node(u, d) in queue
  }

  /** Every seen row deeper than `d` waits in the queue at depth `d+1`. */
  ghost predicate Pending(step: Row -> seq<Row>, start: Row, d: nat, queue: seq<Node>, visited: set<Row>)
  {
    forall v :: v in visited && v !in Reach(step, start, d) ==> Node(v, d + 1) in queue
  }

  /**
   * The level-by-level invariant of the search at depth `d`: everything within
   * `d` steps has been seen, nothing seen lies deeper than `d+1` or is the
   * target, and the queue holds exactly the work left at depths `d` and `d+1`.
   */
  ghost predicate Frontier(step: Row -> seq<Row>, start: Row, target: Row, d: nat, queue: seq<Node>, visited: set<Row>)
  {
    && d <= MaxMoves
    && Layered(queue, d)
    && Recorded(step, start, d, queue, visited)
    && Reach(step, start, d) <= visited <= Reach(step, start, d + 1)
    && Safe(start, target, visited)
    && (d < MaxMoves ==> Covered(step, start, d, queue, visited, {}))
    && Pending(step, start, d, queue, visited)
  }

  lemma LayeredNext(queue: seq<Node>, d: nat)
    requires Layered(queue, d) && |queue| > 0 && queue[0].moves == d + 1
    ensures Layered(queue, d + 1)
    ensures forall j :: 0 <= j < |queue| ==> queue[j].moves == d + 1
  {
    forall j | 0 <= j < |queue|
      ensures queue[j].moves == d + 1
    {
      if j > 0 {
        assert queue[0].moves <= queue[j].moves;
      }
    }
  }

  /** If every row within `d` steps is expanded into `visited`, every row within `d+1` steps has been seen. */
  lemma ReachStep(step: Row -> seq<Row>, start: Row, d: nat, visited: set<Row>)
    requires Reach(step, start, d) <= visited
    requires forall u :: u in Reach(step, start, d) ==> Expanded(step, u, visited)
    ensures Reach(step, start, d + 1) <= visited
  {
    forall t | t in Next(step, Reach(step, start, d))
      ensures t in visited
    {
      var u :| u in Reach(step, start, d) && t in step(u);
      assert Expanded(step, u, visited);
    }
  }

  /** When the queue holds no depth-`d` node any more, the search has reached depth `d+1`. */
  lemma LevelDone(step: Row -> seq<Row>, start: Row, target: Row, d: nat, queue: seq<Node>, visited: set<Row>)
    requires Frontier(step, start, target, d, queue, visited)
    requires |queue| > 0 && queue[0].moves == d + 1
    ensures Frontier(step, start, target, d + 1, queue, visited)
  {
    LayeredNext(queue, d);
    assert d < MaxMoves;
    forall u | u in Reach(step, start, d)
      ensures Expanded(step, u, visited)
    {
      assert Covered(step, start, d, queue, visited, {});
      assert Node(u, d) !in queue;
    }
    ReachStep(step, start, d, visited);
    ReachMonotone(step, start, d + 1, d + 2);
    if d + 1 < MaxMoves {
      forall u | u in Reach(step, start, d + 1)
        ensures Expanded(step, u, visited) || Node(u, d + 1) in queue
      {
        if u in Reach(step, start, d) {
          forall t | t in step(u)
            ensures t in visited
          {
            SuccessorsInReach(step, start, d, u, t);
          }
        } else {
          assert Pending(step, start, d, queue, visited);
        }
      }
    }
  }

  /** The level of the front node: the search is at depth `d` or has just finished it. */
  lemma Advance(step: Row -> seq<Row>, start: Row, target: Row, d: nat, queue: seq<Node>, visited: set<Row>)
    returns (d': nat)
    requires Frontier(step, start, target, d, queue, visited)
    requires |queue| > 0
    ensures Frontier(step, start, target, d', queue, visited)
    ensures queue[0].moves == d'
  {
    d' := d;
    assert Layered(queue, d);
    if queue[0].moves != d {
      LevelDone(step, start, target, d, queue, visited);
      d' := d + 1;
    }
  }

  /** A pruned node (depth 10) leaves the queue without being expanded. */
  lemma DropPruned(step: Row -> seq<Row>, start: Row, target: Row, d: nat, queue: seq<Node>, visited: set<Row>)
    requires Frontier(step, start, target, d, queue, visited)
    requires |queue| > 0 && queue[0].moves == d && d >= MaxMoves
    ensures Frontier(step, start, target, d, queue[1..], visited)
  {
    assert queue == [queue[0]] + queue[1..];
  }

  /**
   * The invariant while the row `s`, taken from the front of the queue at depth
   * `d`, is being expanded: as Frontier, except that `s` is neither queued nor
   * yet known to be expanded, and anything new since the pop was both seen and queued.
   */
  ghost predicate ExpandInv(step: Row -> seq<Row>, start: Row, target: Row, d: nat, s: Row,
                            queue0: seq<Node>, queue: seq<Node>, visited0: set<Row>, visited: set<Row>)
  {
    && d < MaxMoves
    && s in Reach(step, start, d)
    && Layered(queue, d)
    && Recorded(step, start, d, queue, visited)
    && Reach(step, start, d) <= visited <= Reach(step, start, d + 1)
    && Safe(start, target, visited)
    && Covered(step, start, d, queue, visited, {s})
    && Pending(step, start, d, queue, visited)
    && visited0 <= visited
    && (visited == visited0 ==> queue == queue0)
  }

  lemma LayeredTail(queue: seq<Node>, d: nat)
    requires Layered(queue, d) && |queue| > 0
    ensures Layered(queue[1..], d)
  {
  }

  lemma RecordedTail(step: Row -> seq<Row>, start: Row, d: nat, queue: seq<Node>, visited: set<Row>)
    requires Recorded(step, start, d, queue, visited) && |queue| > 0
    ensures Recorded(step, start, d, queue[1..], visited)
  {
  }

  lemma PendingTail(step: Row -> seq<Row>, start: Row, d: nat, queue: seq<Node>, visited: set<Row>)
    requires Pending(step, start, d, queue, visited) && |queue| > 0 && queue[0].moves == d
    ensures Pending(step, start, d, queue[1..], visited)
  {
    assert queue == [queue[0]] + queue[1..];
  }

  lemma CoveredTail(step: Row -> seq<Row>, start: Row, d: nat, queue: seq<Node>, visited: set<Row>)
    requires Covered(step, start, d, queue, visited, {}) && |queue| > 0
    ensures Covered(step, start, d, queue[1..], visited, {queue[0].tokens})
  {
    assert queue == [queue[0]] + queue[1..];
    forall u | u in Reach(step, start, d) && u !in {queue[0].tokens}
      ensures Expanded(step, u, visited) || Node(u, d) in queue[1..]
    {
      assert Expanded(step, u, visited) || Node(u, d) in queue;
    }
  }

  /** Taking the front node at depth `d` below the bound starts its expansion. */
  lemma StartExpansion(step: Row -> seq<Row>, start: Row, target: Row, d: nat, queue: seq<Node>, visited: set<Row>)
    requires Frontier(step, start, target, d, queue, visited)
    requires |queue| > 0 && queue[0].moves == d && d < MaxMoves
    ensures ExpandInv(step, start, target, d, queue[0].tokens, queue[1..], queue[1..], visited, visited)
  {
    LayeredTail(queue, d);
    RecordedTail(step, start, d, queue, visited);
    PendingTail(step, start, d, queue, visited);
    CoveredTail(step, start, d, queue, visited);
  }

  lemma LayeredPush(queue: seq<Node>, d: nat, t: Row)
    requires Layered(queue, d) && d < MaxMoves
    ensures Layered(queue + [Node(t, d + 1)], d)
  {
  }

  lemma RecordedPush(step: Row -> seq<Row>, start: Row, d: nat, queue: seq<Node>, visited: set<Row>, t: Row)
    requires Recorded(step, start, d, queue, visited)
    ensures Recorded(step, start, d, queue + [Node(t, d + 1)], visited + {t})
  {
  }

  lemma CoveredPush(step: Row -> seq<Row>, start: Row, d: nat, queue: seq<Node>, visited: set<Row>, busy: set<Row>, n: Node, t: Row)
    requires Covered(step, start, d, queue, visited, busy)
    ensures Covered(step, start, d, queue + [n], visited + {t}, busy)
  {
    forall u | u in Reach(step, start, d) && u !in busy
      ensures Expanded(step, u, visited + {t}) || Node(u, d) in queue + [n]
    {
      assert Expanded(step, u, visited) || Node(u, d) in queue;
    }
  }

  lemma PendingPush(step: Row -> seq<Row>, start: Row, d: nat, queue: seq<Node>, visited: set<Row>, t: Row)
    requires Pending(step, start, d, queue, visited)
    ensures Pending(step, start, d, queue + [Node(t, d + 1)], visited + {t})
  {
    forall w | w in visited + {t} && w !in Reach(step, start, d)
      ensures Node(w, d + 1) in queue + [Node(t, d + 1)]
    {
      if w != t {
        assert Node(w, d + 1) in queue;
      }
    }
  }

  /** A newly generated row that is not the target is marked seen and queued at depth `d+1`. */
  lemma Discover(step: Row -> seq<Row>, start: Row, target: Row, d: nat, s: Row,
                 queue0: seq<Node>, queue: seq<Node>, visited0: set<Row>, visited: set<Row>, t: Row)
    requires ExpandInv(step, start, target, d, s, queue0, queue, visited0, visited)
    requires t in step(s) && !PatternsEqual(t, target) && |t| == |start| && t !in visited
    ensures ExpandInv(step, start, target, d, s, queue0, queue + [Node(t, d + 1)], visited0, visited + {t})
  {
    SuccessorsInReach(step, start, d, s, t);
    LayeredPush(queue, d, t);
    RecordedPush(step, start, d, queue, visited, t);
    CoveredPush(step, start, d, queue, visited, {s}, Node(t, d + 1), t);
    PendingPush(step, start, d, queue, visited, t);
  }

  /** Once every card has been tried on `s`, the search is back at its level invariant. */
  lemma ExpansionDone(step: Row -> seq<Row>, start: Row, target: Row, d: nat, s: Row,
                      queue0: seq<Node>, queue: seq<Node>, visited0: set<Row>, visited: set<Row>)
    requires ExpandInv(step, start, target, d, s, queue0, queue, visited0, visited)
    requires Expanded(step, s, visited)
    ensures Frontier(step, start, target, d, queue, visited)
    ensures visited0 <= visited <= AllRows(|start|)
    ensures visited == visited0 ==> queue == queue0
  {
    forall v | v in visited
      ensures v in AllRows(|start|)
    {
      assert Safe(start, target, visited);
      InAllRows(v);
    }
    forall u | u in Reach(step, start, d)
      ensures Expanded(step, u, visited) || Node(u, d) in queue
    {
      assert Covered(step, start, d, queue, visited, {s});
    }
  }

  /** Nothing within `d` steps is the target once everything within `d` steps has been seen. */
  lemma SeenWithin(step: Row -> seq<Row>, start: Row, target: Row, d: nat, visited: set<Row>, k: nat)
    requires Reach(step, start, d) <= visited && Safe(start, target, visited)
    ensures k <= d ==> forall t :: t in Reach(step, start, k) ==> !PatternsEqual(t, target)
  {
    if k <= d {
      ReachMonotone(step, start, k, d);
    }
  }

  /** The target generated from `s` at depth `d` is reached in `d+1` plays and not sooner. */
  lemma Found(cards: seq<Card>, step: Row -> seq<Row>, start: Row, target: Row, d: nat, s: Row, visited: set<Row>, t: Row)
    requires StepsBy(step, cards)
    requires s in Reach(step, start, d) && Reach(step, start, d) <= visited && Safe(start, target, visited)
    requires t in step(s) && PatternsEqual(t, target)
    ensures !PatternsEqual(start, target)
    ensures forall plays :: Solves(cards, start, target, plays) ==> d + 1 <= |plays|
    ensures exists plays :: |plays| == d + 1 && Solves(cards, start, target, plays)
  {
    ReachMonotone(step, start, 0, d);
    forall plays | Solves(cards, start, target, plays)
      ensures d + 1 <= |plays|
    {
      RunInReach(cards, step, start, plays);
      SeenWithin(step, start, target, d, visited, |plays|);
    }
    SuccessorsInReach(step, start, d, s, t);
    var plays := ReachByRun(cards, step, start, d + 1, t);
    assert Solves(cards, start, target, plays);
  }

  /** With the queue empty below the bound, the seen rows are closed under `step`. */
  lemma ClosedWhenEmpty(step: Row -> seq<Row>, start: Row, d: nat, visited: set<Row>)
    requires Covered(step, start, d, [], visited, {}) && Pending(step, start, d, [], visited)
    ensures forall u, t :: u in visited && t in step(u) ==> t in visited
  {
    forall u, t | u in visited && t in step(u)
      ensures t in visited
    {
      assert u in Reach(step, start, d);
      assert Expanded(step, u, visited);
    }
  }

  /** An empty queue means every row within 10 plays (or every reachable row) has been seen. */
  lemma Exhausted(cards: seq<Card>, step: Row -> seq<Row>, start: Row, target: Row, d: nat, visited: set<Row>)
    requires StepsBy(step, cards)
    requires Frontier(step, start, target, d, [], visited)
    ensures !PatternsEqual(start, target)
    ensures forall plays :: Solves(cards, start, target, plays) ==> MaxMoves <= |plays|
  {
    ReachMonotone(step, start, 0, d);
    assert Safe(start, target, visited);
    if d < MaxMoves {
      ClosedWhenEmpty(step, start, d, visited);
      forall plays
        ensures !Solves(cards, start, target, plays)
      {
        if LegalRun(cards, start, plays) {
          RunInReach(cards, step, start, plays);
          ClosedHoldsReach(step, start, visited, |plays|);
        }
      }
    } else {
      forall plays | Solves(cards, start, target, plays)
        ensures MaxMoves <= |plays|
      {
        RunInReach(cards, step, start, plays);
        SeenWithin(step, start, target, d, visited, |plays|);
      }
    }
  }

  /**
   * What calculateMinimumMoves promises: the answer lies in 0..10; it is 0
   * exactly when the start already equals the target; no legal sequence of
   * plays shorter than the answer reaches the target; and an answer below 10
   * is achieved by some legal sequence of exactly that many plays.
   */
  ghost predicate IsMinimumMoves(cards: seq<Card>, start: Row, target: Row, r: nat)
  {
    && r <= MaxMoves
    && (r == 0 <==> PatternsEqual(start, target))
    && (forall plays :: Solves(cards, start, target, plays) ==> r <= |plays|)
    && (r < MaxMoves ==> exists plays :: |plays| == r && Solves(cards, start, target, plays))
  }

  /** IsMinimumMoves pins the answer down: two answers that both meet it are equal. */
  lemma MinimumMovesUnique(cards: seq<Card>, start: Row, target: Row, r1: nat, r2: nat)
    requires IsMinimumMoves(cards, start, target, r1) && IsMinimumMoves(cards, start, target, r2)
    ensures r1 == r2
  {
  }

  /**
   * One generated row `t` handled: reported when it is the target, otherwise
   * marked seen and queued at depth `d+1` unless it was seen before.
   */
  method Visit(t: Row, current: Node, target: Row, queue: seq<Node>, visited: set<Row>,
               ghost step: Row -> seq<Row>, ghost start: Row, ghost queue0: seq<Node>, ghost visited0: set<Row>)
    returns (found: bool, queue': seq<Node>, visited': set<Row>)
    requires t in step(current.tokens) && |t| == |current.tokens|
    requires ExpandInv(step, start, target, current.moves, current.tokens, queue0, queue, visited0, visited)
    ensures ExpandInv(step, start, target, current.moves, current.tokens, queue0, queue', visited0, visited')
    ensures visited <= visited'
    ensures found <==> PatternsEqual(t, target)
    ensures !found ==> t in visited'
  {
    if PatternsEqual(t, target) {
      return true, queue, visited;
    }
    queue', visited' := queue, visited;
    if t !in visited {
      assert current.tokens in visited;
      Discover(step, start, target, current.moves, current.tokens, queue0, queue, visited0, visited, t);
      visited' := visited + {t};
      queue' := queue + [Node(t, current.moves + 1)];
    }
    found := false;
  }

  /** A card that requires a target tried on the popped row at every slot, left to right. */
  method TrySlots(card: Card, current: Node, target: Row, queue: seq<Node>, visited: set<Row>,
                  ghost cards: seq<Card>, ghost step: Row -> seq<Row>, ghost start: Row,
                  ghost queue0: seq<Node>, ghost visited0: set<Row>)
    returns (found: bool, queue': seq<Node>, visited': set<Row>)
    requires card in cards && card.requiresTarget && StepsBy(step, cards)
    requires ExpandInv(step, start, target, current.moves, current.tokens, queue0, queue, visited0, visited)
    ensures ExpandInv(step, start, target, current.moves, current.tokens, queue0, queue', visited0, visited')
    ensures visited <= visited'
    ensures found ==> HitsTarget(CardSuccessors(card, current.tokens), target)
    ensures !found ==> AllSeen(CardSuccessors(card, current.tokens), visited')
  {
    var s := current.tokens;
    queue', visited' := queue, visited;
    var i := 0;
    while i < |s|
      invariant 0 <= i <= |s|
      invariant ExpandInv(step, start, target, current.moves, s, queue0, queue', visited0, visited')
      invariant visited <= visited'
      invariant AllSeen(SlotSuccessors(card.kind, s, i), visited')
    {
      var newTokens := Apply(card.kind, s, Some(i));
      SuccessorOfPlay(cards, s, Play(card, Some(i)));
      ghost var seen := visited';
      found, queue', visited' := Visit(newTokens, current, target, queue', visited', step, start, queue0, visited0);
      if found {
        SlotSuccessorsMeans(card.kind, s, |s|, newTokens);
        return;
      }
      SeenSnoc(SlotSuccessors(card.kind, s, i), newTokens, seen, visited');
      i := i + 1;
    }
    found := false;
  }

  /**
   * One card tried on the row popped at depth `d`: at every slot when it
   * requires a target, once otherwise. Each generated row is checked against
   * the target first, then queued at depth `d+1` if it is new.
   */
  method TryCard(card: Card, current: Node, target: Row, queue: seq<Node>, visited: set<Row>,
                 ghost cards: seq<Card>, ghost step: Row -> seq<Row>, ghost start: Row,
                 ghost queue0: seq<Node>, ghost visited0: set<Row>)
    returns (found: bool, queue': seq<Node>, visited': set<Row>)
    requires card in cards && StepsBy(step, cards)
    requires ExpandInv(step, start, target, current.moves, current.tokens, queue0, queue, visited0, visited)
    ensures ExpandInv(step, start, target, current.moves, current.tokens, queue0, queue', visited0, visited')
    ensures visited <= visited'
    ensures found ==> HitsTarget(CardSuccessors(card, current.tokens), target)
    ensures !found ==> AllSeen(CardSuccessors(card, current.tokens), visited')
  {
    if card.requiresTarget {
      found, queue', visited' := TrySlots(card, current, target, queue, visited, cards, step, start, queue0, visited0);
    } else {
      var newTokens := Apply(card.kind, current.tokens, None);
      assert newTokens == CardSuccessors(card, current.tokens)[0];
      SuccessorOfPlay(cards, current.tokens, Play(card, None));
      found, queue', visited' := Visit(newTokens, current, target, queue, visited, step, start, queue0, visited0);
    }
  }

  /** After one more card has been tried, the loop of ExpandNode holds for the longer prefix of the hand. */
  lemma CardTried(cards: seq<Card>, k: nat, s: Row, target: Row, found: bool, visited: set<Row>, visited': set<Row>)
    requires k < |cards|
    requires AllSeen(Successors(cards[..k], s), visited) && visited <= visited'
    requires found ==> HitsTarget(CardSuccessors(cards[k], s), target)
    requires !found ==> AllSeen(CardSuccessors(cards[k], s), visited')
    ensures found ==> HitsTarget(Successors(cards[..k + 1], s), target)
    ensures !found ==> AllSeen(Successors(cards[..k + 1], s), visited')
  {
    SuccessorsSnoc(cards, k, s);
  }

  /** Every card of the hand tried on the popped row, in hand order, stopping at the first row that is the target. */
  method ExpandNode(availableCards: seq<Card>, current: Node, target: Row, queue: seq<Node>, visited: set<Row>,
                    ghost step: Row -> seq<Row>, ghost start: Row)
    returns (found: bool, queue': seq<Node>, visited': set<Row>)
    requires StepsBy(step, availableCards)
    requires ExpandInv(step, start, target, current.moves, current.tokens, queue, queue, visited, visited)
    ensures ExpandInv(step, start, target, current.moves, current.tokens, queue, queue', visited, visited')
    ensures found ==> HitsTarget(step(current.tokens), target)
    ensures !found ==> Expanded(step, current.tokens, visited')
  {
    ghost var cards := availableCards;
    found, queue', visited' := false, queue, visited;
    var ci := 0;
    while ci < |availableCards| && !found
      invariant 0 <= ci <= |availableCards|
      invariant ExpandInv(step, start, target, current.moves, current.tokens, queue, queue', visited, visited')
      invariant found ==> HitsTarget(Successors(cards[..ci], current.tokens), target)
      invariant !found ==> AllSeen(Successors(cards[..ci], current.tokens), visited')
    {
      ghost var visitedBefore := visited';
      found, queue', visited' := TryCard(availableCards[ci], current, target, queue', visited', cards, step, start, queue, visited);
      CardTried(cards, ci, current.tokens, target, found, visitedBefore, visited');
      ci := ci + 1;
    }
    SuccessorsPrefix(cards, ci, current.tokens, target);
    assert step(current.tokens) == Successors(cards, current.tokens);
  }

  /**
   * calculateMinimumMoves: breadth-first search from the start row. The
   * answer meets IsMinimumMoves.
   */
  method MinimumMoves(startTokens: Row, targetTokens: Row, availableCards: seq<Card>) returns (r: nat)
    ensures IsMinimumMoves(availableCards, startTokens, targetTokens, r)
  {
    if PatternsEqual(startTokens, targetTokens) {
      assert Solves(availableCards, startTokens, targetTokens, []);
      return 0;
    }
    ghost var cards, start, target := availableCards, startTokens, targetTokens;
    ghost var step := StepFor(cards);
    var queue := [Node(startTokens, 0)];
    var visited := {startTokens};
    ghost var d: nat := 0;
    ReachMonotone(step, start, 0, 1);
    while |queue| > 0
      invariant Frontier(step, start, target, d, queue, visited)
      decreases AllRows(|start|) - visited, |queue|
    {
      d := Advance(step, start, target, d, queue, visited);
      var current := queue[0];
      if current.moves >= MaxMoves {
        DropPruned(step, start, target, d, queue, visited);
        queue := queue[1..];
        continue;
      }
      StartExpansion(step, start, target, d, queue, visited);
      ghost var visited0, queue0 := visited, queue[1..];
      var found;
      found, queue, visited := ExpandNode(availableCards, current, targetTokens, queue[1..], visited, step, start);
      if found {
        ghost var t :| t in step(current.tokens) && PatternsEqual(t, target);
        Found(cards, step, start, target, d, current.tokens, visited, t);
        return current.moves + 1;
      }
      ExpansionDone(step, start, target, d, current.tokens, queue0, queue, visited0, visited);
    }
    Exhausted(cards, step, start, target, d, visited);
    return MaxMoves;
  }
}
