/**
 * The card catalog: token colours, the three flip effects on a token row and
 * the fixed ten-card deck.
 *
 * In the game, a card carries its effect as a closure; here a card is plain
 * data with a `kind` tag, and `Apply` dispatches on the tag.
 */
module Cards {
  import opened Wrappers

  datatype Color = R | B

  type Row = seq<Color>

  /** flipToken: the other colour. With two colours this pins the result down. */
  function Flip(c: Color): (r: Color)
    ensures r != c
  {
    if c == R then B else R
  }

  /** Flipping twice gives back the colour. */
  lemma FlipInvolutive(c: Color)
    ensures Flip(Flip(c)) == c
  {
  }

  datatype Kind = SingleFlip | AdjacentFlip | RowFlip

  datatype Card = Card(id: string, name: string, description: string, requiresTarget: bool, kind: Kind)

  /** The guard every targeting effect (and playCard) uses: present and inside the row. */
  predicate ValidTarget(idx: Option<int>, len: int)
  {
    idx.Some? && 0 <= idx.value < len
  }

  /** The row with exactly the slots in `slots` flipped (indices outside the row are ignored). */
  function FlipSet(row: Row, slots: set<int>): (r: Row)
    ensures |r| == |row|
  {
    seq(|row|, i requires 0 <= i < |row| => if i in slots then Flip(row[i]) else row[i])
  }

  /**
   * The effect of a card of the given kind, as a value: what `execute` returns.
   * A targeting kind with a missing or out-of-range index returns the row unchanged;
   * Row Flip ignores the index.
   */
  function Apply(kind: Kind, row: Row, idx: Option<int>): (r: Row)
    ensures |r| == |row|
  {
    match kind
    case SingleFlip =>
      if ValidTarget(idx, |row|) then FlipSet(row, {idx.value}) else row
    case AdjacentFlip =>
      if ValidTarget(idx, |row|) then FlipSet(row, {idx.value - 1, idx.value, idx.value + 1}) else row
    case RowFlip =>
      seq(|row|, i requires 0 <= i < |row| => Flip(row[i]))
  }

  /**
   * What each effect changes: a targeting kind with an invalid index changes
   * nothing; otherwise Single Flip changes exactly the target slot, Adjacent
   * Flip exactly the target and its neighbours inside the row, and Row Flip
   * every slot.
   */
  lemma ApplyEffect(kind: Kind, row: Row, idx: Option<int>)
    ensures kind != RowFlip && !ValidTarget(idx, |row|) ==> Apply(kind, row, idx) == row
    ensures kind == SingleFlip && ValidTarget(idx, |row|) ==>
      forall i :: 0 <= i < |row| ==> (Apply(kind, row, idx)[i] != row[i] <==> i == idx.value)
    ensures kind == AdjacentFlip && ValidTarget(idx, |row|) ==>
      forall i :: 0 <= i < |row| ==> (Apply(kind, row, idx)[i] != row[i] <==> idx.value - 1 <= i <= idx.value + 1)
    ensures kind == RowFlip ==> forall i :: 0 <= i < |row| ==> Apply(kind, row, idx)[i] != row[i]
  {
  }

  /** The slots in which an effect's result differs from its input. */
  function ChangedSlots(before: Row, after: Row): set<int>
    requires |before| == |after|
  {
    set i | 0 <= i < |before| && after[i] != before[i]
  }

  /** Single Flip aimed inside the row changes one slot: the target. */
  lemma SingleChangesOne(row: Row, k: int)
    requires 0 <= k < |row|
    ensures ChangedSlots(row, Apply(SingleFlip, row, Some(k))) == {k}
  {
    ApplyEffect(SingleFlip, row, Some(k));
  }

  /**
   * Adjacent Flip aimed inside the row changes the target and each neighbour
   * that exists: two slots at an edge, three in the interior.
   */
  lemma AdjacentChangesUpToThree(row: Row, k: int)
    requires 0 <= k < |row|
    ensures |ChangedSlots(row, Apply(AdjacentFlip, row, Some(k)))| ==
      1 + (if k > 0 then 1 else 0) + (if k < |row| - 1 then 1 else 0)
  {
    ApplyEffect(AdjacentFlip, row, Some(k));
    var changed := ChangedSlots(row, Apply(AdjacentFlip, row, Some(k)));
    if k > 0 && k < |row| - 1 {
      assert changed == {k - 1, k, k + 1};
    } else if k > 0 {
      assert changed == {k - 1, k};
    } else if k < |row| - 1 {
      assert changed == {k, k + 1};
    } else {
      assert changed == {k};
    }
  }

  /** The slot indices 0..n-1. */
  function Indices(n: nat): (r: set<int>)
    ensures |r| == n
    ensures forall i :: i in r <==> 0 <= i < n
  {
    if n == 0 then {} else Indices(n - 1) + {n - 1}
  }

  /** Row Flip changes every slot. */
  lemma RowChangesAll(row: Row, idx: Option<int>)
    ensures |ChangedSlots(row, Apply(RowFlip, row, idx))| == |row|
  {
    ApplyEffect(RowFlip, row, idx);
    assert ChangedSlots(row, Apply(RowFlip, row, idx)) == Indices(|row|);
  }

  /** Single Flip's `execute`: copy the row, then flip the target slot in place. */
  method ExecuteSingle(tokens: Row, idx: Option<int>) returns (r: Row)
    ensures r == Apply(SingleFlip, tokens, idx)
  {
    if !ValidTarget(idx, |tokens|) {
      return tokens;
    }
    var k := idx.value;
    var a := new Color[|tokens|](i requires 0 <= i < |tokens| => tokens[i]);
    a[k] := Flip(a[k]);
    r := a[..];
    assert forall i :: 0 <= i < |tokens| ==> r[i] == (if i == k then Flip(tokens[i]) else tokens[i]);
  }

  /** Adjacent Flip's `execute`: copy the row, then flip the left neighbour, the target and the right neighbour in place. */
  method ExecuteAdjacent(tokens: Row, idx: Option<int>) returns (r: Row)
    ensures r == Apply(AdjacentFlip, tokens, idx)
  {
    if !ValidTarget(idx, |tokens|) {
      return tokens;
    }
    var k := idx.value;
    var a := new Color[|tokens|](i requires 0 <= i < |tokens| => tokens[i]);
    if k > 0 {
      a[k - 1] := Flip(a[k - 1]);
    }
    a[k] := Flip(a[k]);
    if k < |tokens| - 1 {
      a[k + 1] := Flip(a[k + 1]);
    }
    r := a[..];
    assert forall i :: 0 <= i < |tokens| ==>
      r[i] == (if k - 1 <= i <= k + 1 then Flip(tokens[i]) else tokens[i]);
  }

  /** Row Flip's `execute`: `tokens.map(flipToken)`, built element by element. */
  function ExecuteRow(tokens: Row): (r: Row)
    ensures r == Apply(RowFlip, tokens, None)
  {
    if tokens == [] then [] else [Flip(tokens[0])] + ExecuteRow(tokens[1..])
  }

  /** `card.execute(tokens, idx)`: dispatch on the card's kind. */
  method Execute(card: Card, tokens: Row, idx: Option<int>) returns (r: Row)
    ensures r == Apply(card.kind, tokens, idx)
  {
    match card.kind
    case SingleFlip => r := ExecuteSingle(tokens, idx);
    case AdjacentFlip => r := ExecuteAdjacent(tokens, idx);
    case RowFlip => r := ExecuteRow(tokens);
  }

  /** A card is well formed when its flags and name agree with its kind, as every factory builds it. */
  predicate WellFormed(c: Card)
  {
    && c.requiresTarget == (c.kind != RowFlip)
    && c.name == KindName(c.kind)
  }

  function KindName(k: Kind): string
  {
    match k
    case SingleFlip => "Single Flip"
    case AdjacentFlip => "Adjacent Flip"
    case RowFlip => "Row Flip"
  }

  function CreateSingleFlipCard(cardId: string): (c: Card)
    ensures c.id == cardId && c.kind == SingleFlip && c.requiresTarget && WellFormed(c)
  {
    Card(cardId, "Single Flip", "Flip one token", true, SingleFlip)
  }

  function CreateAdjacentFlipCard(cardId: string): (c: Card)
    ensures c.id == cardId && c.kind == AdjacentFlip && c.requiresTarget && WellFormed(c)
  {
    Card(cardId, "Adjacent Flip", "Flip a token and its neighbors", true, AdjacentFlip)
  }

  function CreateRowFlipCard(cardId: string): (c: Card)
    ensures c.id == cardId && c.kind == RowFlip && !c.requiresTarget && WellFormed(c)
  {
    Card(cardId, "Row Flip", "Flip all tokens", false, RowFlip)
  }

  function CountKind(cards: seq<Card>, k: Kind): nat
  {
    if cards == [] then 0 else (if cards[0].kind == k then 1 else 0) + CountKind(cards[1..], k)
  }

  /** The ten-card deck, in its fixed order. */
  function CreateInitialDeck(): (deck: seq<Card>)
    ensures |deck| == 10
    ensures forall i :: 0 <= i < |deck| ==> WellFormed(deck[i])
    ensures forall i :: 0 <= i < |deck| ==>
      deck[i].kind == (if i < 4 then SingleFlip else if i < 7 then AdjacentFlip else RowFlip)
  {
    var deck := [
      CreateSingleFlipCard("single-1"),
      CreateSingleFlipCard("single-2"),
      CreateSingleFlipCard("single-3"),
      CreateSingleFlipCard("single-4"),
      CreateAdjacentFlipCard("adjacent-1"),
      CreateAdjacentFlipCard("adjacent-2"),
      CreateAdjacentFlipCard("adjacent-3"),
      CreateRowFlipCard("row-1"),
      CreateRowFlipCard("row-2"),
      CreateRowFlipCard("row-3")
    ];
    deck
  }

  /** Four Single Flip cards, three Adjacent Flip cards and three Row Flip cards. */
  lemma DeckComposition()
    ensures CountKind(CreateInitialDeck(), SingleFlip) == 4
    ensures CountKind(CreateInitialDeck(), AdjacentFlip) == 3
    ensures CountKind(CreateInitialDeck(), RowFlip) == 3
  {
  }

  lemma DeckIdsDistinct()
    ensures forall i, j :: 0 <= i < j < 10 ==> CreateInitialDeck()[i].id != CreateInitialDeck()[j].id
  {
  }
}
