/**
 * The deck generators of DeckBuilder.java: a run of plain unit cards with
 * consecutive values, and a fixed balanced deck of 21 unit cards.
 */
module DeckBuilder {
  import opened Wrappers
  import opened JavaUtil
  import opened JavaStrings
  import opened Cards

  /** How many values `IntStream.range(from, until)` produces. */
  function RangeCount(from: int, until: int): nat {
    if from < until then until - from else 0
  }

  /** The card `simpleDeck` makes for value `v`. */
  function SimpleCard(v: int): CardFields {
    CardFields(Unit, "c" + IntToString(v), v, 1, None)
  }

  /** Cards of different values get different names, so no two cards of a simple deck share a name. */
  lemma SimpleCardNamesDiffer(a: int, b: int)
    requires a != b
    ensures SimpleCard(a).name != SimpleCard(b).name
  {
    if SimpleCard(a).name == SimpleCard(b).name {
      assert IntToString(a) == SimpleCard(a).name[1..] == SimpleCard(b).name[1..] == IntToString(b);
      IntToStringInjective(a, b);
    }
  }

  /**
   * `simpleDeck(min, max)`: one fresh unit card per value of
   * `range(min, max + 1)`. The bound `max + 1` is computed in `int`
   * arithmetic, so at `max == Integer.MAX_VALUE` it wraps around and the
   * range is empty.
   */
  method SimpleDeck(min: int, max: int) returns (deck: seq<Card>)
    requires IsInt32(min) && IsInt32(max)
    ensures |deck| == if min <= max < Int32Max then max - min + 1 else 0
    ensures forall i :: 0 <= i < |deck| ==> deck[i].Fields() == SimpleCard(min + i)
    ensures Distinct(deck)
    ensures forall c | c in deck :: fresh(c)
  {
    var until := ToInt32(max + 1);
    assert max == Int32Max ==> until == Int32Min;
    deck := [];
    var i := min;
    while i < until
      invariant min <= i && (i == min || i <= until)
      invariant |deck| == i - min
      invariant forall k :: 0 <= k < |deck| ==> deck[k].Fields() == SimpleCard(min + k)
      invariant Distinct(deck)
      invariant forall c | c in deck :: fresh(c)
    {
      var card := new Card(Unit, "c" + IntToString(i), i, 1, None);
      deck := deck + [card];
      i := i + 1;
    }
  }

  // ---------------------------------------------------------------------
  // The balanced deck

  function UnitCard(name: string, value: int, row: int): CardFields {
    CardFields(Unit, name, value, row, None)
  }

  function Copies(n: nat, card: CardFields): (cs: seq<CardFields>)
    ensures |cs| == n && forall k :: 0 <= k < n ==> cs[k] == card
  {
    seq(n, _ => card)
  }

  /** What one pass of the outer loop adds for target row `row`. */
  function RowBlock(row: int): seq<CardFields> {
    Copies(RangeCount(1, 4), UnitCard("c1", 1, row))
    + Copies(RangeCount(1, 3), UnitCard("c2", 2, row))
    + Copies(RangeCount(1, 2), UnitCard("c3", 3, row))
    + Copies(RangeCount(1, 2), UnitCard("c5", 5, row))
    + Copies(RangeCount(1, 1), UnitCard("c8", 8, row))
  }

  /** The blocks of the target rows `1` to `rows`, in that order. */
  function Blocks(rows: nat): seq<CardFields> {
    if rows == 0 then [] else Blocks(rows - 1) + RowBlock(rows)
  }

  /** The deck `balancedDeck` lays out: `range(1, 4)` over target rows. */
  function BalancedLayout(): seq<CardFields> {
    Blocks(RangeCount(1, 4))
  }

  /**
   * `range(from, until).forEach(i -> cards.add(new Card(UNIT, name, value, row, empty)))`.
   */
  method AddCopies(cards: seq<Card>, from: int, until: int, name: string, value: int, row: int)
    returns (grown: seq<Card>, ghost added: seq<Card>)
    requires Distinct(cards)
    ensures grown == cards + added
    ensures AllFields(added) == Copies(RangeCount(from, until), UnitCard(name, value, row))
    ensures Distinct(grown)
    ensures forall c | c in added :: fresh(c)
  {
    grown, added := cards, [];
    var i := from;
    while i < until
      invariant from <= i && (i == from || i <= until)
      invariant grown == cards + added
      invariant AllFields(added) == Copies(i - from, UnitCard(name, value, row))
      invariant Distinct(added)
      invariant forall c | c in added :: fresh(c)
    {
      var card := new Card(Unit, name, value, row, None);
      assert AllFields(added + [card]) == AllFields(added) + [card.Fields()];
      DistinctJoin(added, [card]);
      grown, added := grown + [card], added + [card];
      i := i + 1;
    }
    DistinctJoin(cards, added);
  }

  /** The body of `balancedDeck`'s outer `forEach`: the cards of target row `r`. */
  method AddRowBlock(cards: seq<Card>, r: int) returns (grown: seq<Card>, ghost added: seq<Card>)
    requires Distinct(cards)
    ensures grown == cards + added
    ensures AllFields(added) == RowBlock(r)
    ensures Distinct(grown)
    ensures forall c | c in added :: fresh(c)
  {
    var c1, a1 := AddCopies(cards, 1, 4, "c1", 1, r);
    var c2, a2 := AddCopies(c1, 1, 3, "c2", 2, r);
    var c3, a3 := AddCopies(c2, 1, 2, "c3", 3, r);
    var c5, a5 := AddCopies(c3, 1, 2, "c5", 5, r);
    ghost var a8;
    grown, a8 := AddCopies(c5, 1, 1, "c8", 8, r);
    added := a1 + a2 + a3 + a5 + a8;
    RowBlockOfParts(a1, a2, a3, a5, a8, r);
  }

  /** Five runs of copies, joined, carry the fields of one row block. */
  lemma RowBlockOfParts(a1: seq<Card>, a2: seq<Card>, a3: seq<Card>, a5: seq<Card>, a8: seq<Card>, r: int)
    requires AllFields(a1) == Copies(RangeCount(1, 4), UnitCard("c1", 1, r))
    requires AllFields(a2) == Copies(RangeCount(1, 3), UnitCard("c2", 2, r))
    requires AllFields(a3) == Copies(RangeCount(1, 2), UnitCard("c3", 3, r))
    requires AllFields(a5) == Copies(RangeCount(1, 2), UnitCard("c5", 5, r))
    requires AllFields(a8) == Copies(RangeCount(1, 1), UnitCard("c8", 8, r))
    ensures AllFields(a1 + a2 + a3 + a5 + a8) == RowBlock(r)
  {
    AllFieldsOfJoin(a1, a2);
    AllFieldsOfJoin(a1 + a2, a3);
    AllFieldsOfJoin(a1 + a2 + a3, a5);
    AllFieldsOfJoin(a1 + a2 + a3 + a5, a8);
  }

  /** `balancedDeck()`: for each target row, three c1, two c2, one c3, one c5 and no c8. */
  method BalancedDeck() returns (cards: seq<Card>)
    ensures AllFields(cards) == BalancedLayout()
    ensures Distinct(cards)
    ensures forall c | c in cards :: fresh(c)
  {
    cards := [];
    var r := 1;
    while r < 4
      invariant 1 <= r <= 4
      invariant AllFields(cards) == Blocks(r - 1)
      invariant Distinct(cards)
      invariant forall c | c in cards :: fresh(c)
    {
      var grown;
      ghost var added;
      grown, added := AddRowBlock(cards, r);
      AllFieldsOfJoin(cards, added);
      cards := grown;
      r := r + 1;
    }
  }

  // ---------------------------------------------------------------------
  // What the balanced deck is made of

  function Strengths(cs: seq<CardFields>): (vs: seq<int>)
    ensures |vs| == |cs| && forall i :: 0 <= i < |cs| ==> vs[i] == cs[i].value
  {
    seq(|cs|, i requires 0 <= i < |cs| => cs[i].value)
  }

  lemma RowBlockContents(row: int)
    ensures RowBlock(row) == [UnitCard("c1", 1, row), UnitCard("c1", 1, row), UnitCard("c1", 1, row),
                              UnitCard("c2", 2, row), UnitCard("c2", 2, row),
                              UnitCard("c3", 3, row), UnitCard("c5", 5, row)]
  {
  }

  /** Every card of a block is a unit card without an effect aimed at the block's row. */
  lemma RowBlockFacts(r: int)
    ensures |RowBlock(r)| == 7
    ensures forall k :: 0 <= k < 7 ==> RowBlock(r)[k].targetRow == r
    ensures forall k :: 0 <= k < 7 ==> RowBlock(r)[k].kind == Unit && RowBlock(r)[k].effect == None
    ensures forall k :: 0 <= k < 7 ==> RowBlock(r)[k].value != 8
  {
    RowBlockContents(r);
  }

  /** The target row of a card of the balanced deck follows from its position. */
  lemma BalancedLayoutContents()
    ensures BalancedLayout() == RowBlock(1) + RowBlock(2) + RowBlock(3)
  {
    assert Blocks(1) == RowBlock(1);
  }

  /** The `i`-th card of the balanced deck is card `i % 7` of the block of row `i / 7 + 1`. */
  lemma BalancedLayoutAt()
    ensures |BalancedLayout()| == 21
    ensures forall i :: 0 <= i < 21 ==> BalancedLayout()[i] == RowBlock(i / 7 + 1)[i % 7]
  {
    var b1, b2, b3 := RowBlock(1), RowBlock(2), RowBlock(3);
    BalancedLayoutContents();
    assert |b1| == |b2| == |b3| == 7 by {
      RowBlockFacts(1);
      RowBlockFacts(2);
      RowBlockFacts(3);
    }
    forall i | 0 <= i < 21
      ensures BalancedLayout()[i] == RowBlock(i / 7 + 1)[i % 7]
    {
      if i < 7 {
        assert (b1 + b2 + b3)[i] == b1[i];
      } else if i < 14 {
        assert (b1 + b2 + b3)[i] == b2[i - 7];
      } else {
        assert (b1 + b2 + b3)[i] == b3[i - 14];
      }
    }
  }

  /**
   * The balanced deck has 21 cards, all of them unit cards without an effect,
   * grouped by target row in ascending order: seven for each of the rows 1,
   * 2 and 3, and none for any other row.
   */
  lemma BalancedDeckShape()
    ensures |BalancedLayout()| == 21
    ensures forall i :: 0 <= i < 21 ==> BalancedLayout()[i].targetRow == i / 7 + 1
    ensures forall i :: 0 <= i < 21 ==> BalancedLayout()[i].kind == Unit && BalancedLayout()[i].effect == None
    ensures forall i, j :: 0 <= i <= j < 21 ==> BalancedLayout()[i].targetRow <= BalancedLayout()[j].targetRow
    ensures forall i :: 0 <= i < 21 ==> 1 <= BalancedLayout()[i].targetRow <= 3
  {
    BalancedLayoutAt();
    RowBlockFacts(1);
    RowBlockFacts(2);
    RowBlockFacts(3);
  }

  lemma BlockStrength()
    ensures Sum([1, 1, 1, 2, 2, 3, 5]) == 15
  {
    assert Sum([1, 1, 1]) == 3 by {
      assert [1, 1, 1][..2] == [1, 1];
      assert [1, 1][..1] == [1];
    }
    assert Sum([2, 2]) == 4 by { assert [2, 2][..1] == [2]; }
    assert Sum([3, 5]) == 8 by { assert [3, 5][..1] == [3]; }
    SumAppend([1, 1, 1], [2, 2]);
    SumAppend([1, 1, 1, 2, 2], [3, 5]);
    assert [1, 1, 1] + [2, 2] == [1, 1, 1, 2, 2];
    assert [1, 1, 1, 2, 2] + [3, 5] == [1, 1, 1, 2, 2, 3, 5];
  }

  /** The cards aimed at row `row` are exactly the seven in positions `7 * (row - 1)` to `7 * row - 1`. */
  lemma BalancedRowPositions(row: int)
    requires 1 <= row <= 3
    ensures forall i :: 0 <= i < 21 ==> (BalancedLayout()[i].targetRow == row <==> 7 * (row - 1) <= i < 7 * row)
  {
    BalancedDeckShape();
  }

  /** Those seven cards are the block of the row. */
  lemma BalancedRowSlice(row: int)
    requires 1 <= row <= 3
    ensures BalancedLayout()[7 * (row - 1)..7 * row] == RowBlock(row)
  {
    BalancedLayoutAt();
    RowBlockFacts(row);
    var lo := 7 * (row - 1);
    forall k | 0 <= k < 7
      ensures BalancedLayout()[lo..lo + 7][k] == RowBlock(row)[k]
    {
      assert (lo + k) / 7 + 1 == row && (lo + k) % 7 == k;
    }
  }

  /** A block holds three 1s, two 2s, a 3 and a 5, for a base strength of 15. */
  lemma RowBlockValues(row: int)
    ensures Strengths(RowBlock(row)) == [1, 1, 1, 2, 2, 3, 5]
    ensures multiset(Strengths(RowBlock(row))) == multiset{1, 1, 1, 2, 2, 3, 5}
    ensures Sum(Strengths(RowBlock(row))) == 15
  {
    RowBlockContents(row);
    BlockStrength();
  }

  /** `range(1, 1)` is empty, so no card of value 8 is ever made. */
  lemma BalancedDeckHasNoEight()
    ensures forall i :: 0 <= i < |BalancedLayout()| ==> BalancedLayout()[i].value != 8
  {
    BalancedLayoutAt();
    RowBlockFacts(1);
    RowBlockFacts(2);
    RowBlockFacts(3);
  }
}
