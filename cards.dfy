/**
 * The card types of the game: players, catalog cards, cards engaged on the
 * board, rows and hands (Card.java, EngagedCard.java, Row.java, Hand.java).
 */
module Cards {
  import opened Wrappers
  import opened Effects

  /**
   * A participant. The engine tells players apart by reference; Player.java
   * is not part of this model, beyond its display name.
   */
  class Player {
    const name: string

    constructor (name: string)
      ensures this.name == name
    {
      this.name := name;
    }
  }

  /** CardType.java is not part of this model beyond its two constants. */
  datatype CardType = Unit | Special

  /** The five immutable fields of a card, as a value. */
  datatype CardFields = CardFields(kind: CardType, name: string, value: int, targetRow: int, effect: Option<Effect>)

  /**
   * A catalog card. Card declares no `equals`, so two cards with equal fields
   * are still different cards: a hand holds references, and removing a card
   * from a hand removes that very reference.
   */
  class Card {
    const kind: CardType
    const name: string
    const value: int
    const targetRow: int
    const effect: Option<Effect>

    constructor (kind: CardType, name: string, value: int, targetRow: int, effect: Option<Effect>)
      ensures Fields() == CardFields(kind, name, value, targetRow, effect)
    {
      this.kind := kind;
      this.name := name;
      this.value := value;
      this.targetRow := targetRow;
      this.effect := effect;
    }

    function Fields(): CardFields {
      CardFields(kind, name, value, targetRow, effect)
    }
  }

  /** The fields of every card of a list, in order. */
  function AllFields(cards: seq<Card>): (fs: seq<CardFields>)
    ensures |fs| == |cards|
    ensures forall i :: 0 <= i < |cards| ==> fs[i] == cards[i].Fields()
  {
    if cards == [] then [] else AllFields(cards[..|cards| - 1]) + [cards[|cards| - 1].Fields()]
  }

  /** The fields of a joined list are the joined fields. */
  lemma AllFieldsOfJoin(xs: seq<Card>, ys: seq<Card>)
    ensures AllFields(xs + ys) == AllFields(xs) + AllFields(ys)
  {
  }

  /** No card object occurs twice. */
  predicate Distinct(cards: seq<Card>) {
    forall i, j :: 0 <= i < j < |cards| ==> cards[i] != cards[j]
  }

  /** Two lists without repeats and without a card in common join into one without repeats. */
  lemma DistinctJoin(xs: seq<Card>, ys: seq<Card>)
    requires Distinct(xs) && Distinct(ys)
    requires forall c | c in ys :: c !in xs
    ensures Distinct(xs + ys)
  {
    forall i, j | 0 <= i < j < |xs + ys|
      ensures (xs + ys)[i] != (xs + ys)[j]
    {
      if j < |xs| {
        assert (xs + ys)[i] == xs[i] && (xs + ys)[j] == xs[j];
      } else if i < |xs| {
        assert (xs + ys)[i] == xs[i] && xs[i] in xs;
        assert (xs + ys)[j] == ys[j - |xs|] && ys[j - |xs|] in ys;
      } else {
        assert (xs + ys)[i] == ys[i - |xs|] && (xs + ys)[j] == ys[j - |xs|];
      }
    }
  }

  /**
   * A card in play with its current strength. Only the constructor of
   * EngagedCard is part of the engine shown, and it leaves `currentValue`
   * at Java's default, 0.
   */
  datatype EngagedCard = EngagedCard(card: Card, currentValue: int)

  function Engage(card: Card): EngagedCard {
    EngagedCard(card, 0)
  }

  /** One lane of engaged cards, in the order they were played. */
  datatype Row = Row(cards: seq<EngagedCard>)

  /** The current values of a row's cards, in order. */
  function RowValues(row: Row): (vs: seq<int>)
    ensures |vs| == |row.cards|
    ensures forall i :: 0 <= i < |vs| ==> vs[i] == row.cards[i].currentValue
  {
    seq(|row.cards|, i requires 0 <= i < |row.cards| => row.cards[i].currentValue)
  }
}
