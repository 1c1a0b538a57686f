/**
 * The effects a special card can carry (Effect.java): a closed enumeration
 * whose constants each transform a card's current strength, carry a display
 * label and are applied in order of priority, the priority being the
 * constant's position in the enumeration.
 */
module Effects {

  datatype Effect = Sap {

    /** The label shown for the effect. */
    function Label(): string {
      match this
      case Sap => "x"
    }

    /** The new strength of a card whose strength is `currentValue`. */
    function Apply(currentValue: int): int {
      match this
      case Sap => 1
    }

    /** `ordinal()`: the position of the constant among `Values`. */
    function Ordinal(): (i: nat)
      ensures i < |Values| && Values[i] == this
    {
      match this
      case Sap => 0
    }

    function Priority(): nat {
      Ordinal()
    }
  }

  /** `Effect.values()`: the constants in declaration order. */
  const Values: seq<Effect> := [Sap]

  /** Sapping forces the strength to one, whatever it was. */
  lemma SapForcesOne(v: int)
    ensures Sap.Apply(v) == 1
  {
  }

  lemma SapIsIdempotent(v: int)
    ensures Sap.Apply(Sap.Apply(v)) == Sap.Apply(v)
  {
  }

  /** Priorities are the declaration positions, so they tell constants apart. */
  lemma PriorityIsOrdinal(e: Effect, f: Effect)
    ensures e.Priority() < |Values| && Values[e.Priority()] == e
    ensures e.Priority() == f.Priority() ==> e == f
    ensures Sap.Priority() == 0
  {
  }

  lemma SapLabel()
    ensures Sap.Label() == "x"
  {
  }
}
