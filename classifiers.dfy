/** The two display classifications: the map marker colour of a commune by
    its price per m², and the up/down/flat class of its one-year price
    change in the comparison table. */
module Classifiers {

  /** Marker colours, from cheapest to dearest. */
  datatype MarkerColour = Blue | Green | Orange | Red

  /** Position of a colour on the cheap-to-dear scale. */
  function ColourRank(c: MarkerColour): (rank: nat)
  {
    match c
    case Blue => 0
    case Green => 1
    case Orange => 2
    case Red => 3
  }

  /** Red above 2800 €/m², orange above 2300, green above 1800, blue
      otherwise; each colour is one half-open price band. */
  function PriceColour(price: int): (colour: MarkerColour)
    ensures colour == Red <==> 2800 < price
    ensures colour == Orange <==> 2300 < price <= 2800
    ensures colour == Green <==> 1800 < price <= 2300
    ensures colour == Blue <==> price <= 1800
  {
    if price > 2800 then Red
    else if price > 2300 then Orange
    else if price > 1800 then Green
    else Blue
  }

  /** A dearer commune never gets a cheaper colour. */
  lemma PriceColourMonotone(p: int, q: int)
    requires p <= q
    ensures ColourRank(PriceColour(p)) <= ColourRank(PriceColour(q))
  {
  }

  /** The class of a price change in the comparison table. */
  datatype ChangeClass = Negative | Neutral | Positive

  function ChangeRank(c: ChangeClass): (rank: int)
  {
    match c
    case Negative => -1
    case Neutral => 0
    case Positive => 1
  }

  /** Positive for a rise, negative for a fall, neutral for no change: the
      rank of the class is the sign of the change. */
  function ClassifyChange(change: real): (c: ChangeClass)
    ensures c == Positive <==> change > 0.0
    ensures c == Negative <==> change < 0.0
    ensures c == Neutral <==> change == 0.0
  {
    if change > 0.0 then Positive
    else if change < 0.0 then Negative
    else Neutral
  }

  /** A larger change never gets a lower class, and reversing a change
      reverses its class. */
  lemma ClassifyChangeMonotone(x: real, y: real)
    requires x <= y
    ensures ChangeRank(ClassifyChange(x)) <= ChangeRank(ClassifyChange(y))
    ensures ChangeRank(ClassifyChange(-x)) == -ChangeRank(ClassifyChange(x))
  {
  }
}
