/** The attribute model: the two closed enumerations an item can carry and
    the capabilities that say an item type exposes one of them. */
module Attributes {

  /** The three sizes an item can have; compared by value, no order. */
  datatype Size = Small | Medium | Large

  /** The three colours an item can have; compared by value, no order. */
  datatype Color = Red | Green | Blue

  /** Capability "has a size": the accessor an item type provides to be
      judged by a size specification. Only reading is modelled. */
  datatype Sized<!T> = Sized(size: T -> Size)

  /** Capability "has a colour": the accessor an item type provides to be
      judged by a colour specification. Only reading is modelled. */
  datatype Colored<!T> = Colored(color: T -> Color)

  /** The lower-case name of a size case, as it appears in an item's rendering. */
  function SizeLabel(s: Size): (r: string)
    ensures |r| > 0 && ' ' !in r
  {
    match s
    case Small => "small"
    case Medium => "medium"
    case Large => "large"
  }

  /** The lower-case name of a colour case, as it appears in an item's rendering. */
  function ColorLabel(c: Color): (r: string)
    ensures |r| > 0 && ' ' !in r
  {
    match c
    case Red => "red"
    case Green => "green"
    case Blue => "blue"
  }

  /** Distinct cases have distinct labels, so a label names its case. */
  lemma LabelsInjective(s1: Size, s2: Size, c1: Color, c2: Color)
    ensures SizeLabel(s1) == SizeLabel(s2) ==> s1 == s2
    ensures ColorLabel(c1) == ColorLabel(c2) ==> c1 == c2
  {
  }
}
