/**
 The loosely-typed animal records the lookup service returns. Every field may
 be missing from a record; a missing field is `None`, while a field that is
 present (even with an empty value) is `Some`.
 */
module Records {

  datatype Option<+T> = None | Some(value: T) {

    /** The held value, or `default` when the field is absent (a dictionary `get` with a default). */
    function GetOr(default: T): T
    {
      match this
      case Some(v) => v
      case None => default
    }
  }

  /**
   Characteristics are an insertion-ordered mapping from key to value, kept
   as the sequence of its pairs in iteration order.
   */
  type Characteristics = seq<(string, string)>

  datatype Animal = Animal(
    name: Option<string>,
    locations: Option<seq<string>>,
    characteristics: Option<Characteristics>)

  /** Heading text used for a record without a name. */
  const UnknownName: string := "Unknown"

  /** The name to display: the record's own name, or `Unknown` only when the name is absent. */
  function DisplayName(a: Animal): string
  {
    a.name.GetOr(UnknownName)
  }

  /** The record's locations; an absent list reads as no locations. */
  function LocationsOf(a: Animal): seq<string>
  {
    a.locations.GetOr([])
  }

  /** The record's characteristics; an absent mapping reads as an empty one. */
  function CharacteristicsOf(a: Animal): Characteristics
  {
    a.characteristics.GetOr([])
  }
}
