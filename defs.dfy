/** The interval tags and the interval record shared by the date selector,
    its hook and the dashboard. */
module Defs {
  import Js

  /** The keys of the `DateIntervalType` constant object. */
  datatype IntervalType = Today | Yesterday | Week | Month | Quarter | Year | AllTime | Custom

  const AllTypes: seq<IntervalType> :=
    [Today, Yesterday, Week, Month, Quarter, Year, AllTime, Custom]

  /** The string value stored under each key: the key's own name. */
  function Tag(t: IntervalType): string {
    match t
    case Today => "Today"
    case Yesterday => "Yesterday"
    case Week => "Week"
    case Month => "Month"
    case Quarter => "Quarter"
    case Year => "Year"
    case AllTime => "AllTime"
    case Custom => "Custom"
  }

  /** Reading a tag string back as a key; strings that are no tag give
      `None`. */
  function TypeOfTag(s: string): (r: Js.Option<IntervalType>)
    ensures r.Some? ==> Tag(r.value) == s
  {
    if s == "Today" then Js.Some(Today)
    else if s == "Yesterday" then Js.Some(Yesterday)
    else if s == "Week" then Js.Some(Week)
    else if s == "Month" then Js.Some(Month)
    else if s == "Quarter" then Js.Some(Quarter)
    else if s == "Year" then Js.Some(Year)
    else if s == "AllTime" then Js.Some(AllTime)
    else if s == "Custom" then Js.Some(Custom)
    else Js.None
  }

  /** There are exactly eight tags, all different, and every key is
      listed. */
  lemma EightDistinctTags()
    ensures |AllTypes| == 8
    ensures forall t :: t in AllTypes
    ensures forall i, j :: 0 <= i < j < |AllTypes| ==> Tag(AllTypes[i]) != Tag(AllTypes[j])
  {
    forall t: IntervalType ensures t in AllTypes {
      match t
      case Today => assert AllTypes[0] == t;
      case Yesterday => assert AllTypes[1] == t;
      case Week => assert AllTypes[2] == t;
      case Month => assert AllTypes[3] == t;
      case Quarter => assert AllTypes[4] == t;
      case Year => assert AllTypes[5] == t;
      case AllTime => assert AllTypes[6] == t;
      case Custom => assert AllTypes[7] == t;
    }
  }

  /** Tags name their key without loss: the tag string determines the key. */
  lemma TagRoundTrip(t: IntervalType)
    ensures TypeOfTag(Tag(t)) == Js.Some(t)
  {
  }

  /** No tag contains `_`, the separator of the serialised interval. */
  lemma TagsHaveNoUnderscore(t: IntervalType)
    ensures '_' !in Tag(t)
    ensures Tag(t) != ""
  {
  }

  /** `DateInterval`: `type`, `startDate` and `endDate` are required, the
      `isSetted` flag may be absent. `kind` holds the `type` field as the
      string it is at run time, since the selector writes it with an
      unchecked cast. */
  datatype DateInterval = DateInterval(
    kind: string,
    startDate: string,
    endDate: string,
    isSetted: Js.Option<bool>)

  /** `interval.isSetted` tested for truth: an absent flag counts as not
      set. */
  predicate IsSet(i: DateInterval) {
    i.isSetted == Js.Some(true)
  }

  lemma AbsentFlagIsNotSet(k: string, s: string, e: string)
    ensures !IsSet(DateInterval(k, s, e, Js.None))
    ensures !IsSet(DateInterval(k, s, e, Js.Some(false)))
    ensures IsSet(DateInterval(k, s, e, Js.Some(true)))
  {
  }
}
