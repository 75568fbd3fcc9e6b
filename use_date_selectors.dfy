/** The hook that owns the dashboard's interval state. */
module UseDateSelectors {
  import Js
  import opened Defs

  /** The interval the hook starts with: a Month interval from the first
      available day (the server's when known, else the configured one) to
      today, not yet marked as set. */
  function InitialInterval(firstDay: Js.Option<int>, configFirstDay: int, today: int, fmt: int -> string): (r: DateInterval)
    ensures r.kind == Tag(Month)
    ensures r.startDate == fmt(firstDay.GetOr(configFirstDay))
    ensures r.endDate == fmt(today)
    ensures r.isSetted.Some? && !IsSet(r)
  {
    DateInterval(Tag(Month), fmt(firstDay.GetOr(configFirstDay)), fmt(today), Js.Some(false))
  }

  /** `useFirstDay` always supplies a first day, one year before today, and
      the configured first day is the same date, so the initial start is
      that date whichever source it comes from. */
  lemma InitialStartIsYearBefore(today: int, yearBefore: int -> int, fmt: int -> string)
    ensures InitialInterval(Js.Some(yearBefore(today)), yearBefore(today), today, fmt).startDate
            == fmt(yearBefore(today))
    ensures InitialInterval(Js.None, yearBefore(today), today, fmt).startDate
            == fmt(yearBefore(today))
  {
  }
}
