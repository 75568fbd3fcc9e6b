/** The interval selector: preset buttons that emit a serialised interval
    `type_start_end`, a range calendar with an optional span limit, the
    label of the current range, and the effect that applies the default
    interval once per mount.

    Dates are day numbers. `fmt` stands for `format('YYYY-MM-DD')`; the
    selector only relies on its output never containing `_`. */
module DateSelectors {
  import Js
  import opened Defs

  type Day = int

  /** What the selector needs of `format('YYYY-MM-DD')`. */
  ghost predicate NoSeparator(fmt: Day -> string) {
    forall d :: '_' !in fmt(d)
  }

  /** The template literal `${type}_${start}_${end}`. */
  function Encode(kind: string, start: string, end: string): string {
    kind + "_" + start + "_" + end
  }

  /** Field `i` of a split, or `""` where JavaScript reads `undefined`. */
  function Field(parts: seq<string>, i: nat): string {
    if i < |parts| then parts[i] else ""
  }

  /** The interval `handleSelectChange(value)` hands to
      `onDateIntervalChange`, or `None` when it returns early on an empty
      value. */
  function SelectValue(value: string): (r: Js.Option<DateInterval>)
    ensures r.None? <==> value == ""
    ensures r.Some? ==> IsSet(r.value)
  {
    if value == "" then Js.None
    else
      var parts := Js.Split(value, '_');
      Js.Some(DateInterval(parts[0], Field(parts, 1), Field(parts, 2), Js.Some(true)))
  }

  /** Serialising and then parsing gives back the three parts, as long as
      none of them contains `_`. */
  lemma {:induction false} SelectValueRoundTrip(kind: string, start: string, end: string)
    requires '_' !in kind && '_' !in start && '_' !in end
    ensures SelectValue(Encode(kind, start, end)) ==
      Js.Some(DateInterval(kind, start, end, Js.Some(true)))
  {
    var v := Encode(kind, start, end);
    assert v == kind + ['_'] + (start + ['_'] + end);
    Js.SplitPrefix(kind, '_', start + ['_'] + end);
    Js.SplitPrefix(start, '_', end);
    Js.SplitNoSeparator(end, '_');
    assert Js.Split(v, '_') == [kind, start, end];
  }

  /** `todayValue` and `yesterdayValue`. */
  function TodayValue(today: Day, fmt: Day -> string): string {
    Encode(Tag(Today), fmt(today), fmt(today))
  }

  function YesterdayValue(today: Day, fmt: Day -> string): string {
    Encode(Tag(Yesterday), fmt(today - 1), fmt(today - 1))
  }

  lemma TodayAndYesterday(today: Day, fmt: Day -> string)
    requires NoSeparator(fmt)
    ensures SelectValue(TodayValue(today, fmt)) ==
      Js.Some(DateInterval("Today", fmt(today), fmt(today), Js.Some(true)))
    ensures SelectValue(YesterdayValue(today, fmt)) ==
      Js.Some(DateInterval("Yesterday", fmt(today - 1), fmt(today - 1), Js.Some(true)))
  {
    TagsHaveNoUnderscore(Today);
    TagsHaveNoUnderscore(Yesterday);
    SelectValueRoundTrip(Tag(Today), fmt(today), fmt(today));
    SelectValueRoundTrip(Tag(Yesterday), fmt(today - 1), fmt(today - 1));
  }

  const WeekDays := 7
  const MonthDays := 30

  /** First day of `createPeriodRange(days, type)`: `days - 1` days before
      today, moved up to the first available day when it falls before it. */
  function PeriodStart(days: int, today: Day, firstDay: Day): (r: Day)
    ensures r >= firstDay && r >= today - (days - 1)
    ensures r == firstDay || r == today - (days - 1)
  {
    var periodStart := today - (days - 1);
    if periodStart < firstDay then firstDay else periodStart
  }

  function CreatePeriodRange(days: int, t: IntervalType, today: Day, firstDay: Day, fmt: Day -> string): string {
    Encode(Tag(t), fmt(PeriodStart(days, today, firstDay)), fmt(today))
  }

  /** A period range ends today, never starts before the first day, and
      spans at most `days` days when the first day is not in the future. */
  lemma PeriodRange(days: int, t: IntervalType, today: Day, firstDay: Day, fmt: Day -> string)
    requires NoSeparator(fmt)
    ensures var start := PeriodStart(days, today, firstDay);
      && SelectValue(CreatePeriodRange(days, t, today, firstDay, fmt)) ==
           Js.Some(DateInterval(Tag(t), fmt(start), fmt(today), Js.Some(true)))
      && (days >= 1 && firstDay <= today ==> start <= today && today - start + 1 <= days)
  {
    var start := PeriodStart(days, today, firstDay);
    TagsHaveNoUnderscore(t);
    SelectValueRoundTrip(Tag(t), fmt(start), fmt(today));
  }

  /** The value behind each preset button; Quarter, Year and Custom have
      no preset button. */
  function ButtonValue(t: IntervalType, today: Day, firstDay: Day, fmt: Day -> string): Js.Option<string> {
    match t
    case Today => Js.Some(TodayValue(today, fmt))
    case Yesterday => Js.Some(YesterdayValue(today, fmt))
    case Week => Js.Some(CreatePeriodRange(WeekDays, Week, today, firstDay, fmt))
    case Month => Js.Some(CreatePeriodRange(MonthDays, Month, today, firstDay, fmt))
    case AllTime => Js.Some(Encode(Tag(AllTime), fmt(firstDay), fmt(today)))
    case _ => Js.None
  }

  /** Pressing a preset selects exactly that preset's type, with the dates
      the preset promises. */
  lemma ButtonSelectsItsType(t: IntervalType, today: Day, firstDay: Day, fmt: Day -> string)
    requires NoSeparator(fmt)
    ensures ButtonValue(t, today, firstDay, fmt).Some? <==> t in {Today, Yesterday, Week, Month, AllTime}
    ensures ButtonValue(t, today, firstDay, fmt).Some? ==>
      var i := SelectValue(ButtonValue(t, today, firstDay, fmt).value);
      && i.Some? && i.value.kind == Tag(t) && IsSet(i.value)
      && i.value.endDate == fmt(if t == Yesterday then today - 1 else today)
  {
    match t
    case Today => TodayAndYesterday(today, fmt);
    case Yesterday => TodayAndYesterday(today, fmt);
    case Week => PeriodRange(WeekDays, Week, today, firstDay, fmt);
    case Month => PeriodRange(MonthDays, Month, today, firstDay, fmt);
    case AllTime =>
      TagsHaveNoUnderscore(AllTime);
      SelectValueRoundTrip(Tag(AllTime), fmt(firstDay), fmt(today));
    case _ =>
  }

  function Abs(x: int): nat {
    if x < 0 then -x else x
  }

  /** What `handleCalendarChange(dates)` does. */
  datatype CalendarOutcome =
    | Ignored                      // fewer or more than two dates: nothing happens
    | TooLong(limit: int)          // the span exceeds maxSelectedDays: only an alert
    | Chosen(interval: DateInterval) // a Custom interval is emitted and the calendar closes

  function CalendarChange(dates: seq<Day>, maxSelectedDays: Js.Option<int>, fmt: Day -> string): (r: CalendarOutcome)
    ensures r.Ignored? <==> |dates| != 2
    ensures r.TooLong? <==> (|dates| == 2 && maxSelectedDays.Some? && maxSelectedDays.value != 0
                             && Abs(dates[1] - dates[0]) + 1 > maxSelectedDays.value)
    ensures r.TooLong? ==> r.limit == maxSelectedDays.value
    ensures r.Chosen? ==> r.interval == DateInterval(Tag(Custom), fmt(dates[0]), fmt(dates[1]), Js.Some(true))
  {
    if |dates| != 2 then Ignored
    else if maxSelectedDays.Some? && maxSelectedDays.value != 0
            && Abs(dates[1] - dates[0]) + 1 > maxSelectedDays.value then
      TooLong(maxSelectedDays.value)
    else
      Chosen(DateInterval(Tag(Custom), fmt(dates[0]), fmt(dates[1]), Js.Some(true)))
  }

  /** With a positive limit, an accepted custom range spans at most the
      limit; without a limit every pair of dates is accepted. */
  lemma CalendarSpanRespected(dates: seq<Day>, maxSelectedDays: Js.Option<int>, fmt: Day -> string)
    requires |dates| == 2
    ensures CalendarChange(dates, maxSelectedDays, fmt).Chosen? && maxSelectedDays.Some? && maxSelectedDays.value > 0
      ==> Abs(dates[1] - dates[0]) + 1 <= maxSelectedDays.value
    ensures maxSelectedDays.None? || maxSelectedDays == Js.Some(0) ==> CalendarChange(dates, maxSelectedDays, fmt).Chosen?
  {
  }

  /** The three display forms `formatDateRange` combines. */
  datatype DatePattern = DD | DDMMMM | DDMMMMYYYY

  /** The forms for the start and end date, chosen from year and month. */
  function RangePatterns(startYear: int, startMonth: int, endYear: int, endMonth: int): (r: (DatePattern, DatePattern))
    ensures r.1 == DDMMMMYYYY
    ensures r.0 == DD <==> startYear == endYear && startMonth == endMonth
    ensures r.0 == DDMMMM <==> startYear == endYear && startMonth != endMonth
    ensures r.0 == DDMMMMYYYY <==> startYear != endYear
  {
    if startYear == endYear then
      if startMonth == endMonth then (DD, DDMMMMYYYY) else (DDMMMM, DDMMMMYYYY)
    else (DDMMMMYYYY, DDMMMMYYYY)
  }

  /** `formatDateRange(start, end)`; `yearOf`, `monthOf` and `render` stand
      for dayjs's `year()`, `month()` and `format(pattern)`. */
  function FormatDateRange(start: Day, end: Day, yearOf: Day -> int, monthOf: Day -> int,
                           render: (Day, DatePattern) -> string): string
  {
    var p := RangePatterns(yearOf(start), monthOf(start), yearOf(end), monthOf(end));
    render(start, p.0) + " - " + render(end, p.1)
  }

  /** The end date is always shown with its year. */
  lemma RangeLabelEndsWithYear(start: Day, end: Day, yearOf: Day -> int, monthOf: Day -> int,
                               render: (Day, DatePattern) -> string)
    ensures exists left :: (FormatDateRange(start, end, yearOf, monthOf, render) ==
                              render(start, left) + " - " + render(end, DDMMMMYYYY))
  {
    var p := RangePatterns(yearOf(start), monthOf(start), yearOf(end), monthOf(end));
    assert FormatDateRange(start, end, yearOf, monthOf, render) ==
      render(start, p.0) + " - " + render(end, DDMMMMYYYY);
  }

  /** The calendar shows the interval's two dates exactly when it is a
      Custom interval. */
  function CalendarValue(i: DateInterval): (r: seq<string>)
    ensures i.kind == Tag(Custom) ==> r == [i.startDate, i.endDate]
    ensures i.kind != Tag(Custom) ==> r == []
  {
    if i.kind == Tag(Custom) then [i.startDate, i.endDate] else []
  }

  /** `getStyle(type)`: a button is drawn as selected when its type is the
      interval's. */
  predicate IsSelected(t: IntervalType, i: DateInterval) {
    Tag(t) == i.kind
  }

  /** At most one button is drawn as selected, and after a preset is
      pressed it is that preset. */
  lemma OneSelectedButton(i: DateInterval, t1: IntervalType, t2: IntervalType)
    ensures IsSelected(t1, i) && IsSelected(t2, i) ==> t1 == t2
  {
    if IsSelected(t1, i) && IsSelected(t2, i) {
      TagRoundTrip(t1);
      TagRoundTrip(t2);
    }
  }

  /** The value the default-interval effect selects, if any. AllTime is a
      default only once the server has supplied the first day. */
  function DefaultValue(default: IntervalType, today: Day, firstDayFromServer: Js.Option<Day>,
                        configFirstDay: Day, fmt: Day -> string): (r: Js.Option<string>)
    ensures r.Some? <==> default in {Today, Yesterday, Week, Month}
                         || (default == AllTime && firstDayFromServer.Some?)
    ensures r.Some? ==> r == ButtonValue(default, today, firstDayFromServer.GetOr(configFirstDay), fmt)
  {
    var firstDay := firstDayFromServer.GetOr(configFirstDay);
    if default == AllTime && firstDayFromServer.None? then Js.None
    else ButtonValue(default, today, firstDay, fmt)
  }

  /** The selector's own state and the parent's interval it writes through
      `onDateIntervalChange`. */
  class Selector {
    var interval: DateInterval
    var calendarOpen: bool
    var calendarValue: seq<string>
    /** The `isSetted` ref of the default-interval effect. */
    var defaultApplied: bool
    /** The message of the last `window.alert`. */
    var lastAlert: Js.Option<string>

    const today: Day
    const firstDayFromServer: Js.Option<Day>
    const configFirstDay: Day
    const fmt: Day -> string

    ghost predicate Valid()
      reads this
    {
      NoSeparator(fmt)
    }

    function FirstDay(): Day
      reads this
    {
      firstDayFromServer.GetOr(configFirstDay)
    }

    constructor (initial: DateInterval, today: Day, firstDayFromServer: Js.Option<Day>,
                 configFirstDay: Day, fmt: Day -> string)
      requires NoSeparator(fmt)
      ensures Valid()
      ensures interval == initial && !calendarOpen && calendarValue == []
      ensures !defaultApplied && lastAlert == Js.None
      ensures this.today == today && this.firstDayFromServer == firstDayFromServer
      ensures this.configFirstDay == configFirstDay && this.fmt == fmt
    {
      interval := initial;
      calendarOpen := false;
      calendarValue := [];
      defaultApplied := false;
      lastAlert := Js.None;
      this.today := today;
      this.firstDayFromServer := firstDayFromServer;
      this.configFirstDay := configFirstDay;
      this.fmt := fmt;
    }

    /** `handleSelectChange(value)`. */
    method SelectChange(value: string)
      modifies this`interval
      ensures interval == (if value == "" then old(interval) else SelectValue(value).value)
    {
      var r := SelectValue(value);
      if r.Some? {
        interval := r.value;
      }
    }

    /** A click on a preset button. */
    method PressButton(t: IntervalType)
      requires Valid() && t in {Today, Yesterday, Week, Month, AllTime}
      modifies this`interval
      ensures interval.kind == Tag(t) && IsSet(interval)
      ensures interval == SelectValue(ButtonValue(t, today, FirstDay(), fmt).value).value
    {
      ButtonSelectsItsType(t, today, FirstDay(), fmt);
      SelectChange(ButtonValue(t, today, FirstDay(), fmt).value);
    }

    /** `handleCalendarChange(dates)`. */
    method CalendarChanged(dates: seq<Day>, maxSelectedDays: Js.Option<int>)
      modifies this`interval, this`calendarOpen, this`lastAlert
      ensures match CalendarChange(dates, maxSelectedDays, fmt)
        case Ignored =>
          interval == old(interval) && calendarOpen == old(calendarOpen) && lastAlert == old(lastAlert)
        case TooLong(limit) =>
          && interval == old(interval) && calendarOpen == old(calendarOpen)
          && lastAlert == Js.Some("Вы можете выбрать не более " + Js.IntToString(limit) + " дней")
        case Chosen(i) =>
          interval == i && !calendarOpen && lastAlert == old(lastAlert)
    {
      match CalendarChange(dates, maxSelectedDays, fmt)
      case Ignored =>
      case TooLong(limit) =>
        lastAlert := Js.Some("Вы можете выбрать не более " + Js.IntToString(limit) + " дней");
      case Chosen(i) =>
        interval := i;
        calendarOpen := false;
    }

    /** The effect that keeps the calendar in step with the interval. */
    method SyncCalendar()
      modifies this`calendarValue
      ensures calendarValue == CalendarValue(interval)
    {
      calendarValue := CalendarValue(interval);
    }

    /** The default-interval effect. Once `defaultApplied` is set it never
      changes the interval again; an omitted default only sets the flag. */
    method ApplyDefault(omit: seq<IntervalType>, default: IntervalType)
      modifies this`interval, this`defaultApplied
      ensures old(defaultApplied) ==> defaultApplied && interval == old(interval)
      ensures default in omit ==> defaultApplied && interval == old(interval)
      ensures !old(defaultApplied) && default !in omit ==>
        var v := DefaultValue(default, today, firstDayFromServer, configFirstDay, fmt);
        && defaultApplied == v.Some?
        && interval == (if v.Some? then SelectValue(v.value).value else old(interval))
      ensures interval != old(interval) ==> defaultApplied
    {
      if default !in omit && !defaultApplied {
        var v := DefaultValue(default, today, firstDayFromServer, configFirstDay, fmt);
        if v.Some? {
          SelectChange(v.value);
          defaultApplied := true;
        }
      } else {
        defaultApplied := true;
      }
    }
  }

  /** A client of the selector: running the effect twice with the same
      inputs has the effect of one run. */
  method ApplyDefaultTwice(s: Selector, omit: seq<IntervalType>, default: IntervalType)
    modifies s
    ensures var v := DefaultValue(default, s.today, s.firstDayFromServer, s.configFirstDay, s.fmt);
      var applies := !old(s.defaultApplied) && default !in omit && v.Some?;
      && s.defaultApplied == (old(s.defaultApplied) || default in omit || v.Some?)
      && s.interval == (if applies then SelectValue(v.value).value else old(s.interval))
  {
    s.ApplyDefault(omit, default);
    s.ApplyDefault(omit, default);
  }

  /** The props `omit = []` and `defaultDateInterval = AllTime` that a
      parent leaving them out gets. */
  const DefaultOmit: seq<IntervalType> := []
  const DefaultIntervalType := AllTime

  /** A selector mounted without `omit` and `defaultDateInterval`: the
      default is applied exactly once the server has supplied the first
      day, and then selects the whole range up to today. */
  method ApplyPropDefaults(s: Selector)
    requires s.Valid()
    modifies s
    ensures !old(s.defaultApplied) ==> (s.defaultApplied <==> s.firstDayFromServer.Some?)
    ensures !old(s.defaultApplied) && s.defaultApplied ==>
      s.interval.kind == Tag(AllTime) && IsSet(s.interval) && s.interval.endDate == s.fmt(s.today)
    ensures !s.defaultApplied || old(s.defaultApplied) ==> s.interval == old(s.interval)
  {
    ButtonSelectsItsType(AllTime, s.today, s.FirstDay(), s.fmt);
    s.ApplyDefault(DefaultOmit, DefaultIntervalType);
  }
}
