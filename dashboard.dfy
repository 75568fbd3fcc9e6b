/** The dashboard's fetch effect: a small state machine over `loading`,
    `error` and `chartData`, driven by the effect issuing a request and by
    that request completing. The network call itself is an input: the
    completion event carries its outcome. */
module Dashboard {
  import Js
  import opened Defs
  import UseDateSelectors

  datatype Stat = Stat(allVisits: int, period: string, uniqueVisitors: int, visitorCount: int)

  datatype ChartData = ChartData(site: seq<Stat>, auds: seq<Stat>, ways: seq<Stat>, plans: seq<Stat>)

  /** A request in flight: the interval its effect closure captured, and the
      copies of its dates taken when the request started. */
  datatype Request = Request(captured: DateInterval, requestStart: string, requestEnd: string, token: string)

  /** How `get_all_stats` ended: a response whose `data.data` may be
      missing, or a thrown error. */
  datatype Response = Answered(data: Js.Option<ChartData>) | Threw

  const NoDataError := "Данные в ответе отсутствуют или имеют неверный формат."
  const FailedError := "Не удалось загрузить данные."

  /** `!token` is false: a token is present and non-empty. */
  predicate HasToken(token: Js.Option<string>) {
    token.Some? && token.value != ""
  }

  /** The guard at the head of the effect, negated: a request is issued
      only for a set interval with both dates, a token, and auth settled. */
  predicate ShouldFetch(i: DateInterval, token: Js.Option<string>, authLoading: bool) {
    IsSet(i) && !authLoading && HasToken(token) && i.startDate != "" && i.endDate != ""
  }

  /** `isRequestValid`: the closure's interval against the copies taken
      from that same closure. */
  predicate IsRequestValid(r: Request) {
    r.captured.startDate == r.requestStart && r.captured.endDate == r.requestEnd
  }

  /** The request the effect issues for the interval it closed over. */
  function IssueRequest(i: DateInterval, token: string): (r: Request)
    ensures r.captured == i && r.token == token
    ensures r.requestStart == i.startDate && r.requestEnd == i.endDate
  {
    Request(i, i.startDate, i.endDate, token)
  }

  /** The staleness guard can never fail: it compares a value with a copy
      of itself, so every response, however late, is applied. */
  lemma RequestAlwaysValid(i: DateInterval, token: string)
    ensures IsRequestValid(IssueRequest(i, token))
  {
  }

  /** The effect's dependency list. */
  datatype Deps = Deps(startDate: string, endDate: string, isSetted: Js.Option<bool>,
                       token: Js.Option<string>, authLoading: bool)

  function DepsOf(i: DateInterval, token: Js.Option<string>, authLoading: bool): (d: Deps)
    ensures d.startDate == i.startDate && d.endDate == i.endDate && d.isSetted == i.isSetted
    ensures d.token == token && d.authLoading == authLoading
  {
    Deps(i.startDate, i.endDate, i.isSetted, token, authLoading)
  }

  /** A new type alone does not re-run the effect; a new date does. */
  lemma TypeChangeDoesNotRefetch(i: DateInterval, kind: string, token: Js.Option<string>, authLoading: bool)
    ensures DepsOf(i.(kind := kind), token, authLoading) == DepsOf(i, token, authLoading)
    ensures forall s :: s != i.startDate ==>
      DepsOf(i.(startDate := s), token, authLoading) != DepsOf(i, token, authLoading)
  {
  }

  /** `startDate`/`endDate` handed to the charts: `null` for an empty
      string, otherwise the parsed date (kept here as its string). */
  function ChartBound(date: string): (r: Js.Option<string>)
    ensures r.None? <==> date == ""
    ensures r.Some? ==> r.value == date
  {
    if date == "" then Js.None else Js.Some(date)
  }

  /** Whenever a request goes out, both chart bounds are present. */
  lemma FetchImpliesBounds(i: DateInterval, token: Js.Option<string>, authLoading: bool)
    requires ShouldFetch(i, token, authLoading)
    ensures ChartBound(i.startDate) == Js.Some(i.startDate)
    ensures ChartBound(i.endDate) == Js.Some(i.endDate)
  {
  }

  /** The interval the hook starts with is not set, so nothing is fetched
      until a selection is made. */
  lemma InitialIntervalDoesNotFetch(firstDay: Js.Option<int>, configFirstDay: int, today: int,
                                    fmt: int -> string, token: Js.Option<string>, authLoading: bool)
    ensures !ShouldFetch(UseDateSelectors.InitialInterval(firstDay, configFirstDay, today, fmt), token, authLoading)
  {
  }

  class Dashboard {
    var interval: DateInterval
    var token: Js.Option<string>
    var authLoading: bool
    var chartData: Js.Option<ChartData>
    var loading: bool
    var error: Js.Option<string>

    constructor (initial: DateInterval, token: Js.Option<string>, authLoading: bool)
      ensures interval == initial && this.token == token && this.authLoading == authLoading
      ensures chartData == Js.None && loading && error == Js.None
    {
      interval := initial;
      this.token := token;
      this.authLoading := authLoading;
      chartData := Js.None;
      loading := true;
      error := Js.None;
    }

    /** `setDateInterval`, answering whether the effect re-runs. */
    method SetInterval(i: DateInterval) returns (rerun: bool)
      modifies this`interval
      ensures interval == i
      ensures rerun <==> DepsOf(i, token, authLoading) != DepsOf(old(interval), token, authLoading)
    {
      rerun := DepsOf(i, token, authLoading) != DepsOf(interval, token, authLoading);
      interval := i;
    }

    /** A change of the auth context, answering whether the effect
        re-runs. */
    method SetAuth(t: Js.Option<string>, l: bool) returns (rerun: bool)
      modifies this`token, this`authLoading
      ensures token == t && authLoading == l
      ensures rerun <==> DepsOf(interval, t, l) != DepsOf(interval, old(token), old(authLoading))
    {
      rerun := DepsOf(interval, t, l) != DepsOf(interval, token, authLoading);
      token, authLoading := t, l;
    }

    /** One run of the effect: either it stops at the guard, clearing
        `loading`, or it starts a request, setting `loading` and clearing
        `error`. */
    method RunEffect() returns (req: Js.Option<Request>)
      modifies this`loading, this`error
      ensures !ShouldFetch(interval, token, authLoading) ==>
        req.None? && !loading && error == old(error)
      ensures ShouldFetch(interval, token, authLoading) ==>
        req == Js.Some(IssueRequest(interval, token.value)) && loading && error == Js.None
    {
      if !ShouldFetch(interval, token, authLoading) {
        loading := false;
        req := Js.None;
        return;
      }
      loading := true;
      error := Js.None;
      req := Js.Some(IssueRequest(interval, token.value));
    }

    /** The awaited request completes. Whatever `interval` is now, the
        guard looks only at the request's own copies. */
    method Complete(req: Request, response: Response)
      modifies this`chartData, this`error, this`loading
      ensures IsRequestValid(req) ==> !loading
      ensures IsRequestValid(req) ==> match response
        case Answered(Some(d)) => chartData == Js.Some(d) && error == old(error)
        case Answered(None) => chartData == old(chartData) && error == Js.Some(NoDataError)
        case Threw => chartData == old(chartData) && error == Js.Some(FailedError)
      ensures !IsRequestValid(req) ==>
        chartData == old(chartData) && error == old(error) && loading == old(loading)
    {
      if IsRequestValid(req) {
        match response
        case Answered(Some(d)) => chartData := Js.Some(d);
        case Answered(None) => error := Js.Some(NoDataError);
        case Threw => error := Js.Some(FailedError);
      }
      if IsRequestValid(req) {
        loading := false;
      }
    }
  }

  /** A client: a response for an interval that the user has since replaced
      still lands in the charts. */
  method LateResponseIsApplied(d: Dashboard, newer: DateInterval, data: ChartData)
    requires ShouldFetch(d.interval, d.token, d.authLoading)
    modifies d
    ensures d.chartData == Js.Some(data) && !d.loading
  {
    var req := d.RunEffect();
    var _ := d.SetInterval(newer);
    RequestAlwaysValid(req.value.captured, req.value.token);
    d.Complete(req.value, Answered(Js.Some(data)));
  }
}
