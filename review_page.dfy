/** One review with its status picker. The responses of `getReviews` and
    `getReviewStatuses`, `Number` and `getReviewImageUrl` are inputs. */
module ReviewPage {
  import Js
  import opened ReviewsPage

  /** A status option; `caption` is its `label` field. */
  datatype ReviewStatus = ReviewStatus(value: string, caption: string, current: bool)

  datatype Alert = Alert(message: string, color: string)

  const NotFound := "Отзыв не найден"
  const LoadFailed := "Ошибка загрузки отзыва"
  const StatusUpdated := "Статус успешно обновлён"

  /** `Number(s)`, with `None` for `NaN`. */
  type ToNumber = string -> Js.Option<real>

  /** `Number(r.id) === Number(id)`: `NaN` equals nothing, itself
      included. */
  predicate SameNumber(num: ToNumber, a: string, b: string) {
    num(a).Some? && num(a) == num(b)
  }

  /** `reviews.find(r => Number(r.id) === Number(id))`. */
  function FindReview(reviews: seq<Review>, id: string, num: ToNumber): (r: Js.Option<Review>)
    ensures r.None? <==> forall i :: 0 <= i < |reviews| ==> !SameNumber(num, reviews[i].id, id)
    ensures r.Some? ==> exists k :: (0 <= k < |reviews| && reviews[k] == r.value
      && SameNumber(num, reviews[k].id, id)
      && forall j :: 0 <= j < k ==> !SameNumber(num, reviews[j].id, id))
  {
    var k := Js.FindIndex(reviews, (x: Review) => SameNumber(num, x.id, id));
    if k == -1 then Js.None else Js.Some(reviews[k])
  }

  /** An id that is not a number finds nothing. */
  lemma NaNFindsNothing(reviews: seq<Review>, id: string, num: ToNumber)
    requires num(id).None?
    ensures FindReview(reviews, id, num).None?
  {
  }

  /** `statusList.find(s => s.current) || statusList[0]`, taken only for a
      non-empty list; `None` leaves the selection as it was. */
  function DefaultStatus(statuses: seq<ReviewStatus>): (r: Js.Option<string>)
    ensures r.None? <==> statuses == []
    ensures r.Some? && (exists i :: 0 <= i < |statuses| && statuses[i].current) ==>
      exists k :: (0 <= k < |statuses| && statuses[k].current && r.value == statuses[k].value
        && forall j :: 0 <= j < k ==> !statuses[j].current)
    ensures r.Some? && (forall i :: 0 <= i < |statuses| ==> !statuses[i].current) ==>
      r.value == statuses[0].value
  {
    if statuses == [] then Js.None
    else
      var k := Js.FindIndex(statuses, (s: ReviewStatus) => s.current);
      Js.Some(if k == -1 then statuses[0].value else statuses[k].value)
  }

  /** `!s` for a possibly-null string. */
  predicate Present(s: Js.Option<string>) {
    s.Some? && s.value != ""
  }

  /** The save button: disabled with no statuses or nothing selected. */
  function SaveDisabled(statuses: seq<ReviewStatus>, selected: Js.Option<string>): (r: bool)
    ensures r <==> statuses == [] || !Present(selected)
  {
    |statuses| == 0 || !Present(selected)
  }

  /** `review.imageName ? getReviewImageUrl(review.imageName) : null`. */
  function ImageUrl(review: Review, urlOf: string -> string): (r: Js.Option<string>)
    ensures r.None? <==> review.imageName == ""
    ensures r.Some? ==> r.value == urlOf(review.imageName)
  {
    if review.imageName != "" then Js.Some(urlOf(review.imageName)) else Js.None
  }

  class ReviewScreen {
    const id: Js.Option<string>
    const token: Js.Option<string>
    var review: Js.Option<Review>
    var statuses: seq<ReviewStatus>
    var selectedStatus: Js.Option<string>
    var loading: bool
    var statusLoading: bool
    var error: Js.Option<string>
    var alert: Js.Option<Alert>

    constructor (id: Js.Option<string>, token: Js.Option<string>)
      ensures this.id == id && this.token == token
      ensures review == Js.None && statuses == [] && selectedStatus == Js.None
      ensures loading && !statusLoading && error == Js.None && alert == Js.None
    {
      this.id := id;
      this.token := token;
      review := Js.None;
      statuses := [];
      selectedStatus := Js.None;
      loading := true;
      statusLoading := false;
      error := Js.None;
      alert := Js.None;
    }

    /** `fetchData` with both responses as inputs (`None` when the call
        throws). Without token or id it returns at once and the page keeps
        loading. A failure to load the statuses is swallowed. */
    method FetchData(reviews: Js.Option<seq<Review>>, statusList: Js.Option<seq<ReviewStatus>>, num: ToNumber)
      modifies this`review, this`statuses, this`selectedStatus, this`loading, this`error
      ensures !Present(token) || !Present(id) ==>
        && review == old(review) && statuses == old(statuses) && selectedStatus == old(selectedStatus)
        && loading == old(loading) && error == old(error)
      ensures Present(token) && Present(id) ==> !loading
      ensures Present(token) && Present(id) && reviews.None? ==>
        && error == Js.Some(LoadFailed)
        && review == old(review) && statuses == old(statuses) && selectedStatus == old(selectedStatus)
      ensures Present(token) && Present(id) && reviews.Some? && FindReview(reviews.value, id.value, num).None? ==>
        && error == Js.Some(NotFound)
        && review == old(review) && statuses == old(statuses) && selectedStatus == old(selectedStatus)
      ensures Present(token) && Present(id) && reviews.Some? && FindReview(reviews.value, id.value, num).Some? ==>
        && review == FindReview(reviews.value, id.value, num) && error == Js.None
        && statuses == (if statusList.Some? then statusList.value else old(statuses))
        && selectedStatus ==
             (if statusList.Some? && statusList.value != [] then DefaultStatus(statusList.value) else old(selectedStatus))
    {
      if !Present(token) || !Present(id) {
        return;
      }
      loading := true;
      if reviews.None? {
        error := Js.Some(LoadFailed);
        loading := false;
        return;
      }
      var found := FindReview(reviews.value, id.value, num);
      if found.None? {
        error := Js.Some(NotFound);
        loading := false;
        return;
      }
      review := found;
      if statusList.Some? {
        statuses := statusList.value;
        if |statusList.value| > 0 {
          selectedStatus := DefaultStatus(statusList.value);
        }
      }
      error := Js.None;
      loading := false;
    }

    method SelectStatus(value: Js.Option<string>)
      modifies this`selectedStatus
      ensures selectedStatus == value
    {
      selectedStatus := value;
    }

    /** `handleStatusChange`: without token, id or a selection nothing
        happens; otherwise success is reported and nothing is updated. */
    method StatusChange()
      modifies this`statusLoading, this`alert
      ensures !Present(token) || !Present(id) || !Present(selectedStatus) ==>
        statusLoading == old(statusLoading) && alert == old(alert)
      ensures Present(token) && Present(id) && Present(selectedStatus) ==>
        !statusLoading && alert == Js.Some(Alert(StatusUpdated, "success"))
    {
      if !Present(token) || !Present(id) || !Present(selectedStatus) {
        return;
      }
      statusLoading := true;
      alert := Js.Some(Alert(StatusUpdated, "success"));
      statusLoading := false;
    }
  }

  /** A failing status call does not hide the review: it is shown, with no
      error, and the selection is untouched. */
  method StatusFailureStillShowsReview(screen: ReviewScreen, reviews: seq<Review>, num: ToNumber)
    requires Present(screen.token) && Present(screen.id)
    requires FindReview(reviews, screen.id.value, num).Some?
    modifies screen
    ensures screen.review.Some? && screen.error == Js.None && !screen.loading
    ensures screen.selectedStatus == old(screen.selectedStatus)
  {
    screen.FetchData(Js.Some(reviews), Js.None, num);
  }
}
