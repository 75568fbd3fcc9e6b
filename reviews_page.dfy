/** The reviews list: ten reviews per page, a pager, a shortened text
    column, and the fetch that fills the list. The response of
    `getReviews` is an input. */
module ReviewsPage {
  import Js
  import Paging

  /** The fields the screens read; an absent image name is `""`. */
  datatype Review = Review(id: string, problemId: string, text: string, creationDate: string, imageName: string)

  const RowsPerPage := 10
  const DefaultMaxLength := 100
  const LoadError := "Ошибка загрузки отзывов"

  /** `truncateText(text, maxLength)`. */
  function TruncateText(text: string, maxLength: int): (r: string)
    ensures |text| <= maxLength ==> r == text
    ensures |text| > maxLength >= 0 ==> r == text[..maxLength] + "..." && |r| == maxLength + 3
    ensures |text| > maxLength && maxLength < 0 ==> r == "..."
  {
    if |text| <= maxLength then text
    else text[..if maxLength < 0 then 0 else maxLength] + "..."
  }

  /** The text cell of a review row: `truncateText(review.text)` with the
      default limit, so at most 100 characters of the text and `...`. */
  function ReviewCell(text: string): (r: string)
    ensures |text| <= DefaultMaxLength ==> r == text
    ensures |text| > DefaultMaxLength ==> |r| == DefaultMaxLength + 3
                                          && r[..DefaultMaxLength] == text[..DefaultMaxLength]
                                          && r[DefaultMaxLength..] == "..."
  {
    TruncateText(text, DefaultMaxLength)
  }

  /** The pager is rendered only for more than one page. */
  predicate ShowPager(totalPages: nat) {
    totalPages > 1
  }

  predicate BackDisabled(page: int) {
    page == 1
  }

  predicate ForwardDisabled(page: int, totalPages: nat) {
    page == totalPages
  }

  class ReviewsList {
    const token: Js.Option<string>
    var reviews: seq<Review>
    var loading: bool
    var error: Js.Option<string>
    var page: int

    constructor (token: Js.Option<string>)
      ensures this.token == token && reviews == [] && loading && error == Js.None && page == 1
    {
      this.token := token;
      reviews := [];
      loading := true;
      error := Js.None;
      page := 1;
    }

    function TotalPages(): nat
      reads this
    {
      Paging.TotalPages(|reviews|, RowsPerPage)
    }

    /** `currentReviews`: at most ten. */
    function CurrentReviews(): (r: seq<Review>)
      reads this
      ensures |r| <= RowsPerPage
    {
      Paging.PageSlice(reviews, page, RowsPerPage)
    }

    /** The "no reviews" row: shown exactly when the page is empty, which
        for a page number of 1 or more is exactly when it lies past the
        last page. */
    predicate EmptyRow()
      reads this
    {
      CurrentReviews() == []
    }

    lemma EmptyRowIffPastEnd()
      requires page >= 1
      ensures EmptyRow() <==> page > TotalPages()
    {
      Paging.EmptyPageIffPastEnd(reviews, page, RowsPerPage);
    }

    /** The footer's "Всего отзывов" figure. */
    function FooterTotal(): (n: nat)
      reads this
      ensures n == |reviews|
    {
      |reviews|
    }

    /** The fetch effect with `getReviews`' outcome: `None` when it throws.
        Without a token nothing happens, so `loading` stays set. */
    method Load(response: Js.Option<seq<Review>>)
      modifies this`reviews, this`loading, this`error
      ensures token.None? || token.value == "" ==>
        reviews == old(reviews) && loading == old(loading) && error == old(error)
      ensures token.Some? && token.value != "" ==> !loading && match response
        case Some(data) => reviews == data && error == Js.None
        case None => reviews == old(reviews) && error == Js.Some(LoadError)
    {
      if token.None? || token.value == "" {
        return;
      }
      loading := true;
      if response.Some? {
        reviews := response.value;
        error := Js.None;
      } else {
        error := Js.Some(LoadError);
      }
      loading := false;
    }

    method SetPage(p: int)
      modifies this`page
      ensures page == p
    {
      page := p;
    }

    /** "Назад". */
    method Back()
      modifies this`page
      ensures page == old(page) - 1
    {
      page := page - 1;
    }

    /** "Вперёд". */
    method Forward()
      modifies this`page
      ensures page == old(page) + 1
    {
      page := page + 1;
    }
  }

  /** The pager keeps a page that starts in range inside the range: the
      enabled arrow never leads to page 0 or past the last page. */
  method PagerStaysInRange(list: ReviewsList, forward: bool)
    requires 1 <= list.page <= list.TotalPages()
    modifies list`page
    ensures 1 <= list.page <= list.TotalPages()
  {
    if forward && !ForwardDisabled(list.page, list.TotalPages()) {
      list.Forward();
    } else if !forward && !BackDisabled(list.page) {
      list.Back();
    }
  }
}
