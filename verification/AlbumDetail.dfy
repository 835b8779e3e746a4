/**
 The album page: loading the album and its reviews for the route's id,
 submitting a review, the 0..5 star picker, the stars drawn for each review and
 the average rating over the loaded reviews.
 */
module AlbumDetail {
  import opened Options
  import opened JsText
  import opened Api

  const StarCount := 5

  const FetchFailedMessage := "Failed to fetch album details. Please try again later."
  const SubmitRejectedMessage := "Impossible d'ajouter une critique pour cet album."

  /** The page's state hooks; `routeId` is the `:id` route parameter. */
  datatype DetailState = DetailState(
    routeId: Option<string>,
    album: Option<Album>,
    reviews: seq<Review>,
    loading: bool,
    error: Option<string>,
    reviewContent: string,
    rating: int,
    submitting: bool)

  /** The state on first render for a route id. */
  function Initial(routeId: Option<string>): (s: DetailState)
    ensures s.reviews == [] && s.loading && s.rating == 0 && s.reviewContent == ""
    ensures s.routeId == routeId && s.album == None && s.error == None && !s.submitting
  {
    DetailState(routeId, None, [], true, None, "", 0, false)
  }

  // ---------------------------------------------------------------------------
  // Which album the reviews belong to

  /** The id test as written: `parseInt(id, 10)` is not NaN. */
  function ReviewAlbumIdAsWritten(id: string): Option<int> {
    ParseInt10(id)
  }

  /** The id test the page needs: only an optionally signed decimal numeral
      names a backend album whose reviews can be listed and extended. Such an
      id reads the same to `parseInt` and to `Number`, so the album is fetched
      by its internal path and the reviews belong to it. */
  function ReviewAlbumId(id: string): (r: Option<int>)
    ensures r.Some? <==> IsSignedNumeral(id)
    ensures r.Some? ==> r == ParseInt10(id) && AlbumPath(id) == InternalAlbumPrefix + id
    ensures IsNumeral(id) ==> r == Some(DecimalValue(id))
  {
    if IsSignedNumeral(id) then
      NumberAcceptsNumerals(id);
      ParseIntOfSignedNumeral(id);
      ParseInt10(id)
    else None
  }

  /** Which id test the handlers apply: `parseInt` as the page is written, or
      the corrected test. */
  datatype IdTest = AsWritten | Corrected

  function ReviewIdFor(test: IdTest, id: string): Option<int> {
    match test
    case AsWritten => ReviewAlbumIdAsWritten(id)
    case Corrected => ReviewAlbumId(id)
  }

  /** With the corrected test, reviews are only ever listed or posted for the
      album the page fetched, by its internal path; the correction rejects
      every id the written test rejects and every id `Number` finds NaN, and
      agrees with the written test wherever it accepts. */
  lemma ReviewsFollowFetchedAlbum(id: string)
    ensures ReviewAlbumId(id).Some? ==> AlbumPath(id) == InternalAlbumPrefix + id
    ensures ReviewAlbumId(id).Some? ==> ReviewAlbumId(id) == ReviewAlbumIdAsWritten(id)
    ensures ReviewAlbumIdAsWritten(id).None? ==> ReviewAlbumId(id).None?
    ensures NumberIsNaN(id) ==> ReviewAlbumId(id).None?
  {
    if ReviewAlbumId(id).Some? {
      NumberAcceptsNumerals(id);
    }
  }

  // ---------------------------------------------------------------------------
  // Loading the album and its reviews

  /** The new state and the requests issued, in order. */
  datatype LoadStep = LoadStep(state: DetailState, requests: seq<Request>)

  /** The effect run for the route id: fetch the album, then, for an id the
      id test accepts, its first page of reviews; an id it rejects shows no
      reviews. Any failure shows the fetch error. With `AsWritten` this is the
      page as written; `Corrected` applies the corrected id test. */
  function LoadAlbumAndReviews(test: IdTest, s: DetailState, albumReply: ApiResult<Album>, reviewsReply: ApiResult<ReviewsBody>): (r: LoadStep)
    ensures !Truthy(s.routeId) ==> r == LoadStep(s, [])
    ensures Truthy(s.routeId) ==>
      && |r.requests| >= 1 && r.requests[0] == GetAlbumById(s.routeId.value)
      && !r.state.loading
      && r.state.reviewContent == s.reviewContent && r.state.rating == s.rating
      && r.state.submitting == s.submitting && r.state.routeId == s.routeId
    ensures Truthy(s.routeId) && albumReply.Err? ==>
      && r.requests == [GetAlbumById(s.routeId.value)]
      && r.state.error == Some(FetchFailedMessage)
      && r.state.album == s.album && r.state.reviews == s.reviews
    ensures Truthy(s.routeId) && albumReply.Ok? ==> r.state.album == Some(albumReply.value)
    ensures Truthy(s.routeId) && albumReply.Ok? && ReviewIdFor(test, s.routeId.value).None? ==>
      && r.requests == [GetAlbumById(s.routeId.value)]
      && r.state.reviews == [] && r.state.error == s.error
    ensures Truthy(s.routeId) && albumReply.Ok? && ReviewIdFor(test, s.routeId.value).Some? ==>
      && r.requests == [GetAlbumById(s.routeId.value),
                        ListReviews(ReviewIdFor(test, s.routeId.value).value, ReviewsFirstPage, ReviewsPageLimit)]
      && (reviewsReply.Ok? ==> r.state.reviews == NormalizeReviews(reviewsReply.value).reviews && r.state.error == s.error)
      && (reviewsReply.Err? ==> r.state.reviews == s.reviews && r.state.error == Some(FetchFailedMessage))
  {
    if !Truthy(s.routeId) then LoadStep(s, [])
    else
      var id := s.routeId.value;
      var albumRequest := GetAlbumById(id);
      match albumReply
      case Err(_) =>
        LoadStep(s.(error := Some(FetchFailedMessage), loading := false), [albumRequest])
      case Ok(album) =>
        var withAlbum := s.(album := Some(album), loading := true);
        match ReviewIdFor(test, id)
        case None => LoadStep(withAlbum.(reviews := [], loading := false), [albumRequest])
        case Some(albumId) =>
          var reviewsRequest := GetReviewsByAlbum(albumId, None, None);
          match reviewsReply
          case Ok(body) =>
            LoadStep(withAlbum.(reviews := NormalizeReviews(body).reviews, loading := false),
                     [albumRequest, reviewsRequest])
          case Err(_) =>
            LoadStep(withAlbum.(error := Some(FetchFailedMessage), loading := false),
                     [albumRequest, reviewsRequest])
  }

  // ---------------------------------------------------------------------------
  // Submitting a review

  /** `handleSubmitReview`'s first guard: an id, a non-blank text, a star. */
  predicate CanSubmit(s: DetailState) {
    Truthy(s.routeId) && Trim(s.reviewContent) != [] && s.rating != 0
  }

  datatype SubmitStep = SubmitStep(state: DetailState, request: Option<Request>)

  function BeginSubmit(test: IdTest, s: DetailState): SubmitStep {
    if !CanSubmit(s) then SubmitStep(s, None)
    else match ReviewIdFor(test, s.routeId.value)
      case None => SubmitStep(s.(error := Some(SubmitRejectedMessage)), None)
      case Some(albumId) =>
        SubmitStep(s.(submitting := true), Some(CreateReview(albumId, s.reviewContent, s.rating, None)))
  }

  function FinishSubmit(s: DetailState, reply: ApiResult<Review>): DetailState {
    match reply
    case Ok(newReview) =>
      s.(reviews := [newReview] + s.reviews, reviewContent := "", rating := 0, submitting := false)
    case Err(_) =>
      s.(submitting := false)
  }

  /** `handleSubmitReview` with `reply` as the answer to its request. Without an
      id, with a blank text or with no star it does nothing; with an id the
      id test rejects it shows an error and sends nothing. Otherwise it
      posts the text and rating for that album: the created review goes first
      in the list and the form is cleared; a failure keeps list and form. */
  function SubmitReview(test: IdTest, s: DetailState, reply: ApiResult<Review>): (r: SubmitStep)
    ensures !(Truthy(s.routeId) && !IsBlank(s.reviewContent) && s.rating != 0) ==> r == SubmitStep(s, None)
    ensures CanSubmit(s) && ReviewIdFor(test, s.routeId.value).None? ==>
      r.request.None? && r.state == s.(error := Some(SubmitRejectedMessage))
    ensures r.request.Some? <==> CanSubmit(s) && ReviewIdFor(test, s.routeId.value).Some?
    ensures r.request.Some? ==>
      && r.request.value == PostReview(ReviewIdFor(test, s.routeId.value).value, s.reviewContent, s.rating, None)
      && !r.state.submitting && r.state.error == s.error && r.state.album == s.album
      && r.state.routeId == s.routeId && r.state.loading == s.loading
    ensures r.request.Some? && reply.Ok? ==>
      && r.state.reviews == [reply.value] + s.reviews
      && r.state.reviewContent == "" && r.state.rating == 0
    ensures r.request.Some? && reply.Err? ==>
      && r.state.reviews == s.reviews
      && r.state.reviewContent == s.reviewContent && r.state.rating == s.rating
  {
    var begun := BeginSubmit(test, s);
    if begun.request.None? then begun
    else SubmitStep(FinishSubmit(begun.state, reply), begun.request)
  }

  /** As written, a provider id that starts with digits, such as
      `4aawyAB9vmqN3uQ7FjRGTy`, fetches the provider album by its external path
      while the page lists, and posts to, the reviews of backend album 4. */
  lemma AsWrittenMixesAlbums(s: DetailState, album: Album, body: ReviewsBody, reply: ApiResult<Review>)
    requires s.routeId == Some("4aawyAB9vmqN3uQ7FjRGTy")
    ensures var id := "4aawyAB9vmqN3uQ7FjRGTy";
            && AlbumPath(id) == ExternalAlbumPrefix + id
            && LoadAlbumAndReviews(AsWritten, s, Ok(album), Ok(body)).requests
               == [FetchAlbum(ExternalAlbumPrefix + id), ListReviews(4, ReviewsFirstPage, ReviewsPageLimit)]
            && (CanSubmit(s) ==>
                  SubmitReview(AsWritten, s, reply).request == Some(PostReview(4, s.reviewContent, s.rating, None)))
  {
    ProviderIdReadsFour();
  }

  /** `parseInt` reads 4 from the provider id, and `Number` reads NaN. */
  lemma ProviderIdReadsFour()
    ensures ReviewIdFor(AsWritten, "4aawyAB9vmqN3uQ7FjRGTy") == Some(4)
    ensures NumberIsNaN("4aawyAB9vmqN3uQ7FjRGTy")
  {
    assert "4aawyAB9vmqN3uQ7FjRGTy" == "4" + "aawyAB9vmqN3uQ7FjRGTy";
    assert DecimalValue("4") == 4 by {
      assert "4"[..0] == "";
    }
    ParseIntAndNumberDisagree("4", "aawyAB9vmqN3uQ7FjRGTy");
  }

  /** With the corrected test every review request the page issues, listing or
      posting, names the album it fetched: the album came from the internal
      path of the route id, and the request carries the value both `parseInt`
      and `Number` read from that id. */
  lemma ReviewRequestsTargetFetchedAlbum(s: DetailState, albumReply: ApiResult<Album>,
                                         reviewsReply: ApiResult<ReviewsBody>, reply: ApiResult<Review>)
    requires Truthy(s.routeId)
    ensures var load := LoadAlbumAndReviews(Corrected, s, albumReply, reviewsReply);
            |load.requests| == 2 ==>
              && IsSignedNumeral(s.routeId.value) && !NumberIsNaN(s.routeId.value)
              && load.requests[0] == FetchAlbum(InternalAlbumPrefix + s.routeId.value)
              && load.requests[1] == ListReviews(ParseInt10(s.routeId.value).value, ReviewsFirstPage, ReviewsPageLimit)
    ensures var submit := SubmitReview(Corrected, s, reply);
            submit.request.Some? ==>
              && IsSignedNumeral(s.routeId.value) && !NumberIsNaN(s.routeId.value)
              && GetAlbumById(s.routeId.value) == FetchAlbum(InternalAlbumPrefix + s.routeId.value)
              && submit.request.value.albumId == ParseInt10(s.routeId.value).value
  {
    if IsSignedNumeral(s.routeId.value) {
      NumberAcceptsNumerals(s.routeId.value);
    }
  }

  // ---------------------------------------------------------------------------
  // Stars

  /** Clicking picker star `star` (the picker offers 1 to 5). */
  function SelectStar(s: DetailState, star: int): (r: DetailState)
    requires 1 <= star <= StarCount
    ensures r.rating == star && r.reviews == s.reviews && r.reviewContent == s.reviewContent
    ensures r.routeId == s.routeId && r.album == s.album && r.loading == s.loading
    ensures r.error == s.error && r.submitting == s.submitting
  {
    s.(rating := star)
  }

  /** The picker's stars 1..5, lit when at most the selected rating. */
  function PickerStars(rating: int): seq<bool> {
    seq(StarCount, i requires 0 <= i < StarCount => i + 1 <= rating)
  }

  /** The five stars drawn for a review, the `i`-th (from 0) filled when
      below the review's rating. */
  function ReviewStars(rating: int): seq<bool> {
    seq(StarCount, i requires 0 <= i < StarCount => i < rating)
  }

  function CountLit(stars: seq<bool>): nat {
    if stars == [] then 0 else (if stars[0] then 1 else 0) + CountLit(stars[1..])
  }

  function Clamp(x: int, hi: nat): int {
    if x < 0 then 0 else if x > hi then hi else x
  }

  /** `n` stars, the `i`-th (from 0) lit when below `rating`. */
  function StarsBelow(n: nat, rating: int): seq<bool> {
    seq(n, i requires 0 <= i < n => i < rating)
  }

  lemma {:induction false} StarsBelowCount(n: nat, rating: int)
    ensures CountLit(StarsBelow(n, rating)) == Clamp(rating, n)
  {
    if n > 0 {
      assert StarsBelow(n, rating)[1..] == StarsBelow(n - 1, rating - 1);
      StarsBelowCount(n - 1, rating - 1);
    }
  }

  /** The picker lights exactly `rating` stars, and a review shows the same
      stars the picker showed when it was written. */
  lemma PickerShowsRating(rating: int)
    requires 0 <= rating <= StarCount
    ensures CountLit(PickerStars(rating)) == rating
    ensures PickerStars(rating) == ReviewStars(rating)
  {
    assert PickerStars(rating) == StarsBelow(StarCount, rating);
    StarsBelowCount(StarCount, rating);
  }

  /** A review fills its rating's worth of stars, clamped to 0..5. */
  lemma ReviewStarsCount(rating: int)
    ensures CountLit(ReviewStars(rating)) == Clamp(rating, StarCount)
  {
    assert ReviewStars(rating) == StarsBelow(StarCount, rating);
    StarsBelowCount(StarCount, rating);
  }

  // ---------------------------------------------------------------------------
  // Average rating

  /** "No ratings yet", or the sum and count behind `(sum / count).toFixed(1)`. */
  datatype AverageRating = NoRatingsYet | Mean(total: int, count: nat)

  function SumRatings(reviews: seq<Review>): int {
    if reviews == [] then 0 else reviews[0].rating + SumRatings(reviews[1..])
  }

  /** The average over the reviews currently loaded. */
  function Average(reviews: seq<Review>): (r: AverageRating)
    ensures r.NoRatingsYet? <==> reviews == []
    ensures r.Mean? ==> r.count == |reviews| && r.count > 0 && r.total == SumRatings(reviews)
  {
    if |reviews| == 0 then NoRatingsYet else Mean(SumRatings(reviews), |reviews|)
  }

  lemma {:induction false} SumRatingsAppend(a: seq<Review>, b: seq<Review>)
    ensures SumRatings(a + b) == SumRatings(a) + SumRatings(b)
  {
    if a != [] {
      assert (a + b)[1..] == a[1..] + b;
      SumRatingsAppend(a[1..], b);
    } else {
      assert a + b == b;
    }
  }

  /** With every loaded rating within 1..5 the mean lies within 1..5. */
  lemma AverageWithinStars(reviews: seq<Review>)
    requires reviews != []
    requires forall i :: 0 <= i < |reviews| ==> 1 <= reviews[i].rating <= StarCount
    ensures Average(reviews).count <= Average(reviews).total <= StarCount * Average(reviews).count
  {
    SumWithinStars(reviews);
  }

  lemma {:induction false} SumWithinStars(reviews: seq<Review>)
    requires forall i :: 0 <= i < |reviews| ==> 1 <= reviews[i].rating <= StarCount
    ensures |reviews| <= SumRatings(reviews) <= StarCount * |reviews|
  {
    if reviews != [] {
      assert forall i :: 0 <= i < |reviews[1..]| ==> reviews[1..][i] == reviews[i + 1];
      SumWithinStars(reviews[1..]);
    }
  }

  /** A successful submit adds the new rating to the sum and one to the
      count; the average never reflects reviews that are not loaded. */
  lemma SubmitUpdatesAverage(s: DetailState, reply: ApiResult<Review>)
    requires reply.Ok?
    ensures Average(FinishSubmit(s, reply).reviews)
            == Mean(SumRatings(s.reviews) + reply.value.rating, |s.reviews| + 1)
  {
    SumRatingsAppend([reply.value], s.reviews);
  }

  // ---------------------------------------------------------------------------
  // Invariant

  /** The selected rating stays within 0..5. */
  predicate Valid(s: DetailState) {
    0 <= s.rating <= StarCount
  }

  /** Every transition keeps the selected rating within 0..5, including the
      two halves of a submit taken apart (text and stars can change while the
      post is pending), under either id test. */
  lemma TransitionsKeepRating(test: IdTest, s: DetailState, star: int, reply: ApiResult<Review>,
                              albumReply: ApiResult<Album>, reviewsReply: ApiResult<ReviewsBody>)
    requires Valid(s)
    ensures forall id :: Valid(Initial(id))
    ensures 1 <= star <= StarCount ==> Valid(SelectStar(s, star))
    ensures Valid(BeginSubmit(test, s).state)
    ensures Valid(FinishSubmit(s, reply))
    ensures Valid(SubmitReview(test, s, reply).state)
    ensures Valid(LoadAlbumAndReviews(test, s, albumReply, reviewsReply).state)
  {
  }
}
