/**
 The client-side API layer: the records exchanged with the REST backend, the
 requests each API call issues (with their default paging arguments), the
 normalisation of the reviews response, the internal/external album route, the
 register body and the request interceptor that attaches the bearer token.
 Transport is abstract: a call's outcome is an `ApiResult`.
 */
module Api {
  import opened Options
  import opened JsText

  /** An album id is a backend integer or a provider string. */
  datatype AlbumId = NumericId(n: int) | TextId(s: string)

  /** The fields of an album that the pages read; `_uniqueId` is `uniqueId`. */
  datatype Album = Album(
    id: AlbumId,
    externalId: Option<string>,
    uniqueId: Option<string>,
    name: Option<string>)

  datatype User = User(id: int, email: string, username: string)

  /** The fields of a review that the pages read; `comment` is the text. */
  datatype Review = Review(id: int, comment: string, rating: int, albumId: int, user: User)

  datatype ReviewsResponse = ReviewsResponse(reviews: seq<Review>, hasMore: bool, total: int)

  /** The two shapes the reviews endpoint answers with. */
  datatype ReviewsBody = BareArray(items: seq<Review>) | Envelope(response: ReviewsResponse)

  /** The outcome of one call: the decoded body, or a failure carrying the HTTP
      status when the server answered at all. */
  datatype ApiResult<+T> = Ok(value: T) | Err(status: Option<int>)

  type Headers = map<string, string>

  /** The part of an outgoing request configuration the interceptor touches. */
  datatype RequestConfig = RequestConfig(headers: Option<Headers>)

  /** The requests the modelled calls issue, one constructor per endpoint. */
  datatype Request =
    | ListAlbums(page: int, limit: int)                       // GET /albums
    | SearchAlbums(query: string, page: int, limit: int)      // GET /albums/search
    | FetchAlbum(path: string)                                // GET /albums/{id} or /albums/external/{id}
    | ListReviews(albumId: int, page: int, limit: int)        // GET /reviews/album/{albumId}
    | PostReview(albumId: int, comment: string, rating: int, parentReviewId: Option<int>)  // POST /reviews
    | PostAuth(path: string, body: map<string, string>)       // POST /auth/...

  const AlbumsFirstPage := 1
  const AlbumsPageLimit := 10
  const ReviewsFirstPage := 1
  const ReviewsPageLimit := 5

  const InternalAlbumPrefix := "/albums/"
  const ExternalAlbumPrefix := "/albums/external/"
  const AuthorizationHeader := "Authorization"
  const BearerPrefix := "Bearer "

  // ---------------------------------------------------------------------------
  // Request shaping

  /** `albumsApi.getAllAlbums(page = 1, limit = 10)`. */
  function GetAllAlbums(page: Option<int>, limit: Option<int>): (r: Request)
    ensures r.ListAlbums?
    ensures page.Some? ==> r.page == page.value
    ensures limit.Some? ==> r.limit == limit.value
  {
    ListAlbums(page.GetOr(AlbumsFirstPage), limit.GetOr(AlbumsPageLimit))
  }

  /** `albumsApi.searchAlbums(query, page = 1, limit = 10)`. */
  function SearchAlbumsRequest(query: string, page: Option<int>, limit: Option<int>): (r: Request)
    ensures r.SearchAlbums? && r.query == query
    ensures page.Some? ==> r.page == page.value
    ensures limit.Some? ==> r.limit == limit.value
  {
    SearchAlbums(query, page.GetOr(AlbumsFirstPage), limit.GetOr(AlbumsPageLimit))
  }

  /** `reviewsApi.getReviewsByAlbum(albumId, page = 1, limit = 5)`. */
  function GetReviewsByAlbum(albumId: int, page: Option<int>, limit: Option<int>): (r: Request)
    ensures r.ListReviews? && r.albumId == albumId
    ensures page.Some? ==> r.page == page.value
    ensures limit.Some? ==> r.limit == limit.value
  {
    ListReviews(albumId, page.GetOr(ReviewsFirstPage), limit.GetOr(ReviewsPageLimit))
  }

  /** The paging defaults: page 1 with 10 albums, page 1 with 5 reviews. */
  lemma PagingDefaults(query: string, albumId: int)
    ensures GetAllAlbums(None, None) == ListAlbums(1, 10)
    ensures SearchAlbumsRequest(query, None, None) == SearchAlbums(query, 1, 10)
    ensures GetReviewsByAlbum(albumId, None, None) == ListReviews(albumId, 1, 5)
  {
  }

  /** `reviewsApi.createReview`: the text travels in the `comment` field. */
  function CreateReview(albumId: int, content: string, rating: int, parentReviewId: Option<int>): (r: Request)
    ensures r.PostReview?
    ensures r.albumId == albumId && r.comment == content && r.rating == rating
    ensures r.parentReviewId == parentReviewId
  {
    PostReview(albumId, content, rating, parentReviewId)
  }

  // ---------------------------------------------------------------------------
  // Album route

  /** `Number(id)` is not NaN: the id names a backend album. */
  predicate IsInternalAlbumId(id: string) {
    !NumberIsNaN(id)
  }

  /** The path `albumsApi.getAlbumById(id)` requests for a string id. */
  function AlbumPath(id: string): (path: string)
    ensures path == InternalAlbumPrefix + id || path == ExternalAlbumPrefix + id
    ensures path == InternalAlbumPrefix + id <==> IsInternalAlbumId(id)
  {
    if IsInternalAlbumId(id) then
      InternalAlbumPrefix + id
    else
      assert InternalAlbumPrefix + id != ExternalAlbumPrefix + id by {
        assert (InternalAlbumPrefix + id)[8] == id[0] || |id| == 0;
      }
      ExternalAlbumPrefix + id
  }

  function GetAlbumById(id: string): (r: Request)
    ensures r.FetchAlbum? && r.path == AlbumPath(id)
  {
    FetchAlbum(AlbumPath(id))
  }

  /** An id of the form `external/…` never reads as a number. */
  lemma ExternalSegmentIsNaN(rest: string)
    ensures NumberIsNaN("external/" + rest)
  {
    NumberRejectsLeadingLetter("external/" + rest);
  }

  /** An internal path is never an external one: the id would have to start
      with `external/`, which does not read as a number. */
  lemma InternalPathIsNotExternal(id1: string, id2: string)
    requires InternalAlbumPrefix + id1 == ExternalAlbumPrefix + id2
    ensures !IsInternalAlbumId(id1)
  {
    assert ExternalAlbumPrefix + id2 == InternalAlbumPrefix + ("external/" + id2);
    SplitAfterPrefix(InternalAlbumPrefix, id1, InternalAlbumPrefix + ("external/" + id2));
    SplitAfterPrefix(InternalAlbumPrefix, "external/" + id2, InternalAlbumPrefix + ("external/" + id2));
    ExternalSegmentIsNaN(id2);
  }

  /** Distinct ids never share a path: in particular the internal path of one
      id is never the external path of another. */
  lemma AlbumPathInjective(id1: string, id2: string)
    ensures AlbumPath(id1) == AlbumPath(id2) ==> id1 == id2
  {
    var p1, p2 := AlbumPath(id1), AlbumPath(id2);
    if p1 == p2 {
      if p1 == InternalAlbumPrefix + id1 && p2 == ExternalAlbumPrefix + id2 {
        InternalPathIsNotExternal(id1, id2);
      } else if p1 == ExternalAlbumPrefix + id1 && p2 == InternalAlbumPrefix + id2 {
        InternalPathIsNotExternal(id2, id1);
      } else if p1 == InternalAlbumPrefix + id1 {
        SplitAfterPrefix(InternalAlbumPrefix, id1, p1);
        SplitAfterPrefix(InternalAlbumPrefix, id2, p1);
      } else {
        SplitAfterPrefix(ExternalAlbumPrefix, id1, p1);
        SplitAfterPrefix(ExternalAlbumPrefix, id2, p1);
      }
    }
  }

  lemma SplitAfterPrefix(prefix: string, a: string, whole: string)
    requires prefix + a == whole
    ensures a == whole[|prefix|..]
  {
  }

  // ---------------------------------------------------------------------------
  // Response normalisation

  /** `getReviewsByAlbum`'s post-processing: a bare array becomes a one-page
      envelope; an envelope is passed through untouched. */
  function NormalizeReviews(body: ReviewsBody): (r: ReviewsResponse)
    ensures body.BareArray? ==> r.reviews == body.items && !r.hasMore && r.total == |body.items|
    ensures body.Envelope? ==> r == body.response
  {
    match body
    case BareArray(items) => ReviewsResponse(items, false, |items|)
    case Envelope(response) => response
  }

  /** The page cannot tell the two shapes apart: a bare array and the one-page
      envelope holding the same reviews normalise to the same response, and
      two bodies that normalise alike list the same reviews in the same order. */
  lemma ShapesAgree(items: seq<Review>, b1: ReviewsBody, b2: ReviewsBody)
    ensures NormalizeReviews(BareArray(items)) == NormalizeReviews(Envelope(ReviewsResponse(items, false, |items|)))
    ensures b1.BareArray? && b2.Envelope? && NormalizeReviews(b1) == NormalizeReviews(b2) ==>
              b2.response.reviews == b1.items && !b2.response.hasMore && b2.response.total == |b1.items|
  {
  }

  // ---------------------------------------------------------------------------
  // Authentication bodies

  /** `authApi.login(username, password)`. */
  function AuthLogin(username: string, password: string): (r: Request)
    ensures r.PostAuth? && r.path == "/auth/login"
    ensures r.body.Keys == {"username", "password"}
    ensures r.body["username"] == username && r.body["password"] == password
  {
    PostAuth("/auth/login", map["username" := username, "password" := password])
  }

  /** `authApi.register(email, password, username)`. */
  function AuthRegister(email: string, password: string, username: string): (r: Request)
    ensures r.PostAuth? && r.path == "/auth/register"
    ensures r.body.Keys == {"email", "password", "username"}
    ensures r.body["email"] == email && r.body["password"] == password && r.body["username"] == username
  {
    PostAuth("/auth/register", map["email" := email, "password" := password, "username" := username])
  }

  /** `usersApi.register(username, email, password)` forwards to
      `authApi.register(email, password, username)`: in spite of the reordered
      parameters each value lands in the body field of its own name. */
  function UsersRegister(username: string, email: string, password: string): (r: Request)
    ensures r.PostAuth? && r.path == "/auth/register"
    ensures r.body.Keys == {"email", "password", "username"}
    ensures r.body["username"] == username
    ensures r.body["email"] == email
    ensures r.body["password"] == password
  {
    AuthRegister(email, password, username)
  }

  /** The credentials a registration sends are the ones a later login sends. */
  lemma RegisterThenLoginAgree(username: string, email: string, password: string)
    ensures UsersRegister(username, email, password).body["username"] == AuthLogin(username, password).body["username"]
    ensures UsersRegister(username, email, password).body["password"] == AuthLogin(username, password).body["password"]
  {
  }

  // ---------------------------------------------------------------------------
  // Request interceptor

  /** The request interceptor: with a truthy stored token and a headers object,
      `Authorization` becomes `Bearer <token>`; otherwise the configuration is
      returned as it came. */
  function InterceptRequest(config: RequestConfig, token: Option<string>): (r: RequestConfig)
    ensures !(Truthy(token) && config.headers.Some?) ==> r == config
    ensures Truthy(token) && config.headers.Some? ==>
      && r.headers.Some?
      && AuthorizationHeader in r.headers.value
      && r.headers.value[AuthorizationHeader] == BearerPrefix + token.value
      && (forall k :: k != AuthorizationHeader ==> (k in r.headers.value <==> k in config.headers.value))
      && (forall k :: k != AuthorizationHeader && k in config.headers.value ==>
            r.headers.value[k] == config.headers.value[k])
  {
    if Truthy(token) && config.headers.Some? then
      RequestConfig(Some(config.headers.value[AuthorizationHeader := BearerPrefix + token.value]))
    else
      config
  }

  /** Reads the token back out of an `Authorization` value. */
  function BearerToken(header: string): (r: Option<string>)
    ensures r.Some? <==> |header| >= |BearerPrefix| && header[..|BearerPrefix|] == BearerPrefix
    ensures r.Some? ==> BearerPrefix + r.value == header
  {
    if |header| >= |BearerPrefix| && header[..|BearerPrefix|] == BearerPrefix then
      assert BearerPrefix + header[|BearerPrefix|..] == header;
      Some(header[|BearerPrefix|..])
    else
      None
  }

  /** The header the interceptor writes carries exactly the stored token, and
      running the interceptor again changes nothing. */
  lemma InterceptorRoundTrip(config: RequestConfig, token: Option<string>)
    requires Truthy(token) && config.headers.Some?
    ensures BearerToken(InterceptRequest(config, token).headers.value[AuthorizationHeader]) == token
    ensures InterceptRequest(InterceptRequest(config, token), token) == InterceptRequest(config, token)
  {
    var h := BearerPrefix + token.value;
    assert h[..|BearerPrefix|] == BearerPrefix;
    assert h[|BearerPrefix|..] == token.value;
    var m := config.headers.value;
    assert m[AuthorizationHeader := h][AuthorizationHeader := h] == m[AuthorizationHeader := h];
  }
}
