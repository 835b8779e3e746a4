# Album search pager, review list and API shaping — a Dafny model

This project models the sequential logic inside the album-rating web client:

- **Search result pager** (`SearchAlbumsPage.tsx`). `searchAlbums` loads page 1 of a query and replaces the list. `loadMoreAlbums` loads the next page of 10 and merges it into the list. The merge drops an album whose truthy `_uniqueId` or truthy `externalId` already appears in the previous list. The state is the record `{searchQuery, albums, isLoading, hasSearched, errorMessage, currentPage, hasMoreAlbums, isLoadingMore}`.
- **Album page** (`AlbumDetailPage.tsx`). It loads the album and its reviews for the route id, submits a review, holds the 0..5 star picker, draws the stars of each review, and shows the average rating of the loaded reviews.
- **API layer** (`api.ts`). It covers the request each call issues and its paging defaults, the normalisation of the reviews response, and the choice between the internal and external album path. It also covers the register body and the interceptor that adds the `Bearer` header.

Each handler is a pure function over an immutable state record. `searchAlbums`, `loadMoreAlbums` and `handleSubmitReview` each have one `await`, and each is split there:

- `Begin…` is the synchronous part. It returns the new state and the request it issues, or none.
- `Finish…` applies the reply.

`Search`, `LoadMore` and `SubmitReview` are these handlers run to completion. The album page's load effect has two `await`s, one for the album and one for its reviews. `LoadAlbumAndReviews` models it as a single atomic step that takes both replies and returns the requests issued. Each takes the reply to its request as a parameter. An API reply is `Ok(value)` or `Err(status)`, where the status is present when the server answered.

JavaScript's `trim`, `parseInt(s, 10)` and the NaN test on `Number(s)` are written out in `JsText`. Numbers are mathematical integers.

Files:

- `Options.dfy`: the optional value.
- `JsText.dfy`: string semantics.
- `Api.dfy`: records, requests, normalisation, routing, authentication bodies and the interceptor.
- `AlbumMerge.dfy`: the de-duplicating merge.
- `SearchPage.dfy`: the pager.
- `AlbumDetail.dfy`: the album page.

Behaviour of the code worth knowing, each stated by a member below:

- An album is dropped when **either** key matches. A truthy `_uniqueId` does not take precedence over `externalId`: an album with a fresh `_uniqueId` is still dropped when its `externalId` was seen.
- Re-merging a page is idempotent only when every album of the page carries a truthy key. `AlbumMerge.KeylessRemergeDuplicates` shows an album without keys being appended twice.
- A failed `loadMoreAlbums` leaves `currentPage` and `hasMoreAlbums` unchanged. It does not stop paging.
- Stale replies are not discarded. `SearchPage.StaleLoadMoreIsApplied` shows an old query's page being merged after a new query's results.
- A catalogue of N albums takes N/10 + 1 requests, rounded down, not ⌈N/10⌉. A catalogue whose size is a multiple of 10, 0 included, costs one extra request that returns an empty page.
- The album page has no review paging, no "load more" and no delete.

## Model

| member | source | states |
|---|---|---|
| `JsText.Trim` | src/pages/SearchAlbumsPage.tsx:33 | `trim()` gives the empty string exactly when the text is all white space. Otherwise the result neither starts nor ends with white space. |
| `JsText.TrimCutsBlankEnds` | src/pages/SearchAlbumsPage.tsx:33 | `trim()` returns an infix of the text whose prefix and suffix outside it are all white space, so the text between them is kept untouched. |
| `JsText.ParseInt10` | src/pages/AlbumDetailPage.tsx:27 | `parseInt(id, 10)` is NaN exactly when no decimal digit follows the leading white space and an optional sign. |
| `JsText.ParseIntReadsPrefix` | src/pages/AlbumDetailPage.tsx:27-28 | `parseInt` reads a leading numeral and ignores the rest: numeral + non-digit text parses to the numeral's value. |
| `JsText.ParseIntOfSignedNumeral` | src/pages/AlbumDetailPage.tsx:27 | `parseInt` reads a decimal numeral with at most one leading `+` or `-` whole, with its sign. |
| `JsText.NumberAcceptsNumerals` | src/api/api.ts:167 | `Number` of a decimal numeral with at most one leading `+` or `-` is not NaN. |
| `JsText.NumberRejectsLeadingLetter` | src/api/api.ts:167 | `Number` is NaN for a text whose first character is an ASCII letter other than `I`. |
| `JsText.NumberRejectsTrailingLetters` | src/api/api.ts:167 | `Number` is NaN for a numeral that does not start with `0`, followed by text that starts with a lower-case letter other than `e` and does not end in white space, such as `12abc`. |
| `JsText.ParseIntAndNumberDisagree` | src/pages/AlbumDetailPage.tsx:54 | On the same texts (a numeral not starting with `0`, then a lower-case letter other than `e`, no white space at the end), `parseInt` gives the numeral's value while `Number` gives NaN. |
| `Api.GetAllAlbums` | src/api/api.ts:149-152 | An explicit page and limit are passed through unchanged. |
| `Api.SearchAlbumsRequest` | src/api/api.ts:153-163 | The search request carries the query text as typed, with an explicit page and limit unchanged. |
| `Api.GetReviewsByAlbum` | src/api/api.ts:206-213 | The reviews request names the album, and an explicit page and limit, unchanged. |
| `Api.PagingDefaults` | src/api/api.ts:149-209 | Omitted arguments default to page 1 with 10 albums (listing and search) and page 1 with 5 reviews. |
| `Api.CreateReview` | src/api/api.ts:224-237 | The review text travels in the `comment` field, alongside the album id, rating and parent id. |
| `Api.AlbumPath` | src/api/api.ts:164-174 | Exactly one path is chosen. It is `/albums/{id}` if and only if `Number(id)` is not NaN, and `/albums/external/{id}` otherwise. |
| `Api.GetAlbumById` | src/api/api.ts:164-179 | `getAlbumById` fetches the chosen path. |
| `Api.ExternalSegmentIsNaN` | src/api/api.ts:167-172 | An id starting with `external/` is never numeric, so it always takes the external route. |
| `Api.InternalPathIsNotExternal` | src/api/api.ts:166-174 | An internal path is never equal to an external path. |
| `Api.AlbumPathInjective` | src/api/api.ts:166-174 | Two ids that produce the same path are the same id. |
| `Api.NormalizeReviews` | src/api/api.ts:214-222 | A bare array becomes `{reviews = array, hasMore = false, total = length}`. An envelope is returned as received. |
| `Api.ShapesAgree` | src/api/api.ts:214-222 | A bare array and the envelope `{reviews = array, hasMore = false, total = length}` normalise alike. Conversely, an envelope that normalises like a bare array is exactly that envelope. |
| `Api.AuthLogin` | src/api/api.ts:91-94 | The login body has exactly the fields `username` and `password`, each holding its own argument. |
| `Api.AuthRegister` | src/api/api.ts:95-105 | The register body has exactly the fields `email`, `password` and `username`, each holding its own argument. |
| `Api.UsersRegister` | src/api/api.ts:118-124 | The arguments are reordered when forwarded, yet each value lands in the body field of its own name. |
| `Api.RegisterThenLoginAgree` | src/api/api.ts:115-124 | Registering and then logging in send the same username and password. |
| `Api.InterceptRequest` | src/api/api.ts:69-75 | With a truthy token and a headers object, `Authorization` becomes `Bearer <token>` and every other header is kept. Otherwise the configuration is unchanged. |
| `Api.BearerToken` | src/api/api.ts:72 | Reading a header back succeeds exactly on the `Bearer ` prefix and returns the text after it. |
| `Api.InterceptorRoundTrip` | src/api/api.ts:69-75 | The written header yields the stored token back. Intercepting twice equals intercepting once. |
| `AlbumMerge.NewAlbumsIsFilter` | src/pages/SearchAlbumsPage.tsx:97-109 | The survivors are a subsequence of the page in fetch order. Each album keeps every copy it has in the page when it is not a duplicate of the previous list, and none when it is. |
| `AlbumMerge.MergeSpec` | src/pages/SearchAlbumsPage.tsx:86-112 | The previous list is an exact prefix, and at most one page's worth is appended. An album is appended if and only if it is in the page and neither of its truthy keys occurs among the previous list's keys. The appended albums are a subsequence of the page. |
| `AlbumMerge.CollectKeys` | src/pages/SearchAlbumsPage.tsx:89-94 | The two sets hold exactly the `_uniqueId`s and the `externalId`s of the previous list. |
| `AlbumMerge.FilterNewAlbums` | src/pages/SearchAlbumsPage.tsx:97-109 | The loop over the page, filtering against the two sets, yields exactly the survivors of the filter. |
| `AlbumMerge.MergeAlbums` | src/pages/SearchAlbumsPage.tsx:86-112 | Building the sets, filtering and appending computes `Merge`. |
| `AlbumMerge.NewAlbumsAppend` | src/pages/SearchAlbumsPage.tsx:97-109 | The filter distributes over concatenated pages. Albums earlier in a page never cause a later one to be dropped. |
| `AlbumMerge.RepeatsWithinPageAreKept` | src/pages/SearchAlbumsPage.tsx:89-111 | Two equal albums in one page are both appended when neither key of the album occurs in the previous list. |
| `AlbumMerge.KeylessAlbumsAreAppended` | src/pages/SearchAlbumsPage.tsx:99-108 | An album with no truthy key is always appended, every copy of it. |
| `AlbumMerge.DuplicateStaysDuplicate` | src/pages/SearchAlbumsPage.tsx:89-106 | A key already seen stays seen once more albums are appended. |
| `AlbumMerge.FreshPageAppendedWhole` | src/pages/SearchAlbumsPage.tsx:97-111 | A page that repeats no key of the previous list is appended whole. |
| `AlbumMerge.StalePageDropped` | src/pages/SearchAlbumsPage.tsx:97-111 | A page whose every album repeats a key of the previous list adds nothing. |
| `AlbumMerge.MergeIdempotent` | src/pages/SearchAlbumsPage.tsx:85-111 | Merging the same page again adds nothing when every album of the page carries a truthy key. |
| `AlbumMerge.KeylessRemergeDuplicates` | src/pages/SearchAlbumsPage.tsx:99-111 | Without keys, merging the same page twice yields the album twice. |
| `AlbumMerge.OverlappingPagesScenario` | src/pages/SearchAlbumsPage.tsx:86-111 | Pages with externalIds a, b and then b, c merge to a, b, c. |
| `SearchPage.Initial` | src/pages/SearchAlbumsPage.tsx:6-15 | The page starts with an empty query, no albums, no message and nothing pending or searched, on page 1 with paging not stopped. The load-more guard alone therefore does not block a press before the first search. |
| `SearchPage.Search` | src/pages/SearchAlbumsPage.tsx:28-67 | A blank query does nothing and issues no request. Otherwise it requests page 1 of 10 and resets the counter to 1. Success replaces the list, with paging continuing if and only if the page was full. Failure empties the list, stops paging and shows the 400-specific or the generic message. |
| `SearchPage.LoadMore` | src/pages/SearchAlbumsPage.tsx:72-127 | It neither fetches nor changes anything if and only if a search or a load is pending or paging has stopped. Otherwise it requests page `currentPage + 1`. Success merges the page after the shown albums, advances the counter by one and continues paging if and only if the page was full. Failure keeps albums, counter and flag and sets the message. It ends with no load pending. |
| `SearchPage.NoSecondLoadWhilePending` | src/pages/SearchAlbumsPage.tsx:73-76 | While a load is pending, a second `loadMoreAlbums` issues no request and changes nothing. |
| `SearchPage.StaleLoadMoreIsApplied` | src/pages/SearchAlbumsPage.tsx:77-115 | A load reply that arrives after a new search is still merged after the new results, and it sets the counter to the old query's next page. |
| `SearchPage.LoadMoreStopsAtEnd` | src/pages/SearchAlbumsPage.tsx:73-118 | Once a short last page has been shown, the whole catalogue is on screen and paging has stopped, so a further press is refused. |
| `SearchPage.NextPageExtendsPrefix` | src/pages/SearchAlbumsPage.tsx:86-111 | Merging the next catalogue page into a catalogue prefix gives the next, longer prefix. |
| `SearchPage.LoadMoreShowsNextPage` | src/pages/SearchAlbumsPage.tsx:72-118 | With more pages left, one press fetches the next page and shows one more page of the catalogue. |
| `SearchPage.LoadRemainingPages` | src/pages/SearchAlbumsPage.tsx:72-118 | From the first page shown, pressing until a press is refused requests pages 2, 3, … exactly once each and in order: N/10 requests, rounded down. It ends with the whole catalogue shown in order and paging stopped. |
| `SearchPage.SearchThenLoadAll` | src/pages/SearchAlbumsPage.tsx:28-118 | A search and then presses until one is refused request pages 1, 2, … of the query in order: N/10 + 1 requests in all, rounded down. They end with the whole catalogue shown and paging stopped. |
| `SearchPage.TransitionsKeepValid` | src/pages/SearchAlbumsPage.tsx:13-115 | The page counter starts at 1, and no transition takes it below 1. This holds for each half of a handler separately, with any state in between. A load-more reply is applied with the page its own request named, which is the issuing state's `currentPage + 1`. |
| `AlbumDetail.Initial` | src/pages/AlbumDetailPage.tsx:6-13 | The page starts loading for the given route id. It has no album, no reviews, no error, an empty text, rating 0 and no submit pending. |
| `AlbumDetail.ReviewAlbumId` | src/pages/AlbumDetailPage.tsx:27 | Corrected id test (see Findings). A review album id exists if and only if the route id is a decimal numeral with at most one leading sign. It then equals what `parseInt` reads, and the album comes from the internal path. A plain numeral gives its own value. |
| `AlbumDetail.ProviderIdReadsFour` | src/pages/AlbumDetailPage.tsx:27 | As written, `parseInt` reads 4 from `4aawyAB9vmqN3uQ7FjRGTy`, while `Number` reads NaN. |
| `AlbumDetail.AsWrittenMixesAlbums` | src/pages/AlbumDetailPage.tsx:26-64 | As written, the page for `4aawyAB9vmqN3uQ7FjRGTy` fetches that album by its external path and requests page 1 of the reviews of album 4. A submit posts to album 4. The submit half holds for the model, which unwraps the review envelope (see Left out). |
| `AlbumDetail.ReviewsFollowFetchedAlbum` | src/pages/AlbumDetailPage.tsx:26-35 | The corrected test rejects every id that `parseInt` rejects and every id that `Number` reads as NaN. Where it accepts, it agrees with `parseInt`, and the album was fetched by its internal path. |
| `AlbumDetail.ReviewRequestsTargetFetchedAlbum` | src/pages/AlbumDetailPage.tsx:26-67 | With the corrected test, every review listing or posting names the album fetched by its internal path. The id is a number to both `parseInt` and `Number`, and the request carries the value `parseInt` reads. |
| `AlbumDetail.LoadAlbumAndReviews` | src/pages/AlbumDetailPage.tsx:15-46 | Without an id, nothing happens. Otherwise the album is requested first and loading ends. A failed album fetch shows the error and keeps the reviews. If the id test rejects the id, the review list is empty and no review request is sent. If it accepts, page 1 of 5 reviews is requested for the value read: success shows the normalised reviews, and failure shows the error and keeps the list. With `AsWritten`, the id test is `parseInt(id, 10)` as at line 27, so `12abc` lists the reviews of album 12. |
| `AlbumDetail.SubmitReview` | src/pages/AlbumDetailPage.tsx:48-78 | It does nothing without an id, with a blank text or with no star. If the id test rejects the id, it sets the error and sends nothing. It posts if and only if every guard passes and the id test accepts. The post carries the text and rating for the value read, and leaves route id, album, loading state and error alone. Success puts the new review first and clears text and rating. Failure keeps list and form. It ends with `submitting` false. With `AsWritten`, the id test is `parseInt(id, 10)` as at line 54. |
| `AlbumDetail.SelectStar` | src/pages/AlbumDetailPage.tsx:175-184 | Clicking star 1..5 sets the rating to that star. Every other field is left alone: route id, album, reviews, loading state, error, text and the submitting flag. |
| `AlbumDetail.StarsBelowCount` | src/pages/AlbumDetailPage.tsx:256-264 | A row of n stars lit below a rating lights the rating clamped to 0..n. |
| `AlbumDetail.PickerShowsRating` | src/pages/AlbumDetailPage.tsx:175-184 | The picker highlights star s if and only if s ≤ rating, so it lights exactly `rating` stars. It matches the row later drawn for the review. |
| `AlbumDetail.ReviewStarsCount` | src/pages/AlbumDetailPage.tsx:256-264 | A review fills star i if and only if i < rating, which is its rating clamped to 0..5. |
| `AlbumDetail.Average` | src/pages/AlbumDetailPage.tsx:96-100 | "No ratings yet" if and only if no review is loaded. Otherwise it is the sum of the loaded ratings over their count. |
| `AlbumDetail.SumRatingsAppend` | src/pages/AlbumDetailPage.tsx:98 | The rating sum of two lists joined is the sum of their sums. |
| `AlbumDetail.AverageWithinStars` | src/pages/AlbumDetailPage.tsx:96-100 | With every loaded rating in 1..5, the mean lies in 1..5. |
| `AlbumDetail.SubmitUpdatesAverage` | src/pages/AlbumDetailPage.tsx:68-100 | Applying a successful submit's reply adds the new rating to the sum and one to the count of the average. |
| `AlbumDetail.TransitionsKeepRating` | src/pages/AlbumDetailPage.tsx:12-71 | The selected rating starts at 0 and stays within 0..5 through every transition under either id test. This includes each half of a submit taken separately. |

## Findings

| source | as written | input that shows it | evidently intended | confidence | as-written member | corrected member |
|---|---|---|---|---|---|---|
| src/pages/AlbumDetailPage.tsx:27 | `parseInt(id, 10)` decides whether the route id names a backend album. `getAlbumById` decides the same question with `Number(id)` (src/api/api.ts:167). Search results without a numeric id link to `/albums/{externalId}` (src/pages/SearchAlbumsPage.tsx:271-275). | `4aawyAB9vmqN3uQ7FjRGTy`: the album is fetched from `/albums/external/…`, while the reviews of album 4 are requested (line 29). Once the review envelope is unwrapped, as the model does, a submit also posts to album 4 | Reviews are listed and posted only for the album the page fetched | not executed; high | `AlbumDetail.AsWrittenMixesAlbums` | `AlbumDetail.ReviewRequestsTargetFetchedAlbum` |

The handlers take the id test as a parameter. `AsWritten` is `parseInt(id, 10)`, as the page is written. `Corrected` is `AlbumDetail.ReviewAlbumId`, which accepts only a decimal numeral with at most one leading sign. `AlbumDetail.ReviewsFollowFetchedAlbum` proves that the correction changes nothing for such ids. It also proves that every id `parseInt` rejects, and every id `Number` reads as NaN, is rejected.

## Left out

- Rendering: JSX, CSS, entrance animations and `setTimeout`. Which buttons are visible or disabled is left out too: "load more" is shown only with albums and `hasMoreAlbums`, and submit is disabled while `submitting`. The handlers are modelled without these view-side guards.
- Transport: axios, `localStorage` (the token is a parameter of `InterceptRequest`), `console.error`, the response interceptor (it only logs a 401 and rethrows) and window events. The login, register and profile pages, the header, routing, the landing page's arc layout and the home page are left out too. They are I/O, global browser state or presentation.
- API calls not used by the modelled pages: `getProfile`, `updateProfile`, `getCurrentUser`, the artists calls, `updateReview`, `deleteReview` and `likeReview`. Each is a single request with no logic.
- `Api.GetAlbumById`: only string ids are modelled, because the one caller passes the route parameter. With a number argument the internal path is always taken.
- `JsText.ParseInt10`: `parseInt` returns a double. Precision loss above 2^53 and the distinction between `-0` and `0` are not modelled.
- `AlbumDetail.Average`: the mean is kept as a (sum, count) pair. `toFixed(1)` formatting and `toLocaleDateString` are not modelled.
- Async interleavings are modelled only through the Begin/Finish split. Each handler's synchronous part and each reply are atomic steps. React's batching of state updates is not modelled.
- `AlbumDetail.LoadAlbumAndReviews`: the page stores the whole `ReviewsResponse` envelope as its review list (src/pages/AlbumDetailPage.tsx:29-30). The model stores the envelope's `reviews` sequence instead. As written, this breaks the page whenever reviews load:
  - `reviews.length` is undefined, so the average reads "No ratings yet" (line 96).
  - `reviews.length === 0` is false, so the render reaches `reviews.map` on an object (line 238) and throws.
  - The whole page then fails to render: neither the review list, nor the average, nor the review form (lines 166-226) is shown.
  - `handleSubmitReview`, `AlbumDetail.SubmitUpdatesAverage` and the submit half of the Findings row are therefore reachable only once the envelope is unwrapped, as the model does.
  - When the review fetch fails, the error view at lines 88-94 is shown instead, and the form is hidden too.
- `Api.SearchAlbumsRequest`: the query is pasted into the URL without escaping (src/api/api.ts:160). The model carries the query text as typed and does not model URL parsing. Because of this, a query containing `&` or `#` reaches the server altered. For example, `C#` is sent as `C` and the `&page=2&limit=10` after it is lost.
- `AlbumDetail.ReviewAlbumId`: the corrected test refuses every id that is not a plain numeral with at most one sign, even when `Number` reads it as a number. Examples are ` 5` (surrounding white space), `5.5` (fraction) and `0x1A` (hexadecimal). The page as written lists reviews for what `parseInt` reads from these ids: 5, 5 and 0. Only for ` 5` is that the album it fetched. The corrected page shows no reviews for any of them.
- `SearchPage.FinishLoadMore` accepts any page number as its argument, so applying it with 0 would leave the counter at 0. `SearchPage.TransitionsKeepValid` promises validity only when the page number is the one the load-more request carried, which is how the page uses it.
- The password confirmation on the register page is a one-line check inside form plumbing.
