/**
 * The shape of what the Google Business Profile API hands back to the plugin.
 * The network is not modelled: each list call is a function from the page
 * token sent (none for the first request) to its response, and a
 * `Google_Service_Exception` is the `Thrown` response carrying `getErrors()`.
 */
module GoogleApi {
  import opened Common

  datatype Response<+T> = Ok(value: T) | Thrown(errors: seq<string>)

  /** One page of a list call: its items, the total the API reports
      (`totalReviewCount` / `totalSize`), the token naming the next page, and
      whatever else that listing carries alongside. */
  datatype Page<+T, +A> = Page(items: seq<T>, total: int, nextPageToken: Option<string>, aggregate: A)

  /** A list call for fixed arguments, as a function of the `pageToken` sent. */
  type Lister<!T, !A> = Option<string> -> Response<Page<T, A>>

  datatype Reviewer = Reviewer(displayName: string, profilePhotoUrl: string)

  /** One review as the reviews listing returns it; `starRating` is the enum word. */
  datatype ApiReview = ApiReview(
    name: string,
    reviewId: string,
    comment: Option<string>,
    starRating: string,
    updateTime: string,
    reviewer: Reviewer)

  /** A page of the reviews listing; its aggregate is `averageRating` already
      rounded to one decimal place, in tenths. */
  type ReviewsPage = Page<ApiReview, int>

  /** One location as the locations listing returns it (`metadata` flattened). */
  datatype ApiLocation = ApiLocation(name: string, title: string, newReviewUri: string, mapsUri: string)

  type LocationsPage = Page<ApiLocation, ()>

  /** `$gmb_accounts[0]->name`: with no account PHP reads null, which concatenates as "". */
  function FirstAccountName(accounts: seq<string>): string
  {
    if |accounts| > 0 then accounts[0] else ""
  }
}
