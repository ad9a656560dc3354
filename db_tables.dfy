/**
 * The two plugin tables, `gmbc_reviews` and `gmbc_locations`, held in memory.
 * A table is its rows in storage order plus its AUTO_INCREMENT counter; the
 * `Database` class stands for `$wpdb` and its methods for the static
 * `DBTables` functions that write and read these tables. Neither table has a
 * unique key on the external id, so nothing here prevents duplicates.
 */
module DBTables {
  import opened Common

  /** The seven columns a review sync writes. */
  datatype ReviewContent = ReviewContent(
    endpointName: string,
    reviewId: string,
    comment: Option<string>,
    starRating: Option<int>,
    updateTime: string,
    reviewerDisplayName: string,
    profilePhotoUrl: string)

  /** A `gmbc_reviews` row: the primary key, the synced columns and the local `is_hidden` flag. */
  datatype ReviewRow = ReviewRow(id: nat, content: ReviewContent, isHidden: bool)

  datatype ReviewTable = ReviewTable(rows: seq<ReviewRow>, nextId: nat)

  /** The five columns a location sync writes. */
  datatype LocationContent = LocationContent(
    name: string,
    title: string,
    locationId: string,
    newReviewUri: string,
    mapsUri: string)

  datatype LocationRow = LocationRow(id: nat, content: LocationContent)

  datatype LocationTable = LocationTable(rows: seq<LocationRow>, nextId: nat)

  /** A new or truncated table: no rows and the AUTO_INCREMENT counter back at 1. */
  const NoReviews := ReviewTable([], 1)
  const NoLocations := LocationTable([], 1)

  // -------------------------------------------------------------------------
  // gmbc_reviews
  // -------------------------------------------------------------------------

  /** `insert_reviews_table`: one more row, `is_hidden` at its default 0. */
  function ReviewInserted(t: ReviewTable, c: ReviewContent): ReviewTable
  {
    ReviewTable(t.rows + [ReviewRow(t.nextId, c, false)], t.nextId + 1)
  }

  function UpdatedReviewRow(row: ReviewRow, c: ReviewContent): ReviewRow
  {
    if row.content.reviewId == c.reviewId then row.(content := c) else row
  }

  /** `update_reviews_table`: the content columns of every row whose `review_id`
      matches are rewritten; the primary key and `is_hidden` are never touched,
      and every other row stays as it was. */
  function ReviewsUpdated(t: ReviewTable, c: ReviewContent): (r: ReviewTable)
    ensures |r.rows| == |t.rows| && r.nextId == t.nextId
    ensures forall i :: 0 <= i < |t.rows| ==>
      r.rows[i].id == t.rows[i].id && r.rows[i].isHidden == t.rows[i].isHidden &&
      r.rows[i].content == (if t.rows[i].content.reviewId == c.reviewId then c else t.rows[i].content)
  {
    ReviewTable(seq(|t.rows|, i requires 0 <= i < |t.rows| => UpdatedReviewRow(t.rows[i], c)), t.nextId)
  }

  predicate HasReview(rows: seq<ReviewRow>, reviewId: string)
  {
    exists i :: 0 <= i < |rows| && rows[i].content.reviewId == reviewId
  }

  /** `SELECT review_id FROM gmbc_reviews WHERE review_id = %s`, in storage order. */
  function SelectReviewIds(rows: seq<ReviewRow>, reviewId: string): (ids: seq<string>)
    ensures |ids| <= |rows|
    ensures |ids| > 0 <==> HasReview(rows, reviewId)
    ensures forall x :: x in ids ==> x == reviewId
  {
    if |rows| == 0 then []
    else
      var tail := SelectReviewIds(rows[1..], reviewId);
      assert HasReview(rows[1..], reviewId) ==> HasReview(rows, reviewId);
      assert HasReview(rows, reviewId) && rows[0].content.reviewId != reviewId ==> HasReview(rows[1..], reviewId);
      if rows[0].content.reviewId == reviewId then [reviewId] + tail else tail
  }

  /** The `is_hidden` update the list-table actions run: `WHERE ID = id`. */
  function ReviewsHiddenSet(t: ReviewTable, id: int, hidden: bool): (r: ReviewTable)
    ensures |r.rows| == |t.rows| && r.nextId == t.nextId
    ensures forall i :: 0 <= i < |t.rows| ==>
      r.rows[i].id == t.rows[i].id && r.rows[i].content == t.rows[i].content &&
      r.rows[i].isHidden == (if t.rows[i].id == id then hidden else t.rows[i].isHidden)
  {
    ReviewTable(seq(|t.rows|, i requires 0 <= i < |t.rows| =>
      if t.rows[i].id == id then t.rows[i].(isHidden := hidden) else t.rows[i]), t.nextId)
  }

  /** Selecting by `review_id` after one more row was appended. */
  lemma {:induction false} SelectReviewIdsAppend(rows: seq<ReviewRow>, row: ReviewRow, reviewId: string)
    ensures SelectReviewIds(rows + [row], reviewId) ==
      SelectReviewIds(rows, reviewId) + (if row.content.reviewId == reviewId then [reviewId] else [])
    decreases |rows|
  {
    if |rows| > 0 {
      assert (rows + [row])[1..] == rows[1..] + [row];
      SelectReviewIdsAppend(rows[1..], row, reviewId);
    }
  }

  /** Inserting never checks for an existing `review_id`: the number of rows
      carrying the inserted id always grows by exactly one, duplicate or not. */
  lemma InsertReviewAllowsDuplicates(t: ReviewTable, c: ReviewContent)
    ensures |SelectReviewIds(ReviewInserted(t, c).rows, c.reviewId)| == |SelectReviewIds(t.rows, c.reviewId)| + 1
    ensures forall x :: x != c.reviewId ==>
      SelectReviewIds(ReviewInserted(t, c).rows, x) == SelectReviewIds(t.rows, x)
  {
    SelectReviewIdsAppend(t.rows, ReviewRow(t.nextId, c, false), c.reviewId);
    forall x | x != c.reviewId
      ensures SelectReviewIds(ReviewInserted(t, c).rows, x) == SelectReviewIds(t.rows, x)
    {
      SelectReviewIdsAppend(t.rows, ReviewRow(t.nextId, c, false), x);
    }
  }

  /** An update keys on `review_id` and rewrites it to the same value, so the
      rows found for any id are the same before and after. */
  lemma {:induction false} UpdateKeepsReviewIds(rows: seq<ReviewRow>, c: ReviewContent, x: string)
    ensures SelectReviewIds(ReviewsUpdated(ReviewTable(rows, 0), c).rows, x) == SelectReviewIds(rows, x)
    decreases |rows|
  {
    if |rows| > 0 {
      var updated := ReviewsUpdated(ReviewTable(rows, 0), c).rows;
      assert updated[1..] == ReviewsUpdated(ReviewTable(rows[1..], 0), c).rows;
      UpdateKeepsReviewIds(rows[1..], c, x);
    }
  }

  // -------------------------------------------------------------------------
  // gmbc_locations
  // -------------------------------------------------------------------------

  /** `insert_locations_table`: one more row. */
  function LocationInserted(t: LocationTable, c: LocationContent): LocationTable
  {
    LocationTable(t.rows + [LocationRow(t.nextId, c)], t.nextId + 1)
  }

  function UpdatedLocationRow(row: LocationRow, c: LocationContent): LocationRow
  {
    if row.content.locationId == c.locationId then row.(content := c) else row
  }

  /** `update_locations_table`: keyed on `location_id`; other rows stay as they were. */
  function LocationsUpdated(t: LocationTable, c: LocationContent): (r: LocationTable)
    ensures |r.rows| == |t.rows| && r.nextId == t.nextId
    ensures forall i :: 0 <= i < |t.rows| ==>
      r.rows[i].id == t.rows[i].id &&
      r.rows[i].content == (if t.rows[i].content.locationId == c.locationId then c else t.rows[i].content)
  {
    LocationTable(seq(|t.rows|, i requires 0 <= i < |t.rows| => UpdatedLocationRow(t.rows[i], c)), t.nextId)
  }

  predicate HasLocation(rows: seq<LocationRow>, locationId: string)
  {
    exists i :: 0 <= i < |rows| && rows[i].content.locationId == locationId
  }

  /** `SELECT location_id FROM gmbc_locations WHERE location_id = %s`, in storage order. */
  function SelectLocationIds(rows: seq<LocationRow>, locationId: string): (ids: seq<string>)
    ensures |ids| <= |rows|
    ensures |ids| > 0 <==> HasLocation(rows, locationId)
    ensures forall x :: x in ids ==> x == locationId
  {
    if |rows| == 0 then []
    else
      var tail := SelectLocationIds(rows[1..], locationId);
      assert HasLocation(rows[1..], locationId) ==> HasLocation(rows, locationId);
      assert HasLocation(rows, locationId) && rows[0].content.locationId != locationId ==> HasLocation(rows[1..], locationId);
      if rows[0].content.locationId == locationId then [locationId] + tail else tail
  }

  /** `$wpdb`, reduced to the plugin's two tables. */
  class Database {
    var reviews: ReviewTable
    var locations: LocationTable

    /** Both tables as `setup_tables` creates them. */
    constructor ()
      ensures reviews == NoReviews && locations == NoLocations
    {
      reviews := NoReviews;
      locations := NoLocations;
    }

    method InsertReview(c: ReviewContent)
      modifies this
      ensures reviews == ReviewInserted(old(reviews), c)
      ensures locations == old(locations)
    {
      reviews := ReviewInserted(reviews, c);
    }

    method UpdateReview(c: ReviewContent)
      modifies this
      ensures reviews == ReviewsUpdated(old(reviews), c)
      ensures locations == old(locations)
    {
      reviews := ReviewsUpdated(reviews, c);
    }

    /** `check_synced_reviews`: the matching `review_id` values, or `false` (None) when there are none. */
    method CheckSyncedReviews(reviewId: string) returns (result: Option<seq<string>>)
      ensures result.None? <==> !HasReview(reviews.rows, reviewId)
      ensures result.Some? ==> |result.value| > 0 && forall x :: x in result.value ==> x == reviewId
    {
      var ids := SelectReviewIds(reviews.rows, reviewId);
      result := if |ids| > 0 then Some(ids) else None;
    }

    /** `remove_reviews`: TRUNCATE empties only the reviews table. */
    method RemoveReviews()
      modifies this
      ensures reviews == NoReviews
      ensures locations == old(locations)
    {
      reviews := NoReviews;
    }

    /** The `is_hidden` update by primary key that the list-table actions issue. */
    method SetReviewHidden(id: int, hidden: bool)
      modifies this
      ensures reviews == ReviewsHiddenSet(old(reviews), id, hidden)
      ensures locations == old(locations)
    {
      reviews := ReviewsHiddenSet(reviews, id, hidden);
    }

    method InsertLocation(c: LocationContent)
      modifies this
      ensures locations == LocationInserted(old(locations), c)
      ensures reviews == old(reviews)
    {
      locations := LocationInserted(locations, c);
    }

    method UpdateLocation(c: LocationContent)
      modifies this
      ensures locations == LocationsUpdated(old(locations), c)
      ensures reviews == old(reviews)
    {
      locations := LocationsUpdated(locations, c);
    }

    /** `check_synced_locations`: the matching `location_id` values, or `false` (None). */
    method CheckSyncedLocations(locationId: string) returns (result: Option<seq<string>>)
      ensures result.None? <==> !HasLocation(locations.rows, locationId)
      ensures result.Some? ==> |result.value| > 0 && forall x :: x in result.value ==> x == locationId
    {
      var ids := SelectLocationIds(locations.rows, locationId);
      result := if |ids| > 0 then Some(ids) else None;
    }

    /** `remove_locations`: TRUNCATE empties only the locations table. */
    method RemoveLocations()
      modifies this
      ensures locations == NoLocations
      ensures reviews == old(reviews)
    {
      locations := NoLocations;
    }
  }
}
