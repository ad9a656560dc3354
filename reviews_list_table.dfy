/**
 * `GMBConnect\Admin\ReviewsListTable`: the admin screen listing the synced
 * reviews. The search filter, the page slice and its counts, the hide and
 * unhide actions on `is_hidden`, and the star and "Hidden" columns. The
 * request is an argument; nonce verification and the `manage_options`
 * capability are given as their outcomes.
 */
module AdminListTable {
  import opened Common
  import opened Text
  import opened DBTables
  import opened Reviews
  import opened TemplateFunctions

  /** One row of `get_table_data`, with the values as the query returns them:
      `update_time` comes back as the text of a `DATETIME` column. */
  datatype ListItem = ListItem(
    photoUrl: string,
    displayName: string,
    comment: Option<string>,
    starRating: Option<int>,
    updateTime: string,
    reviewId: string,
    id: nat,
    isHidden: bool)

  /** `SUBSTRING(comment, 1, 255)`: at most the first 255 characters. */
  function CommentPrefix(comment: Option<string>): (r: Option<string>)
    ensures r.Some? <==> comment.Some?
    ensures r.Some? ==> |r.value| <= 255 && HasPrefix(comment.value, r.value)
    ensures r.Some? && |comment.value| <= 255 ==> r == comment
  {
    if comment.Some? && |comment.value| > 255 then Some(comment.value[..255]) else comment
  }

  /** The item for a stored row; `datetimeText` is the text MySQL gives back
      for the `updateTime` the sync wrote into the `DATETIME` column. */
  function ItemOf(row: ReviewRow, datetimeText: string -> string): ListItem
  {
    ListItem(row.content.profilePhotoUrl, row.content.reviewerDisplayName, CommentPrefix(row.content.comment),
             row.content.starRating, datetimeText(row.content.updateTime), row.content.reviewId, row.id,
             row.isHidden)
  }

  /** `get_table_data`, one item per stored row. */
  function TableData(rows: seq<ReviewRow>, datetimeText: string -> string): (items: seq<ListItem>)
    ensures |items| == |rows|
    ensures forall i :: 0 <= i < |rows| ==> items[i] == ItemOf(rows[i], datetimeText)
  {
    seq(|rows|, i requires 0 <= i < |rows| => ItemOf(rows[i], datetimeText))
  }

  /** The row's values as strings, in column order; a null reads as "". */
  function Values(item: ListItem): seq<string>
  {
    [item.photoUrl, item.displayName, if item.comment.Some? then item.comment.value else "",
     RatingText(item.starRating), item.updateTime, item.reviewId, NatToString(item.id),
     if item.isHidden then "1" else "0"]
  }

  /** The `array_filter` callback: some value contains the key, ignoring case. */
  predicate Matches(item: ListItem, key: string)
  {
    exists k :: 0 <= k < |Values(item)| && ContainsIgnoringCase(Values(item)[k], key)
  }

  /** `filter_table_data`: the matching rows, in their original order, reindexed. */
  function FilterTableData(data: seq<ListItem>, key: string): (r: seq<ListItem>)
    ensures |r| <= |data|
    ensures forall x :: x in r ==> x in data && Matches(x, key)
    ensures forall x :: x in data && Matches(x, key) ==> x in r
  {
    if |data| == 0 then []
    else
      var init := FilterTableData(data[..|data| - 1], key);
      assert forall x :: x in data ==> x in data[..|data| - 1] || x == data[|data| - 1];
      init + (if Matches(data[|data| - 1], key) then [data[|data| - 1]] else [])
  }

  /** Filtering a listing made of two parts filters each part in place: the
      relative order of the rows kept never changes. */
  lemma {:induction false} FilterKeepsOrder(a: seq<ListItem>, b: seq<ListItem>, key: string)
    ensures FilterTableData(a + b, key) == FilterTableData(a, key) + FilterTableData(b, key)
    decreases |b|
  {
    if |b| > 0 {
      var b' := b[..|b| - 1];
      assert (a + b)[..|a + b| - 1] == a + b';
      FilterKeepsOrder(a, b', key);
    } else {
      assert a + b == a;
    }
  }

  /** Filtering twice with the same key filters once. */
  lemma {:induction false} FilterIdempotent(data: seq<ListItem>, key: string)
    ensures FilterTableData(FilterTableData(data, key), key) == FilterTableData(data, key)
    decreases |data|
  {
    if |data| > 0 {
      var init := data[..|data| - 1];
      var last := data[|data| - 1];
      FilterIdempotent(init, key);
      var kept := if Matches(last, key) then [last] else [];
      FilterKeepsOrder(FilterTableData(init, key), kept, key);
      if Matches(last, key) {
        assert [last][..0] == [];
      }
    }
  }

  /** The rows the table lists for a search key: all of them unless the
      trimmed key is truthy, the matching ones otherwise. */
  function Listed(rows: seq<ReviewRow>, key: string, datetimeText: string -> string): seq<ListItem>
  {
    if EmptyString(key) then TableData(rows, datetimeText) else FilterTableData(TableData(rows, datetimeText), key)
  }

  /** `$reviews_search_key`; the backslash removal of `wp_unslash` is not modelled. */
  function SearchKey(search: Option<string>): string
  {
    if search.Some? then Trim(search.value) else ""
  }

  // -------------------------------------------------------------------------
  // handle_table_actions / handle_bulk_actions
  // -------------------------------------------------------------------------

  /** The request parameters the actions read: `current_action()`, `action`,
      `action2`, `review_id` and the `reviews[]` checkboxes. */
  datatype ListRequest = ListRequest(
    search: Option<string>,
    tableAction: Option<string>,
    action: Option<string>,
    action2: Option<string>,
    reviewId: Option<string>,
    selected: Option<seq<string>>)

  /** `(int) $_REQUEST['review_id']`; an unset parameter is null, which casts to 0. */
  function RequestedId(req: ListRequest): int
  {
    if req.reviewId.Some? then IntCast(req.reviewId.value) else 0
  }

  predicate BulkRequested(req: ListRequest)
  {
    req.action == Some("hide_reviews") || req.action2 == Some("hide_reviews")
  }

  /** Every selected review hidden, one `UPDATE ... WHERE ID = (int) id` after another. */
  function HiddenAll(t: ReviewTable, ids: seq<string>): ReviewTable
  {
    if |ids| == 0 then t else ReviewsHiddenSet(HiddenAll(t, ids[..|ids| - 1]), IntCast(ids[|ids| - 1]), true)
  }

  /** The ids the bulk action targets. */
  function SelectedIds(ids: seq<string>): set<int>
  {
    set x | x in ids :: IntCast(x)
  }

  /** A bulk hide hides exactly the selected rows and touches nothing else. */
  lemma {:induction false} BulkHideSetsSelected(t: ReviewTable, ids: seq<string>)
    ensures |HiddenAll(t, ids).rows| == |t.rows| && HiddenAll(t, ids).nextId == t.nextId
    ensures forall i :: 0 <= i < |t.rows| ==>
      HiddenAll(t, ids).rows[i].id == t.rows[i].id &&
      HiddenAll(t, ids).rows[i].content == t.rows[i].content &&
      HiddenAll(t, ids).rows[i].isHidden == (t.rows[i].isHidden || t.rows[i].id in SelectedIds(ids))
    decreases |ids|
  {
    if |ids| > 0 {
      var init := ids[..|ids| - 1];
      BulkHideSetsSelected(t, init);
      assert SelectedIds(ids) == SelectedIds(init) + {IntCast(ids[|ids| - 1])} by {
        assert forall x :: x in ids <==> x in init || x == ids[|ids| - 1];
      }
    }
  }

  /** What `handle_bulk_actions` does to the table. */
  function BulkHidden(t: ReviewTable, req: ListRequest, canManage: bool): ReviewTable
  {
    if canManage && req.selected.Some? && |req.selected.value| > 0 then HiddenAll(t, req.selected.value) else t
  }

  /** The table after `handle_table_actions`. A nonce that fails calls
      `invalid_nonce_redirect`, and a bulk hide is followed by `graceful_exit`;
      the plugin defines neither, and `WP_List_Table` answers a call to an
      undefined method with false, so both calls do nothing and the request
      goes on. */
  function TableActions(t: ReviewTable, req: ListRequest, verifyNonce: string -> bool, canManage: bool): ReviewTable
  {
    var t1 := if req.tableAction == Some("hide_review") && verifyNonce("hide_review_nonce")
              then ReviewsHiddenSet(t, RequestedId(req), true) else t;
    var t2 := if req.tableAction == Some("unhide_review") && verifyNonce("unhide_review_nonce")
              then ReviewsHiddenSet(t1, RequestedId(req), false) else t1;
    if BulkRequested(req) && verifyNonce("bulk-gmb-connect_page_gmbc-reviews") then BulkHidden(t2, req, canManage)
    else t2
  }

  /** `handle_bulk_actions`: the loop over the selected ids, when the user may
      manage options; `authorized` is false when the refusal is shown instead. */
  method HandleBulkActions(db: Database, req: ListRequest, canManage: bool) returns (authorized: bool)
    modifies db
    ensures db.reviews == BulkHidden(old(db.reviews), req, canManage)
    ensures db.locations == old(db.locations)
    ensures authorized == canManage
  {
    authorized := canManage;
    if canManage {
      if req.selected.Some? && |req.selected.value| > 0 {
        var ids := req.selected.value;
        for k := 0 to |ids|
          invariant db.reviews == HiddenAll(old(db.reviews), ids[..k])
          invariant db.locations == old(db.locations)
        {
          assert ids[..k + 1][..k] == ids[..k];
          db.SetReviewHidden(IntCast(ids[k]), true);
        }
        assert ids[..|ids|] == ids;
      }
    }
  }

  /** `handle_table_actions`. */
  method HandleTableActions(db: Database, req: ListRequest, verifyNonce: string -> bool, canManage: bool)
    modifies db
    ensures db.reviews == TableActions(old(db.reviews), req, verifyNonce, canManage)
    ensures db.locations == old(db.locations)
  {
    if req.tableAction == Some("hide_review") {
      if verifyNonce("hide_review_nonce") {
        db.SetReviewHidden(RequestedId(req), true);
      }
    }
    if req.tableAction == Some("unhide_review") {
      if verifyNonce("unhide_review_nonce") {
        db.SetReviewHidden(RequestedId(req), false);
      }
    }
    if BulkRequested(req) {
      if verifyNonce("bulk-gmb-connect_page_gmbc-reviews") {
        var _ := HandleBulkActions(db, req, canManage);
      }
    }
  }

  /** A hide or unhide whose nonce does not verify changes no row; only a
      bulk hide sent along with it can. */
  lemma InvalidNonceChangesNothing(t: ReviewTable, req: ListRequest, verifyNonce: string -> bool, canManage: bool)
    requires req.tableAction == Some("hide_review") || req.tableAction == Some("unhide_review")
    requires !verifyNonce(if req.tableAction == Some("hide_review") then "hide_review_nonce" else "unhide_review_nonce")
    ensures TableActions(t, req, verifyNonce, canManage) ==
      if BulkRequested(req) && verifyNonce("bulk-gmb-connect_page_gmbc-reviews") then BulkHidden(t, req, canManage) else t
  {
  }

  /** Without `manage_options` a bulk hide changes no row. `current_action()`
      is then "hide_reviews" (or whatever else), anything but a row action. */
  lemma UnauthorizedBulkChangesNothing(t: ReviewTable, req: ListRequest, verifyNonce: string -> bool)
    requires req.tableAction != Some("hide_review") && req.tableAction != Some("unhide_review") && BulkRequested(req)
    ensures TableActions(t, req, verifyNonce, false) == t
  {
  }

  // -------------------------------------------------------------------------
  // Columns
  // -------------------------------------------------------------------------

  /** The row action link `column_is_hidden` offers. */
  datatype RowAction = RowAction(action: string, reviewId: nat, nonceAction: string, linkText: string)

  /** `column_is_hidden`: the "Hidden" marker and the action that flips it. */
  function ColumnIsHidden(item: ListItem): (r: (string, RowAction))
    ensures r.0 == "Hidden" <==> item.isHidden
    ensures !item.isHidden ==> r.0 == ""
    ensures r.1.action == "unhide_review" <==> item.isHidden
    ensures r.1.reviewId == item.id && r.1.nonceAction == r.1.action + "_nonce"
  {
    if item.isHidden then ("Hidden", RowAction("unhide_review", item.id, "unhide_review_nonce", "Unhide Review"))
    else ("", RowAction("hide_review", item.id, "hide_review_nonce", "Hide Review"))
  }

  /** Following the row action of a listed review, with its nonce, flips that
      review's `is_hidden` and leaves every other row as it was (row ids are
      the AUTO_INCREMENT keys, so no other row shares the id). */
  lemma RowActionFlipsHidden(t: ReviewTable, i: nat, verifyNonce: string -> bool, canManage: bool,
                             datetimeText: string -> string)
    requires i < |t.rows|
    requires forall j :: 0 <= j < |t.rows| && j != i ==> t.rows[j].id != t.rows[i].id
    ensures var link := ColumnIsHidden(ItemOf(t.rows[i], datetimeText)).1;
      var req := ListRequest(None, Some(link.action), None, None, Some(NatToString(link.reviewId)), None);
      verifyNonce(link.nonceAction) ==>
        var r := TableActions(t, req, verifyNonce, canManage);
        |r.rows| == |t.rows| &&
        r.rows[i] == t.rows[i].(isHidden := !t.rows[i].isHidden) &&
        forall j :: 0 <= j < |t.rows| && j != i ==> r.rows[j] == t.rows[j]
  {
    IntCastOfIntToString(t.rows[i].id);
  }

  /** `column_star_rating`: the two star loops, then the rating in brackets. */
  method ColumnStarRating(item: ListItem) returns (stars: seq<Star>, caption: string)
    ensures stars == StarRow(if item.starRating.Some? then item.starRating.value else 0)
    ensures caption == "(" + RatingText(item.starRating) + ")"
  {
    // A null rating compares and subtracts as 0.
    var rating := if item.starRating.Some? then item.starRating.value else 0;
    stars := [];
    var i := 1;
    while i <= rating
      invariant 1 <= i <= (if rating > 0 then rating else 0) + 1
      invariant stars == Stars(SolidStar, i - 1)
    {
      stars := stars + [SolidStar];
      i := i + 1;
    }
    var solid := stars;
    if rating < 5 {
      var dif := 5 - rating;
      i := 1;
      while i <= dif
        invariant 1 <= i <= dif + 1
        invariant stars == solid + Stars(EmptyStar, i - 1)
      {
        stars := stars + [EmptyStar];
        i := i + 1;
      }
    }
    caption := "(" + RatingText(item.starRating) + ")";
  }

  // -------------------------------------------------------------------------
  // prepare_items
  // -------------------------------------------------------------------------

  class ReviewsListTable {
    var items: seq<ListItem>
    var totalItems: nat
    var perPage: int
    var totalPages: int

    constructor ()
      ensures items == [] && totalItems == 0 && perPage == 0 && totalPages == 0
    {
      items := [];
      totalItems := 0;
      perPage := 0;
      totalPages := 0;
    }

    /** `prepare_items`. `get_items_per_page` and `get_pagenum` always give at
        least 1; `datetimeText` is as in `ItemOf`. */
    method PrepareItems(db: Database, req: ListRequest, verifyNonce: string -> bool, canManage: bool,
                        datetimeText: string -> string, reviewsPerPage: int, tablePage: int)
      requires reviewsPerPage >= 1 && tablePage >= 1
      modifies this, db
      ensures db.reviews == TableActions(old(db.reviews), req, verifyNonce, canManage)
      ensures db.locations == old(db.locations)
      ensures var listed := Listed(db.reviews.rows, SearchKey(req.search), datetimeText);
        items == PageWindow(listed, tablePage, reviewsPerPage) &&
        totalItems == |listed| && perPage == reviewsPerPage &&
        totalPages == PageCount(|listed|, reviewsPerPage)
    {
      var key := SearchKey(req.search);
      HandleTableActions(db, req, verifyNonce, canManage);
      ListPage(db.reviews.rows, key, datetimeText, reviewsPerPage, tablePage);
    }

    /** The rest of `prepare_items`: the rows, filtered when the key is
        truthy, the slice for the page, and the pagination counts. */
    method ListPage(rows: seq<ReviewRow>, key: string, datetimeText: string -> string,
                    reviewsPerPage: int, tablePage: int)
      requires reviewsPerPage >= 1
      modifies this
      ensures var listed := Listed(rows, key, datetimeText);
        items == PageWindow(listed, tablePage, reviewsPerPage) &&
        totalItems == |listed| && perPage == reviewsPerPage &&
        totalPages == PageCount(|listed|, reviewsPerPage)
    {
      var tableData := TableData(rows, datetimeText);
      if !EmptyString(key) {
        tableData := FilterTableData(tableData, key);
      }
      items := PageWindow(tableData, tablePage, reviewsPerPage);
      totalItems := |tableData|;
      perPage := reviewsPerPage;
      totalPages := PageCount(totalItems, reviewsPerPage);
    }
  }

  /** The pages of the listing show every listed row once, in order, and
      each shows at most `per_page` of them. */
  lemma ListPagesCoverListing(rows: seq<ReviewRow>, key: string, datetimeText: string -> string,
                               reviewsPerPage: int, tablePage: int)
    requires reviewsPerPage >= 1
    ensures var listed := Listed(rows, key, datetimeText);
      PagesUpTo(listed, reviewsPerPage, PageCount(|listed|, reviewsPerPage)) == listed &&
      |PageWindow(listed, tablePage, reviewsPerPage)| <= reviewsPerPage
  {
    PagesShowEveryReview(Listed(rows, key, datetimeText), reviewsPerPage);
    PageWindowSize(Listed(rows, key, datetimeText), tablePage, reviewsPerPage);
  }
}
