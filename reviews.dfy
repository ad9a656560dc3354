/**
 * `GMBConnect\Reviews`: syncing the selected location's reviews into
 * `gmbc_reviews`, the two option-change hooks, and the per-review schema.
 */
module Reviews {
  import opened Common
  import opened Text
  import opened GoogleApi
  import opened Credentials
  import opened DBTables
  import opened Paging
  import opened Locations
  import opened WpCron

  // -------------------------------------------------------------------------
  // Star words
  // -------------------------------------------------------------------------

  /** The `switch` on `starRating`: the five enum words and nothing else. */
  function StarValue(word: string): (r: Option<int>)
    ensures r.Some? <==> word in {"ONE", "TWO", "THREE", "FOUR", "FIVE"}
    ensures r.Some? ==> 1 <= r.value <= 5
  {
    if word == "ONE" then Some(1)
    else if word == "TWO" then Some(2)
    else if word == "THREE" then Some(3)
    else if word == "FOUR" then Some(4)
    else if word == "FIVE" then Some(5)
    else None
  }

  /** `$the_rating` once the switch has run for the last of `rs`. The variable
      is never reset between reviews, so a word the switch does not know keeps
      the previous review's rating; before any rating it is null (None). */
  function CarriedRating(rs: seq<ApiReview>): Option<int>
  {
    if |rs| == 0 then None
    else
      match StarValue(rs[|rs| - 1].starRating)
      case Some(v) => Some(v)
      case None => CarriedRating(rs[..|rs| - 1])
  }

  /** The carried rating is the value of the last review whose word the switch
      knows, and null when there is none. */
  lemma CarriedRatingIsLastKnown(rs: seq<ApiReview>)
    ensures CarriedRating(rs).None? <==> forall i :: 0 <= i < |rs| ==> StarValue(rs[i].starRating).None?
    ensures CarriedRating(rs).Some? ==>
      exists i :: 0 <= i < |rs| && CarriedRating(rs) == StarValue(rs[i].starRating) &&
        forall j :: i < j < |rs| ==> StarValue(rs[j].starRating).None?
  {
    CarriedRatingNull(rs);
    if CarriedRating(rs).Some? {
      var i := CarriedRatingSource(rs);
    }
  }

  lemma {:induction false} CarriedRatingNull(rs: seq<ApiReview>)
    ensures CarriedRating(rs).None? <==> forall i :: 0 <= i < |rs| ==> StarValue(rs[i].starRating).None?
    decreases |rs|
  {
    if |rs| > 0 {
      var init := rs[..|rs| - 1];
      CarriedRatingNull(init);
      assert forall i :: 0 <= i < |init| ==> rs[i] == init[i];
    }
  }

  /** The index of the review whose rating is carried. */
  lemma {:induction false} CarriedRatingSource(rs: seq<ApiReview>) returns (i: nat)
    requires CarriedRating(rs).Some?
    ensures i < |rs| && CarriedRating(rs) == StarValue(rs[i].starRating)
    ensures forall j :: i < j < |rs| ==> StarValue(rs[j].starRating).None?
    decreases |rs|
  {
    if StarValue(rs[|rs| - 1].starRating).Some? {
      i := |rs| - 1;
    } else {
      var init := rs[..|rs| - 1];
      i := CarriedRatingSource(init);
      assert forall j :: 0 <= j < |init| ==> rs[j] == init[j];
    }
  }

  // -------------------------------------------------------------------------
  // Upserting reviews
  // -------------------------------------------------------------------------

  /** The seven columns written for review `rv` with the rating in hand. */
  function ContentOf(rv: ApiReview, rating: Option<int>): ReviewContent
  {
    ReviewContent(rv.name, rv.reviewId, rv.comment, rating, rv.updateTime,
                  rv.reviewer.displayName, rv.reviewer.profilePhotoUrl)
  }

  /** The columns written for each fetched review, in order. */
  function ReviewContents(rs: seq<ApiReview>): (cs: seq<ReviewContent>)
    ensures |cs| == |rs|
    ensures forall i :: 0 <= i < |rs| ==> cs[i].reviewId == rs[i].reviewId
  {
    seq(|rs|, i requires 0 <= i < |rs| => ContentOf(rs[i], CarriedRating(rs[..i + 1])))
  }

  /** One pass of the `foreach`: exactly one write, an update when
      `check_synced_reviews` finds the id and an insert otherwise. */
  function Upsert(t: ReviewTable, c: ReviewContent): ReviewTable
  {
    if |SelectReviewIds(t.rows, c.reviewId)| > 0 then ReviewsUpdated(t, c) else ReviewInserted(t, c)
  }

  function UpsertAll(t: ReviewTable, cs: seq<ReviewContent>): ReviewTable
  {
    if |cs| == 0 then t else Upsert(UpsertAll(t, cs[..|cs| - 1]), cs[|cs| - 1])
  }

  /** The last content in `cs` carrying review id `id`. */
  function LastFor(cs: seq<ReviewContent>, id: string): (r: Option<ReviewContent>)
    ensures r.Some? ==> r.value.reviewId == id && r.value in cs
    ensures r.None? ==> forall c :: c in cs ==> c.reviewId != id
  {
    if |cs| == 0 then None
    else if cs[|cs| - 1].reviewId == id then Some(cs[|cs| - 1])
    else
      var r := LastFor(cs[..|cs| - 1], id);
      assert forall c :: c in cs ==> c in cs[..|cs| - 1] || c == cs[|cs| - 1];
      r
  }

  /** A stored row after the batch `cs`: its content is the last one written
      for its review id, if any; key and `is_hidden` stay. */
  function Refreshed(row: ReviewRow, cs: seq<ReviewContent>): (r: ReviewRow)
    ensures r.id == row.id && r.isHidden == row.isHidden
    ensures r.content.reviewId == row.content.reviewId
  {
    match LastFor(cs, row.content.reviewId)
    case None => row
    case Some(c) => row.(content := c)
  }

  /** A row the batch `cs` appended to `t` as its `n`-th new row. */
  ghost predicate NewRow(t: ReviewTable, cs: seq<ReviewContent>, row: ReviewRow, n: nat)
  {
    row.id == t.nextId + n && !row.isHidden &&
    LastFor(cs, row.content.reviewId) == Some(row.content) &&
    !HasReview(t.rows, row.content.reviewId)
  }

  /** Every row of `t` is still in place in `r`, with its key and `is_hidden`,
      refreshed to the last content the batch wrote for its id. */
  ghost predicate OldRowsRefreshed(t: ReviewTable, cs: seq<ReviewContent>, r: ReviewTable)
  {
    |t.rows| <= |r.rows| &&
    forall i :: 0 <= i < |t.rows| ==> r.rows[i] == Refreshed(t.rows[i], cs)
  }

  /** After the old rows come the new ones: keyed by the AUTO_INCREMENT
      counter, visible, each holding the last content for an id `t` lacked,
      and no id twice. */
  ghost predicate NewRowsAppended(t: ReviewTable, cs: seq<ReviewContent>, r: ReviewTable)
  {
    |t.rows| <= |r.rows| &&
    r.nextId == t.nextId + (|r.rows| - |t.rows|) &&
    (forall j :: |t.rows| <= j < |r.rows| ==> NewRow(t, cs, r.rows[j], j - |t.rows|)) &&
    (forall j, k :: |t.rows| <= j < k < |r.rows| ==> r.rows[j].content.reviewId != r.rows[k].content.reviewId)
  }

  /** Every review id of the batch is stored. */
  ghost predicate StoresAll(cs: seq<ReviewContent>, rows: seq<ReviewRow>)
  {
    forall c :: c in cs ==> HasReview(rows, c.reviewId)
  }

  /** `r` is what upserting the batch `cs` into `t` must give. */
  ghost predicate UpsertedFrom(t: ReviewTable, cs: seq<ReviewContent>, r: ReviewTable)
  {
    OldRowsRefreshed(t, cs, r) && NewRowsAppended(t, cs, r) && StoresAll(cs, r.rows)
  }

  lemma LastForSnoc(cs: seq<ReviewContent>, c: ReviewContent, id: string)
    ensures LastFor(cs + [c], id) == if id == c.reviewId then Some(c) else LastFor(cs, id)
  {
    assert (cs + [c])[..|cs|] == cs;
  }

  lemma RefreshedSnoc(row: ReviewRow, cs: seq<ReviewContent>, c: ReviewContent)
    ensures Refreshed(row, cs + [c]) ==
      if row.content.reviewId == c.reviewId then row.(content := c) else Refreshed(row, cs)
  {
    LastForSnoc(cs, c, row.content.reviewId);
  }

  lemma UpdateKeepsOldRows(t: ReviewTable, cs: seq<ReviewContent>, c: ReviewContent, r: ReviewTable)
    requires OldRowsRefreshed(t, cs, r)
    ensures OldRowsRefreshed(t, cs + [c], ReviewsUpdated(r, c))
  {
    var r' := ReviewsUpdated(r, c);
    forall i | 0 <= i < |t.rows|
      ensures r'.rows[i] == Refreshed(t.rows[i], cs + [c])
    {
      RefreshedSnoc(t.rows[i], cs, c);
      assert r'.rows[i] == UpdatedReviewRow(r.rows[i], c);
    }
  }

  lemma UpdateKeepsNewRows(t: ReviewTable, cs: seq<ReviewContent>, c: ReviewContent, r: ReviewTable)
    requires NewRowsAppended(t, cs, r)
    ensures NewRowsAppended(t, cs + [c], ReviewsUpdated(r, c))
  {
    var r' := ReviewsUpdated(r, c);
    var n := |t.rows|;
    forall j | n <= j < |r'.rows|
      ensures NewRow(t, cs + [c], r'.rows[j], j - n)
    {
      assert NewRow(t, cs, r.rows[j], j - n);
      LastForSnoc(cs, c, r.rows[j].content.reviewId);
      assert r'.rows[j] == UpdatedReviewRow(r.rows[j], c);
    }
  }

  lemma UpdateStoresAll(cs: seq<ReviewContent>, c: ReviewContent, r: ReviewTable)
    requires StoresAll(cs, r.rows) && HasReview(r.rows, c.reviewId)
    ensures StoresAll(cs + [c], ReviewsUpdated(r, c).rows)
  {
    var r' := ReviewsUpdated(r, c);
    forall x | x in cs + [c]
      ensures HasReview(r'.rows, x.reviewId)
    {
      var i :| 0 <= i < |r.rows| && r.rows[i].content.reviewId == x.reviewId;
      assert r'.rows[i].content.reviewId == x.reviewId;
    }
  }

  lemma InsertKeepsOldRows(t: ReviewTable, cs: seq<ReviewContent>, c: ReviewContent, r: ReviewTable)
    requires OldRowsRefreshed(t, cs, r) && !HasReview(r.rows, c.reviewId)
    ensures OldRowsRefreshed(t, cs + [c], ReviewInserted(r, c))
  {
    var r' := ReviewInserted(r, c);
    forall i | 0 <= i < |t.rows|
      ensures r'.rows[i] == Refreshed(t.rows[i], cs + [c])
    {
      RefreshedSnoc(t.rows[i], cs, c);
      assert r.rows[i].content.reviewId != c.reviewId;
    }
  }

  lemma InsertAppendsNewRow(t: ReviewTable, cs: seq<ReviewContent>, c: ReviewContent, r: ReviewTable)
    requires OldRowsRefreshed(t, cs, r) && NewRowsAppended(t, cs, r) && !HasReview(r.rows, c.reviewId)
    ensures NewRowsAppended(t, cs + [c], ReviewInserted(r, c))
  {
    var r' := ReviewInserted(r, c);
    var n := |t.rows|;
    assert !HasReview(t.rows, c.reviewId) by {
      forall i | 0 <= i < n
        ensures t.rows[i].content.reviewId != c.reviewId
      {
        assert r.rows[i] == Refreshed(t.rows[i], cs);
        assert r.rows[i].content.reviewId != c.reviewId;
      }
    }
    forall j | n <= j < |r'.rows|
      ensures NewRow(t, cs + [c], r'.rows[j], j - n)
    {
      if j < |r.rows| {
        assert NewRow(t, cs, r.rows[j], j - n);
        assert r.rows[j].content.reviewId != c.reviewId;
        LastForSnoc(cs, c, r.rows[j].content.reviewId);
      } else {
        LastForSnoc(cs, c, c.reviewId);
      }
    }
    forall j, k | n <= j < k < |r'.rows|
      ensures r'.rows[j].content.reviewId != r'.rows[k].content.reviewId
    {
      if k == |r.rows| {
        assert r.rows[j].content.reviewId != c.reviewId;
      }
    }
  }

  lemma InsertStoresAll(cs: seq<ReviewContent>, c: ReviewContent, r: ReviewTable)
    requires StoresAll(cs, r.rows)
    ensures StoresAll(cs + [c], ReviewInserted(r, c).rows)
  {
    var r' := ReviewInserted(r, c);
    forall x | x in cs + [c]
      ensures HasReview(r'.rows, x.reviewId)
    {
      if x in cs {
        var i :| 0 <= i < |r.rows| && r.rows[i].content.reviewId == x.reviewId;
        assert r'.rows[i] == r.rows[i];
      } else {
        assert r'.rows[|r.rows|].content.reviewId == x.reviewId;
      }
    }
  }

  lemma UpsertStep(t: ReviewTable, cs: seq<ReviewContent>, c: ReviewContent, r: ReviewTable)
    requires UpsertedFrom(t, cs, r)
    ensures UpsertedFrom(t, cs + [c], Upsert(r, c))
  {
    if HasReview(r.rows, c.reviewId) {
      UpdateKeepsOldRows(t, cs, c, r);
      UpdateKeepsNewRows(t, cs, c, r);
      UpdateStoresAll(cs, c, r);
    } else {
      InsertKeepsOldRows(t, cs, c, r);
      InsertAppendsNewRow(t, cs, c, r);
      InsertStoresAll(cs, c, r);
    }
  }

  lemma UpsertAllSnoc(t: ReviewTable, cs: seq<ReviewContent>, c: ReviewContent)
    ensures UpsertAll(t, cs + [c]) == Upsert(UpsertAll(t, cs), c)
  {
    assert (cs + [c])[..|cs|] == cs;
  }

  /** Upserting a batch does exactly what `UpsertedFrom` describes. */
  lemma {:induction false} UpsertAllCharacterised(t: ReviewTable, cs: seq<ReviewContent>)
    ensures UpsertedFrom(t, cs, UpsertAll(t, cs))
    decreases |cs|
  {
    if |cs| == 0 {
      forall i | 0 <= i < |t.rows|
        ensures t.rows[i] == Refreshed(t.rows[i], cs)
      {
      }
    } else {
      var init := cs[..|cs| - 1];
      var last := cs[|cs| - 1];
      assert init + [last] == cs;
      UpsertAllCharacterised(t, init);
      UpsertAllSnoc(t, init, last);
      UpsertStep(t, init, last, UpsertAll(t, init));
    }
  }

  /** When every id of the batch is already stored, upserting it only updates:
      no row is added and every row keeps its key and review id. */
  lemma {:induction false} StoredBatchOnlyUpdates(t: ReviewTable, cs: seq<ReviewContent>)
    requires StoresAll(cs, t.rows)
    ensures |UpsertAll(t, cs).rows| == |t.rows| && UpsertAll(t, cs).nextId == t.nextId
    ensures forall i :: 0 <= i < |t.rows| ==>
      UpsertAll(t, cs).rows[i].content.reviewId == t.rows[i].content.reviewId
    decreases |cs|
  {
    if |cs| > 0 {
      var init := cs[..|cs| - 1];
      var c := cs[|cs| - 1];
      StoredBatchOnlyUpdates(t, init);
      var mid := UpsertAll(t, init);
      var i :| 0 <= i < |t.rows| && t.rows[i].content.reviewId == c.reviewId;
      assert mid.rows[i].content.reviewId == c.reviewId;
    }
  }

  lemma RefreshedTwice(row: ReviewRow, cs: seq<ReviewContent>)
    ensures Refreshed(Refreshed(row, cs), cs) == Refreshed(row, cs)
  {
  }

  /** Syncing the same batch twice leaves the table as one sync left it: no
      duplicates are inserted the second time and no content changes. */
  lemma UpsertAllIdempotent(t: ReviewTable, cs: seq<ReviewContent>)
    ensures UpsertAll(UpsertAll(t, cs), cs) == UpsertAll(t, cs)
  {
    var r := UpsertAll(t, cs);
    var r' := UpsertAll(r, cs);
    UpsertAllCharacterised(t, cs);
    UpsertAllCharacterised(r, cs);
    StoredBatchOnlyUpdates(r, cs);
    forall i | 0 <= i < |r.rows|
      ensures r'.rows[i] == r.rows[i]
    {
      assert r'.rows[i] == Refreshed(r.rows[i], cs);
      if i < |t.rows| {
        assert r.rows[i] == Refreshed(t.rows[i], cs);
        RefreshedTwice(t.rows[i], cs);
      } else {
        assert NewRow(t, cs, r.rows[i], i - |t.rows|);
      }
    }
    assert r'.rows == r.rows;
  }

  /** One more fetched review adds one content, rated with the carried rating. */
  lemma ReviewContentsSnoc(rs: seq<ApiReview>, i: nat)
    requires i < |rs|
    ensures ReviewContents(rs[..i + 1]) == ReviewContents(rs[..i]) + [ContentOf(rs[i], CarriedRating(rs[..i + 1]))]
    ensures CarriedRating(rs[..i + 1]) ==
      (if StarValue(rs[i].starRating).Some? then StarValue(rs[i].starRating) else CarriedRating(rs[..i]))
  {
    CarriedRatingStep(rs, i);
    var a := ReviewContents(rs[..i + 1]);
    var b := ReviewContents(rs[..i]) + [ContentOf(rs[i], CarriedRating(rs[..i + 1]))];
    forall k | 0 <= k < |a|
      ensures a[k] == b[k]
    {
      ReviewContentsAt(rs, i + 1, k);
      if k < i {
        ReviewContentsAt(rs, i, k);
      }
    }
  }

  lemma CarriedRatingStep(rs: seq<ApiReview>, i: nat)
    requires i < |rs|
    ensures CarriedRating(rs[..i + 1]) ==
      (if StarValue(rs[i].starRating).Some? then StarValue(rs[i].starRating) else CarriedRating(rs[..i]))
  {
    assert rs[..i + 1][..i] == rs[..i];
  }

  /** Entry `k` of the contents written for a prefix of `rs`. */
  lemma ReviewContentsAt(rs: seq<ApiReview>, n: nat, k: nat)
    requires k < n <= |rs|
    ensures ReviewContents(rs[..n])[k] == ContentOf(rs[k], CarriedRating(rs[..k + 1]))
  {
    assert rs[..n][..k + 1] == rs[..k + 1];
  }

  /** The `foreach` over the fetched reviews, carrying `$the_rating` across
      iterations and calling `check_synced_reviews` before each write. */
  method StoreReviews(db: Database, rs: seq<ApiReview>)
    modifies db
    ensures db.reviews == UpsertAll(old(db.reviews), ReviewContents(rs))
    ensures db.locations == old(db.locations)
  {
    var rating: Option<int> := None;
    var i := 0;
    while i < |rs|
      invariant 0 <= i <= |rs|
      invariant rating == CarriedRating(rs[..i])
      invariant db.reviews == UpsertAll(old(db.reviews), ReviewContents(rs[..i]))
      invariant db.locations == old(db.locations)
    {
      var rv := rs[i];
      var known := StarValue(rv.starRating);
      if known.Some? {
        rating := known;
      }
      ReviewContentsSnoc(rs, i);
      var c := ContentOf(rv, rating);
      UpsertAllSnoc(old(db.reviews), ReviewContents(rs[..i]), c);
      var existing := db.CheckSyncedReviews(rv.reviewId);
      if existing.Some? {
        db.UpdateReview(c);
      } else {
        db.InsertReview(c);
      }
      i := i + 1;
    }
    assert rs[..i] == rs;
  }

  // -------------------------------------------------------------------------
  // sync_reviews
  // -------------------------------------------------------------------------

  const SyncedMessage := "GMB Connect reviews have been synced."
  const SyncFailedMessage := "There was an error while syncing the reviews. Please check your Client Credentials and try again."

  /** The `$response` array: a message, and `errors` when an exception was caught. */
  datatype SyncResponse = SyncResponse(message: string, errors: Option<seq<string>>)

  function Succeeded(): SyncResponse
  {
    SyncResponse(SyncedMessage, None)
  }

  function Failed(errors: seq<string>): SyncResponse
  {
    SyncResponse(SyncFailedMessage, Some(errors))
  }

  /** How a sync ends: the request finishes with the new `gmbc_reviews`
      option, the response and whether it was sent as JSON; or a paging loop
      never ends. */
  datatype SyncOutcome =
    | Finished(settings: Settings, response: SyncResponse, sentAsJson: bool)
    | Diverged

  /** `$is_ajax`: a posted `is_ajax` overrides the argument, cast to bool. */
  function IsAjax(isAjaxArg: bool, postIsAjax: Option<string>): bool
  {
    if postIsAjax.Some? then !EmptyString(postIsAjax.value) else isAjaxArg
  }

  /** `$gmb_accounts[0]->name . '/' . $location`. */
  function Parent(accounts: seq<string>, location: string): string
  {
    FirstAccountName(accounts) + "/" + location
  }

  /** The `gmbc_reviews` option after a sync, from the option as read (`false`
      acts as an empty array) and the last reviews page in hand (None when no
      page was fetched: `$gmb_reviews` is undefined and reads as null). */
  function Settled(reviewSettings: Option<Settings>, now: string, last: Option<ReviewsPage>): (s: Settings)
    ensures s.Keys == (if reviewSettings.Some? then reviewSettings.value.Keys else {}) +
      {"last_synced_on", "average_rating", "total_review_count"}
    ensures s["last_synced_on"] == Str(now)
    ensures s["average_rating"] == Dec1(if last.Some? then last.value.aggregate else 0)
    ensures s["total_review_count"] == (if last.Some? then Int(last.value.total) else Null)
    ensures forall k :: (reviewSettings.Some? && k in reviewSettings.value &&
      k !in {"last_synced_on", "average_rating", "total_review_count"}) ==> s[k] == reviewSettings.value[k]
  {
    var base := if reviewSettings.Some? then reviewSettings.value else map[];
    base["last_synced_on" := Str(now)]
        ["average_rating" := Dec1(if last.Some? then last.value.aggregate else 0)]
        ["total_review_count" := if last.Some? then Int(last.value.total) else Null]
  }

  /** `sync_reviews`. The Google services are given as the accounts listing
      and the two list calls; `now` is `current_time('Y-m-d H:i:s')`; `fuel`
      bounds each paging loop; `followLocationTokens` is the `followTokens`
      of the `sync_locations` it runs (false as written). */
  method SyncReviews(db: Database, accounts: Response<seq<string>>,
                     listReviews: string -> Lister<ApiReview, int>,
                     listLocations: string -> Lister<ApiLocation, ()>,
                     creds: Option<Creds>, locationSettings: Option<Settings>, reviewSettings: Option<Settings>,
                     now: string, isAjaxArg: bool, postIsAjax: Option<string>,
                     followLocationTokens: bool, fuel: nat)
    returns (outcome: SyncOutcome)
    modifies db
    ensures outcome.Finished? ==> outcome.sentAsJson == IsAjax(isAjaxArg, postIsAjax)
    ensures accounts.Thrown? ==>
      outcome == Finished(Settled(reviewSettings, now, None), Failed(accounts.errors), IsAjax(isAjaxArg, postIsAjax)) &&
      db.reviews == old(db.reviews) && db.locations == old(db.locations)
    ensures accounts.Ok? ==>
      var list := listReviews(Parent(accounts.value, ValueText(Lookup(locationSettings, "location_name"))));
      match list(None)
      case Thrown(e) =>
        outcome == Finished(Settled(reviewSettings, now, None), Failed(e), IsAjax(isAjaxArg, postIsAjax)) &&
        db.reviews == old(db.reviews) && db.locations == old(db.locations)
      case Ok(first) =>
        var located := FetchLocations(creds, accounts, listLocations, followLocationTokens, fuel);
        db.locations == (if located.LocationsFetched? then UpsertLocations(old(db.locations), located.locations)
                         else old(db.locations)) &&
        match located
        case LocationsThrew(e) =>
          outcome == Finished(Settled(reviewSettings, now, Some(first)), Failed(e), IsAjax(isAjaxArg, postIsAjax)) &&
          db.reviews == old(db.reviews)
        case LocationsDiverged =>
          outcome == Diverged && db.reviews == old(db.reviews)
        case _ =>
          match Collect(list, true, [], first, fuel)
          case Collected(items, last) =>
            outcome == Finished(Settled(reviewSettings, now, Some(last)), Succeeded(), IsAjax(isAjaxArg, postIsAjax)) &&
            db.reviews == UpsertAll(old(db.reviews), ReviewContents(items))
          case PageFailed(e, last) =>
            outcome == Finished(Settled(reviewSettings, now, Some(last)), Failed(e), IsAjax(isAjaxArg, postIsAjax)) &&
            db.reviews == old(db.reviews)
          case OutOfFuel =>
            outcome == Diverged && db.reviews == old(db.reviews)
  {
    var isAjax := IsAjax(isAjaxArg, postIsAjax);
    var location := ValueText(Lookup(locationSettings, "location_name"));
    var last: Option<ReviewsPage> := None;
    var response: SyncResponse;
    match accounts {
      case Thrown(e) =>
        response := Failed(e);
      case Ok(names) =>
        var list := listReviews(Parent(names, location));
        var firstResponse := list(None);
        match firstResponse {
          case Thrown(e) =>
            response := Failed(e);
          case Ok(first) =>
            last := Some(first);
            var located := SyncLocations(db, creds, accounts, listLocations, followLocationTokens, fuel);
            if located.LocationsThrew? {
              response := Failed(located.errors);
            } else if located.LocationsDiverged? {
              return Diverged;
            } else {
              var paged := CollectPages(list, true, first, fuel);
              match paged {
                case Collected(items, l) =>
                  last := Some(l);
                  StoreReviews(db, items);
                  response := Succeeded();
                case PageFailed(e, l) =>
                  last := Some(l);
                  response := Failed(e);
                case OutOfFuel =>
                  return Diverged;
              }
            }
        }
    }
    outcome := Finished(Settled(reviewSettings, now, last), response, isAjax);
  }

  /** After upserting a batch, every review id of the batch is stored. */
  lemma UpsertAllStoresEvery(t: ReviewTable, cs: seq<ReviewContent>)
    ensures StoresAll(cs, UpsertAll(t, cs).rows)
  {
    UpsertAllCharacterised(t, cs);
  }

  /** With the reviews listing serving `pages`, the paging loop gathers every
      review of every page once, and storing them leaves each one's id in the table. */
  lemma SyncStoresEveryServedReview(list: Lister<ApiReview, int>, pages: seq<ReviewsPage>, fuel: nat, t: ReviewTable)
    requires Serves(list, pages)
    requires fuel >= |pages|
    ensures Collect(list, true, [], pages[0], fuel) == Collected(Flatten(pages), pages[0])
    ensures forall rv :: rv in Flatten(pages) ==>
      HasReview(UpsertAll(t, ReviewContents(Flatten(pages))).rows, rv.reviewId)
  {
    FollowingTokensCollectsEveryPage(list, pages, fuel);
    StoresEveryReview(t, Flatten(pages));
  }

  /** Storing fetched reviews leaves each one's id in the table. */
  lemma StoresEveryReview(t: ReviewTable, rs: seq<ApiReview>)
    ensures forall rv :: rv in rs ==> HasReview(UpsertAll(t, ReviewContents(rs)).rows, rv.reviewId)
  {
    var cs := ReviewContents(rs);
    UpsertAllStoresEvery(t, cs);
    forall rv | rv in rs
      ensures HasReview(UpsertAll(t, cs).rows, rv.reviewId)
    {
      var i :| 0 <= i < |rs| && rs[i] == rv;
      assert cs[i] in cs && cs[i].reviewId == rv.reviewId;
    }
  }

  // -------------------------------------------------------------------------
  // Option-change hooks
  // -------------------------------------------------------------------------

  const SyncHook := "gmbc_reviews_sync_cron"

  /** The condition of `reviews_sync_cron_job`: the old `update_frequency` is
      set and not identical to the new one. */
  predicate FrequencyChanged(oldValue: Option<Settings>, value: Option<Settings>)
  {
    IsSet(oldValue, "update_frequency") && Lookup(oldValue, "update_frequency") != Lookup(value, "update_frequency")
  }

  /** `reviews_sync_cron_job`: on a changed frequency, drop the scheduled sync
      if there is one and schedule it again from `now` with the new
      recurrence; otherwise leave every event alone. */
  method ReviewsSyncCronJob(cron: Scheduler, oldValue: Option<Settings>, value: Option<Settings>, now: int)
    modifies cron
    ensures FrequencyChanged(oldValue, value) ==>
      cron.events == old(cron.events)[SyncHook := Event(now, Lookup(value, "update_frequency"))]
    ensures !FrequencyChanged(oldValue, value) ==> cron.events == old(cron.events)
  {
    if FrequencyChanged(oldValue, value) {
      var scheduled := cron.NextScheduled(SyncHook);
      if scheduled.Some? {
        cron.Unschedule(SyncHook);
      }
      cron.Schedule(now, Lookup(value, "update_frequency"), SyncHook);
    }
  }

  /** The condition of `gmbc_location_changed`: an old value exists, its
      `location_name` is set and non-empty, and the new one is not identical. */
  predicate LocationChanged(oldValue: Option<Settings>, value: Option<Settings>)
  {
    oldValue.Some? && IsSet(oldValue, "location_name") && !EmptyValue(Lookup(oldValue, "location_name")) &&
    Lookup(oldValue, "location_name") != Lookup(value, "location_name")
  }

  /** `gmbc_location_changed`: truncate the reviews of the previous location. */
  method GmbcLocationChanged(db: Database, oldValue: Option<Settings>, value: Option<Settings>)
    modifies db
    ensures db.reviews == (if LocationChanged(oldValue, value) then NoReviews else old(db.reviews))
    ensures db.locations == old(db.locations)
  {
    if LocationChanged(oldValue, value) {
      db.RemoveReviews();
    }
  }

  // -------------------------------------------------------------------------
  // build_reviews_schema
  // -------------------------------------------------------------------------

  /** The `itemReviewed` part of an entry (`@type` LocalBusiness with a
      PostalAddress), read from the `business_info` option and the site name. */
  datatype Business = Business(
    image: Value, name: string, priceRange: Value, telephone: Value,
    streetAddress: Value, addressLocality: Value, addressRegion: Value,
    postalCode: Value, addressCountry: Value)

  function BusinessOf(info: Option<Settings>, siteName: string): Business
  {
    Business(Lookup(info, "logo_url"), siteName, Lookup(info, "price_range"), Lookup(info, "phone"),
             Lookup(info, "street_address"), Lookup(info, "city"), Lookup(info, "state"),
             Lookup(info, "zip"), Lookup(info, "country"))
  }

  /** One schema.org `Review` entry; the fixed `@context` and `@type` keys are
      left implicit. */
  datatype ReviewSchema = ReviewSchema(
    itemReviewed: Business,
    authorName: string,
    ratingValue: string,
    bestRating: string,
    worstRating: string,
    reviewBody: Option<string>)

  /** `(string) $review->star_rating`: a null rating casts to "". */
  function RatingText(rating: Option<int>): string
  {
    if rating.Some? then IntToString(rating.value) else ""
  }

  /** `$review->comment != null` is a loose comparison: "" counts as null. */
  predicate HasComment(comment: Option<string>)
  {
    comment.Some? && comment.value != ""
  }

  /** `build_reviews_schema`: one entry per review, under the same index. */
  method BuildReviewsSchema(reviews: seq<ReviewRow>, info: Option<Settings>, siteName: string)
    returns (schema: seq<ReviewSchema>)
    ensures |schema| == |reviews|
    ensures forall i :: 0 <= i < |reviews| ==>
      schema[i].itemReviewed == BusinessOf(info, siteName) &&
      schema[i].authorName == reviews[i].content.reviewerDisplayName &&
      schema[i].ratingValue == RatingText(reviews[i].content.starRating) &&
      schema[i].bestRating == "5" && schema[i].worstRating == "1" &&
      (schema[i].reviewBody.Some? <==> HasComment(reviews[i].content.comment)) &&
      (schema[i].reviewBody.Some? ==> schema[i].reviewBody == reviews[i].content.comment)
  {
    var business := BusinessOf(info, siteName);
    schema := [];
    for i := 0 to |reviews|
      invariant |schema| == i
      invariant forall k :: 0 <= k < i ==>
        schema[k].itemReviewed == business &&
        schema[k].authorName == reviews[k].content.reviewerDisplayName &&
        schema[k].ratingValue == RatingText(reviews[k].content.starRating) &&
        schema[k].bestRating == "5" && schema[k].worstRating == "1" &&
        (schema[k].reviewBody.Some? <==> HasComment(reviews[k].content.comment)) &&
        (schema[k].reviewBody.Some? ==> schema[k].reviewBody == reviews[k].content.comment)
    {
      var review := reviews[i];
      var entry := ReviewSchema(business, review.content.reviewerDisplayName,
                                RatingText(review.content.starRating), "5", "1", None);
      if HasComment(review.content.comment) {
        entry := entry.(reviewBody := review.content.comment);
      }
      schema := schema + [entry];
    }
  }
}
