/**
 * The plugin's two template parts: `reviews.php`, the section the
 * `[gmbc_reviews]` shortcode renders, and `review.php`, one review inside
 * it. Their HTML is reduced to the values they print.
 */
module TemplateParts {
  import opened Common
  import opened Text
  import opened GoogleApi
  import opened DBTables
  import opened Locations
  import opened Reviews
  import opened TemplateFunctions
  import opened ReviewsShortcode

  // -------------------------------------------------------------------------
  // review.php
  // -------------------------------------------------------------------------

  /** What `review.php` prints for one row; the `gmbc_review_classes` filter is not modelled. */
  datatype RenderedReview = RenderedReview(
    id: nat,
    photoUrl: string,
    displayName: string,
    stars: seq<Star>,
    elapsed: string,
    rating: string,
    comment: string)

  /** `review.php` with `$args` the row (None when unset or empty). The time
      since the review's `update_time` is given as the interval `DateTime::diff`
      yields. */
  method ReviewTemplate(args: Option<ReviewRow>, sinceUpdate: Interval) returns (out: Option<RenderedReview>)
    ensures out.None? <==> args.None?
    ensures out.Some? ==>
      var rating := args.value.content.starRating;
      out.value.stars == StarRow(if rating.Some? then rating.value else 0) &&
      out.value.rating == RatingText(rating) &&
      out.value.elapsed == ElapsedText(sinceUpdate, false) &&
      out.value.id == args.value.id && out.value.displayName == args.value.content.reviewerDisplayName &&
      out.value.photoUrl == args.value.content.profilePhotoUrl &&
      out.value.comment == (if args.value.content.comment.Some? then args.value.content.comment.value else "")
  {
    if args.None? {
      return None;
    }
    var row := args.value;
    // A null rating compares and subtracts as 0.
    var rating := if row.content.starRating.Some? then row.content.starRating.value else 0;
    var stars: seq<Star> := [];
    var i := 1;
    while i <= rating
      invariant 1 <= i <= (if rating > 0 then rating else 0) + 1
      invariant stars == Stars(SolidStar, i - 1)
    {
      stars := stars + [SolidStar];
      i := i + 1;
    }
    var solid := stars;
    if rating < 5 {
      var dif := 5 - rating;
      i := 1;
      while i <= dif
        invariant 1 <= i <= dif + 1
        invariant stars == solid + Stars(EmptyStar, i - 1)
      {
        stars := stars + [EmptyStar];
        i := i + 1;
      }
    }
    var elapsed := TimeElapsedString(sinceUpdate, false);
    out := Some(RenderedReview(row.id, row.content.profilePhotoUrl, row.content.reviewerDisplayName, stars,
                               elapsed, RatingText(row.content.starRating),
                               if row.content.comment.Some? then row.content.comment.value else ""));
  }

  /** A review's stars, solid ones first, five in all for a rating from 1 to 5. */
  lemma ReviewStarsFive(row: ReviewRow)
    requires row.content.starRating.Some? && 1 <= row.content.starRating.value <= 5
    ensures var stars := StarRow(row.content.starRating.value);
      |stars| == 5 &&
      forall k :: 0 <= k < 5 ==> (stars[k] == SolidStar <==> k < row.content.starRating.value)
  {
    StarRowOfRating(row.content.starRating.value);
  }

  // -------------------------------------------------------------------------
  // reviews.php
  // -------------------------------------------------------------------------

  /** The four properties `reviews.php` reads from an entry of `get_locations()`. */
  datatype TemplateLocation = TemplateLocation(name: string, title: string, newReviewUri: string, mapsUri: string)

  /** The entries `DBTables::get_locations` hands the template: stored rows,
      or the API objects a sync returned, which carry their links under
      `metadata` so that `new_review_uri` and `maps_uri` read as null. When
      the sync is not configured it returns null and the loop runs no round;
      the remaining outcomes never reach the loop (see `ReviewsTemplate`). */
  function TemplateLocations(listing: LocationsListing): seq<TemplateLocation>
  {
    match listing
    case StoredRows(rows) =>
      seq(|rows|, i requires 0 <= i < |rows| =>
        TemplateLocation(rows[i].content.name, rows[i].content.title, rows[i].content.newReviewUri, rows[i].content.mapsUri))
    case SyncedFromApi(LocationsFetched(ls)) =>
      seq(|ls|, i requires 0 <= i < |ls| => TemplateLocation(ls[i].name, ls[i].title, "", ""))
    case SyncedFromApi(_) => []
  }

  /** The first location whose name is identical to the saved `location_name`. */
  function FirstNamed(locations: seq<TemplateLocation>, locationName: Value): (r: Option<TemplateLocation>)
    ensures r.None? <==> forall i :: 0 <= i < |locations| ==> locationName != Str(locations[i].name)
    ensures r.Some? ==> exists i :: (0 <= i < |locations| && locations[i] == r.value &&
      locationName == Str(r.value.name) && forall j :: 0 <= j < i ==> locationName != Str(locations[j].name))
  {
    if |locations| == 0 then None
    else if locationName == Str(locations[0].name) then
      assert locations[0] == locations[0];
      Some(locations[0])
    else
      var r := FirstNamed(locations[1..], locationName);
      assert forall i :: 1 <= i < |locations| ==> locations[i] == locations[1..][i - 1];
      if r.Some? then
        var i :| 0 <= i < |locations[1..]| && locations[1..][i] == r.value &&
          locationName == Str(r.value.name) && forall j :: 0 <= j < i ==> locationName != Str(locations[1..][j].name);
        assert locations[i + 1] == r.value;
        r
      else r
  }

  /** The `foreach` with its `break`: None when no location matches, in
      which case the heading, review link and map link are never assigned. */
  method FindLocation(locations: seq<TemplateLocation>, locationName: Value) returns (found: Option<TemplateLocation>)
    ensures found == FirstNamed(locations, locationName)
  {
    found := None;
    var k := 0;
    while k < |locations|
      invariant 0 <= k <= |locations|
      invariant found.None? ==> FirstNamed(locations, locationName) == FirstNamed(locations[k..], locationName)
      invariant found.Some? ==> found == FirstNamed(locations, locationName)
      decreases |locations| - k, if found.None? then 1 else 0
    {
      assert locations[k..][1..] == locations[k + 1..];
      if locationName == Str(locations[k].name) {
        found := Some(locations[k]);
        break;
      }
      k := k + 1;
    }
  }

  /** The section id's suffix: element 1 of `location_name` split on '/',
      trimmed; "" when there is no such element. */
  function SectionSuffix(locationSettings: Option<Settings>): string
  {
    var parts := Split(ValueText(Lookup(locationSettings, "location_name")), "/");
    Part(seq(|parts|, i requires 0 <= i < |parts| => Trim(parts[i])), 1)
  }

  /** For a saved `locations/<id>`, the suffix is the id. */
  lemma SectionSuffixOfResourceName(id: string)
    requires forall i :: 0 <= i < |id| ==> id[i] != '/' && !IsTrimChar(id[i])
    ensures SectionSuffix(Some(map["location_name" := Str("locations/" + id)])) == id
  {
    assert "locations/" + id == "locations" + "/" + id;
    SplitAtFirst("locations", "/", id);
    SplitWithoutSeparator(id, "/");
    if |id| > 0 {
      TrimOfUntrimmed(id);
    }
  }

  lemma TrimOfUntrimmed(s: string)
    requires |s| > 0 && forall i :: 0 <= i < |s| ==> !IsTrimChar(s[i])
    ensures Trim(s) == s
  {
  }

  /** What `reviews.php` prints, and the reviews it renders with their schema. */
  datatype ReviewsSection = ReviewsSection(
    sectionSuffix: string,
    wrapperClass: string,
    location: Option<TemplateLocation>,
    averageRating: string,
    headerStars: seq<Star>,
    totalReviews: string,
    rendered: seq<ReviewRow>,
    schema: seq<ReviewSchema>,
    reviewsLinkClass: string,
    reviewsLinkText: string,
    pagination: PaginationLinks)

  /** How `reviews.php` ends: nothing printed (no reviews), the section, the
      exception a sync inside `get_locations` let through (nothing catches it
      there), or a sync whose paging loop does not end. */
  datatype ReviewsOutput =
    | Skipped
    | Section(section: ReviewsSection)
    | Uncaught(errors: seq<string>)
    | NeverEnds

  /** `reviews.php` for the shortcode's arguments; `listing` is what
      `get_locations` yields, `reviewsPage` the `reviews_page` request
      parameter, and the schema reads the `business_info` option and the site name. */
  method ReviewsTemplate(args: ShortcodeArgs, listing: LocationsListing, reviewsPage: Option<string>,
                         businessInfo: Option<Settings>, siteName: string)
    returns (out: ReviewsOutput)
    ensures out.Skipped? <==> |args.reviews| == 0
    ensures |args.reviews| > 0 && listing == SyncedFromApi(LocationsDiverged) ==> out.NeverEnds?
    ensures |args.reviews| > 0 && listing.SyncedFromApi? && listing.fetch.LocationsThrew? ==>
      out == Uncaught(listing.fetch.errors)
    ensures out.Section? ==>
      var s := out.section;
      var atts := Some(args.shortcodeArgs);
      !(listing.SyncedFromApi? && (listing.fetch.LocationsThrew? || listing.fetch.LocationsDiverged?)) &&
      s.sectionSuffix == SectionSuffix(args.locationSettings) &&
      s.wrapperClass == Trim(ValueText(Lookup(atts, "class"))) &&
      s.location == FirstNamed(TemplateLocations(listing), Lookup(args.locationSettings, "location_name")) &&
      s.averageRating == ValueText(Lookup(args.reviewSettings, "average_rating")) &&
      s.headerStars == StarRow(RoundedRating(Lookup(args.reviewSettings, "average_rating"))) &&
      s.totalReviews == ValueText(Lookup(args.reviewSettings, "total_review_count")) &&
      s.rendered == PageWindow(args.reviews, RequestedPage(reviewsPage), PerPage(atts)) &&
      |s.schema| == |s.rendered| &&
      s.reviewsLinkClass == ValueText(Lookup(atts, "reviews_link_class")) &&
      s.reviewsLinkText == LinkText(atts, "reviews_link_text", "Write a Review") &&
      s.pagination == ReviewPagination(atts, |args.reviews|, reviewsPage)
  {
    if |args.reviews| == 0 {
      return Skipped;
    }
    if listing.SyncedFromApi? {
      match listing.fetch {
        case LocationsThrew(e) => return Uncaught(e);
        case LocationsDiverged => return NeverEnds;
        case _ =>
      }
    }
    var atts := Some(args.shortcodeArgs);
    var suffix := SectionSuffix(args.locationSettings);
    var location := FindLocation(TemplateLocations(listing), Lookup(args.locationSettings, "location_name"));
    var stars := GetStars(args.reviewSettings);
    var rendered, schema := CurrentReviews(args.reviews, atts, reviewsPage, businessInfo, siteName);
    out := Section(ReviewsSection(
      suffix,
      Trim(ValueText(Lookup(atts, "class"))),
      location,
      ValueText(Lookup(args.reviewSettings, "average_rating")),
      stars,
      ValueText(Lookup(args.reviewSettings, "total_review_count")),
      rendered,
      schema,
      ValueText(Lookup(atts, "reviews_link_class")),
      LinkText(atts, "reviews_link_text", "Write a Review"),
      ReviewPagination(atts, |args.reviews|, reviewsPage)));
  }

  /** Without a `reviews_link_text` attribute the link reads "Write a Review". */
  lemma DefaultReviewsLinkText(atts: Atts)
    requires "reviews_link_text" !in atts || EmptyValue(atts["reviews_link_text"])
    ensures LinkText(Some(atts), "reviews_link_text", "Write a Review") == "Write a Review"
  {
  }
}
