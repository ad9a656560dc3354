/**
 * The global template helpers of `gmbc-functions.php`: finding a template
 * part in the child theme, the parent theme or the plugin, the "time ago"
 * text, the pagination links, the slice of reviews a page shows, and the
 * star row. The file system is the set of paths that exist, and the
 * request's `reviews_page` parameter is an argument.
 */
module TemplateFunctions {
  import opened Common
  import opened Text
  import opened DBTables
  import opened Reviews

  // -------------------------------------------------------------------------
  // gmbc_get_template_part / gmbc_locate_template
  // -------------------------------------------------------------------------

  /** The three directories a template is looked for in. */
  datatype TemplateDirs = TemplateDirs(stylesheet: string, template: string, pluginPath: string)

  /** `gmbc_get_template_dir`. */
  function TemplateDir(pluginPath: string): string
  {
    TrailingSlashIt(pluginPath) + "src/template-parts"
  }

  /** The file names `gmbc_get_template_part` asks for: the named variant
      first whenever a name is set, even an empty one. */
  function TemplateCandidates(slug: string, name: Option<string>): (names: seq<string>)
    ensures |names| == (if name.Some? then 2 else 1)
    ensures names[|names| - 1] == slug + ".php"
    ensures name.Some? ==> names[0] == slug + "-" + name.value + ".php"
  {
    (if name.Some? then [slug + "-" + name.value + ".php"] else []) + [slug + ".php"]
  }

  /** The child-theme, parent-theme and plugin paths tried for one name, in that order. */
  function SearchPaths(dirs: TemplateDirs, name: string): (paths: seq<string>)
    ensures |paths| == 3
    ensures forall p :: p in paths ==> |p| > 1
  {
    var n := TrimLeftChar(name, '/');
    [TrailingSlashIt(dirs.stylesheet) + "gmbc/" + n,
     TrailingSlashIt(dirs.template) + "gmbc/" + n,
     TrailingSlashIt(TemplateDir(dirs.pluginPath)) + n]
  }

  /** The first of `paths` that exists. */
  function FirstExisting(paths: seq<string>, files: set<string>): (r: Option<string>)
    ensures r.None? <==> forall p :: p in paths ==> p !in files
    ensures r.Some? ==> exists i :: (0 <= i < |paths| && paths[i] == r.value && r.value in files &&
      forall j :: 0 <= j < i ==> paths[j] !in files)
  {
    if |paths| == 0 then None
    else if paths[0] in files then
      assert paths[0] == paths[0];
      Some(paths[0])
    else
      var r := FirstExisting(paths[1..], files);
      assert forall p :: p in paths ==> p == paths[0] || p in paths[1..];
      if r.Some? then
        var i :| 0 <= i < |paths[1..]| && paths[1..][i] == r.value && r.value in files &&
          forall j :: 0 <= j < i ==> paths[1..][j] !in files;
        assert paths[i + 1] == r.value;
        assert forall j :: 0 <= j < i + 1 ==> paths[j] !in files by {
          forall j | 0 <= j < i + 1 ensures paths[j] !in files {
            if j > 0 { assert paths[j] == paths[1..][j - 1]; }
          }
        }
        r
      else r
  }

  /** A template name the loop does not skip and for which some path exists. */
  predicate Found(dirs: TemplateDirs, name: string, files: set<string>)
  {
    !EmptyString(name) && FirstExisting(SearchPaths(dirs, name), files).Some?
  }

  /** What `gmbc_locate_template` returns: the first path found for the
      first name that has one, `false` (None) when none has. */
  function Located(names: seq<string>, dirs: TemplateDirs, files: set<string>): Option<string>
  {
    if |names| == 0 then None
    else if Found(dirs, names[0], files) then FirstExisting(SearchPaths(dirs, names[0]), files)
    else Located(names[1..], dirs, files)
  }

  /** Names are tried in priority order: nothing is located exactly when no
      name is found, and otherwise the result is the first existing path of
      the first name found. */
  lemma LocatedIsFirstFound(names: seq<string>, dirs: TemplateDirs, files: set<string>)
    ensures Located(names, dirs, files).None? <==> forall i :: 0 <= i < |names| ==> !Found(dirs, names[i], files)
    ensures forall i :: (0 <= i < |names| && Found(dirs, names[i], files) &&
      (forall j :: 0 <= j < i ==> !Found(dirs, names[j], files))) ==>
      Located(names, dirs, files) == FirstExisting(SearchPaths(dirs, names[i]), files)
  {
    LocatedNone(names, dirs, files);
    forall i | 0 <= i < |names| && Found(dirs, names[i], files) &&
      (forall j :: 0 <= j < i ==> !Found(dirs, names[j], files))
      ensures Located(names, dirs, files) == FirstExisting(SearchPaths(dirs, names[i]), files)
    {
      LocatedFirst(names, dirs, files, i);
    }
  }

  lemma {:induction false} LocatedNone(names: seq<string>, dirs: TemplateDirs, files: set<string>)
    ensures Located(names, dirs, files).None? <==> forall i :: 0 <= i < |names| ==> !Found(dirs, names[i], files)
    decreases |names|
  {
    if |names| > 0 {
      var rest := names[1..];
      LocatedUnfold(names, dirs, files);
      if !Found(dirs, names[0], files) {
        LocatedNone(rest, dirs, files);
        forall i | 0 <= i < |rest|
          ensures rest[i] == names[i + 1]
        {
        }
      }
    }
  }

  /** One step of `Located`: nothing is located exactly when the first name
      is not found and nothing is located among the rest. */
  lemma LocatedUnfold(names: seq<string>, dirs: TemplateDirs, files: set<string>)
    requires |names| > 0
    ensures Located(names, dirs, files).None? <==>
      !Found(dirs, names[0], files) && Located(names[1..], dirs, files).None?
  {
  }

  lemma {:induction false} LocatedFirst(names: seq<string>, dirs: TemplateDirs, files: set<string>, i: nat)
    requires i < |names| && Found(dirs, names[i], files)
    requires forall j :: 0 <= j < i ==> !Found(dirs, names[j], files)
    ensures Located(names, dirs, files) == FirstExisting(SearchPaths(dirs, names[i]), files)
    decreases i
  {
    if i > 0 {
      var rest := names[1..];
      assert !Found(dirs, names[0], files);
      assert rest[i - 1] == names[i];
      forall j | 0 <= j < i - 1
        ensures !Found(dirs, rest[j], files)
      {
        assert rest[j] == names[j + 1];
      }
      LocatedFirst(rest, dirs, files, i - 1);
    }
  }

  /** `gmbc_locate_template`: the loop with its `break`, and whether the
      located file is then loaded. */
  method LocateTemplate(names: seq<string>, load: bool, dirs: TemplateDirs, files: set<string>)
    returns (located: Option<string>, loaded: bool)
    ensures located == Located(names, dirs, files)
    ensures loaded <==> load && located.Some?
  {
    located := None;
    var k := 0;
    while k < |names|
      invariant 0 <= k <= |names|
      invariant located.None? ==> Located(names, dirs, files) == Located(names[k..], dirs, files)
      invariant located.Some? ==> located == Located(names, dirs, files)
      decreases |names| - k, if located.None? then 1 else 0
    {
      LocatedStep(names, k, dirs, files);
      var name := names[k];
      if EmptyString(name) {
        k := k + 1;
        continue;
      }
      var hit := LookIn(SearchPaths(dirs, name), files);
      if hit.Some? {
        located := hit;
        break;
      }
      k := k + 1;
    }
    loaded := load && located.Some? && !EmptyString(located.value);
  }

  lemma LocatedStep(names: seq<string>, k: nat, dirs: TemplateDirs, files: set<string>)
    requires k < |names|
    ensures Located(names[k..], dirs, files) ==
      if Found(dirs, names[k], files) then FirstExisting(SearchPaths(dirs, names[k]), files)
      else Located(names[k + 1..], dirs, files)
  {
    assert names[k..][1..] == names[k + 1..];
  }

  /** The `if`/`elseif` chain of one round: the child theme's copy, the
      parent theme's, then the plugin's. */
  method LookIn(paths: seq<string>, files: set<string>) returns (hit: Option<string>)
    requires |paths| == 3
    ensures hit == FirstExisting(paths, files)
  {
    FirstOfThree(paths, files);
    if paths[0] in files {
      hit := Some(paths[0]);
    } else if paths[1] in files {
      hit := Some(paths[1]);
    } else if paths[2] in files {
      hit := Some(paths[2]);
    } else {
      hit := None;
    }
  }

  lemma FirstOfThree(paths: seq<string>, files: set<string>)
    requires |paths| == 3
    ensures FirstExisting(paths, files) ==
      if paths[0] in files then Some(paths[0])
      else if paths[1] in files then Some(paths[1])
      else if paths[2] in files then Some(paths[2])
      else None
  {
    assert paths[1..][1..] == [paths[2]];
  }

  /** `gmbc_get_template_part`; the action and filter hooks it fires are not modelled. */
  method GetTemplatePart(slug: string, name: Option<string>, load: bool, dirs: TemplateDirs, files: set<string>)
    returns (located: Option<string>, loaded: bool)
    ensures located == Located(TemplateCandidates(slug, name), dirs, files)
    ensures loaded <==> load && located.Some?
  {
    located, loaded := LocateTemplate(TemplateCandidates(slug, name), load, dirs, files);
  }

  /** The named variant wins over the plain `slug.php` wherever either lives,
      and the plain file is used only when no path of the variant exists. */
  lemma NamedTemplateFirst(slug: string, name: string, dirs: TemplateDirs, files: set<string>)
    ensures var variant := slug + "-" + name + ".php";
      Located(TemplateCandidates(slug, Some(name)), dirs, files) ==
        if Found(dirs, variant, files) then FirstExisting(SearchPaths(dirs, variant), files)
        else FirstExisting(SearchPaths(dirs, slug + ".php"), files)
  {
    var names := TemplateCandidates(slug, Some(name));
    var plain := slug + ".php";
    assert names[1..] == [plain];
    assert [plain][1..] == [];
    assert |plain| >= 4;
    assert !EmptyString(plain);
    assert Located(names[1..], dirs, files) == FirstExisting(SearchPaths(dirs, plain), files);
  }

  /** A child-theme copy of a template overrides the plugin's own. */
  lemma ChildThemeOverrides(name: string, dirs: TemplateDirs, files: set<string>)
    requires !EmptyString(name)
    requires SearchPaths(dirs, name)[0] in files
    ensures Located([name], dirs, files) == Some(SearchPaths(dirs, name)[0])
  {
  }

  // -------------------------------------------------------------------------
  // gmbc_time_elapsed_string
  // -------------------------------------------------------------------------

  /** The fields of the `DateInterval` between now and the given time. */
  datatype Interval = Interval(y: nat, m: nat, d: nat, h: nat, i: nat, s: nat)

  /** The units in the order they are listed, weeks split off the days. */
  function Units(diff: Interval): (units: seq<(string, nat)>)
    ensures |units| == 7
    ensures units[2].1 * 7 + units[3].1 == diff.d && units[3].1 < 7
  {
    [("year", diff.y), ("month", diff.m), ("week", diff.d / 7), ("day", diff.d % 7),
     ("hour", diff.h), ("minute", diff.i), ("second", diff.s)]
  }

  /** "1 day", "3 hours": the count, the unit, and an "s" for more than one. */
  function UnitLabel(unit: (string, nat)): string
  {
    NatToString(unit.1) + " " + unit.0 + (if unit.1 > 1 then "s" else "")
  }

  /** The labels of the non-zero units, in order. */
  function Labels(units: seq<(string, nat)>): (labels: seq<string>)
    ensures |labels| == 0 <==> forall k :: 0 <= k < |units| ==> units[k].1 == 0
  {
    if |units| == 0 then []
    else
      var init := Labels(units[..|units| - 1]);
      assert forall k :: 0 <= k < |units| - 1 ==> units[..|units| - 1][k] == units[k];
      init + (if units[|units| - 1].1 != 0 then [UnitLabel(units[|units| - 1])] else [])
  }

  function ElapsedText(diff: Interval, full: bool): string
  {
    var labels := Labels(Units(diff));
    var kept := if full || |labels| == 0 then labels else labels[..1];
    if |kept| == 0 then "just now" else Join(kept, ", ") + " ago"
  }

  /** `gmbc_time_elapsed_string` for the interval `DateTime::diff` produced. */
  method TimeElapsedString(diff: Interval, full: bool) returns (text: string)
    ensures text == ElapsedText(diff, full)
  {
    var units := Units(diff);
    var labels: seq<string> := [];
    for k := 0 to |units|
      invariant labels == Labels(units[..k])
    {
      assert units[..k + 1][..k] == units[..k];
      if units[k].1 != 0 {
        labels := labels + [UnitLabel(units[k])];
      }
    }
    assert units[..|units|] == units;
    if !full && |labels| > 0 {
      labels := labels[..1];
    }
    text := if |labels| > 0 then Join(labels, ", ") + " ago" else "just now";
  }

  /** "just now" exactly when every field of the interval is zero. */
  lemma JustNowIffNoTimePassed(diff: Interval, full: bool)
    ensures ElapsedText(diff, full) == "just now" <==>
      diff.y == 0 && diff.m == 0 && diff.d == 0 && diff.h == 0 && diff.i == 0 && diff.s == 0
  {
    var units := Units(diff);
    var labels := Labels(units);
    if |labels| > 0 {
      var kept := if full then labels else labels[..1];
      var text := Join(kept, ", ") + " ago";
      assert text[|text| - 1] == 'o';
      assert "just now"[7] == 'w';
    } else {
      assert forall k :: 0 <= k < 7 ==> units[k].1 == 0;
      assert units[0].1 == diff.y && units[1].1 == diff.m && units[4].1 == diff.h;
      assert units[5].1 == diff.i && units[6].1 == diff.s;
      assert units[2].1 == 0 && units[3].1 == 0;
    }
  }

  /** Without `$full` only the largest non-zero unit is named. */
  lemma ShortFormNamesLargestUnit(diff: Interval, u: nat)
    requires u < 7 && Units(diff)[u].1 != 0
    requires forall k :: 0 <= k < u ==> Units(diff)[k].1 == 0
    ensures ElapsedText(diff, false) == UnitLabel(Units(diff)[u]) + " ago"
  {
    var units := Units(diff);
    LabelsOfLeadingZeros(units, u);
  }

  lemma {:induction false} LabelsOfLeadingZeros(units: seq<(string, nat)>, u: nat)
    requires u < |units| && units[u].1 != 0
    requires forall k :: 0 <= k < u ==> units[k].1 == 0
    ensures |Labels(units)| > 0 && Labels(units)[0] == UnitLabel(units[u])
    decreases |units|
  {
    var init := units[..|units| - 1];
    if u < |units| - 1 {
      LabelsOfLeadingZeros(init, u);
    } else {
      assert forall k :: 0 <= k < |init| ==> init[k].1 == 0;
    }
  }

  // -------------------------------------------------------------------------
  // gmbc_get_review_pagination
  // -------------------------------------------------------------------------

  /** `(int) $args['shortcode_args']['per_page']`. */
  function PerPage(shortcodeArgs: Option<Settings>): int
  {
    IntOf(Lookup(shortcodeArgs, "per_page"))
  }

  /** `(int) ceil(count / per_page)`. Under PHP 7 a division by zero only
      warns and yields INF or NAN, both of which cast to 0. */
  function PageCount(count: nat, perPage: int): (pages: int)
    ensures perPage == 0 ==> pages == 0
    ensures perPage > 0 ==> 0 <= pages && count <= pages * perPage && (pages - 1) * perPage < count + (if count == 0 then 1 else 0)
    ensures perPage < 0 ==> pages <= 0
  {
    if perPage == 0 then 0
    else if perPage < 0 || count % perPage == 0 then count / perPage
    else count / perPage + 1
  }

  /** The current page: `(int) $_GET['reviews_page']` when set and not empty, else 1. */
  function RequestedPage(param: Option<string>): int
  {
    if param.Some? && !EmptyString(param.value) then IntCast(param.value) else 1
  }

  datatype PageLink = PageLink(classes: string, page: int, text: string)

  /** The links `gmbc_get_review_pagination` echoes; the URL of each is the
      current one with `reviews_page` set to `page`. */
  datatype PaginationLinks = PaginationLinks(prev: Option<PageLink>, next: Option<PageLink>)

  /** A link text from the shortcode arguments, or its default when empty. */
  function LinkText(shortcodeArgs: Option<Settings>, key: string, default: string): string
  {
    if EmptyValue(Lookup(shortcodeArgs, key)) then default else ValueText(Lookup(shortcodeArgs, key))
  }

  function ReviewPagination(shortcodeArgs: Option<Settings>, count: nat, param: Option<string>): (r: PaginationLinks)
    ensures r.prev.Some? <==> RequestedPage(param) != 1
    ensures r.next.Some? <==> RequestedPage(param) != PageCount(count, PerPage(shortcodeArgs))
    ensures r.prev.Some? ==> r.prev.value.page == RequestedPage(param) - 1
    ensures r.next.Some? ==> r.next.value.page == RequestedPage(param) + 1
  {
    var pages := PageCount(count, PerPage(shortcodeArgs));
    var current := RequestedPage(param);
    var classes := "gmbc reviews-pagination " + ValueText(Lookup(shortcodeArgs, "pagination_link_class"));
    var prev := PageLink(classes + " prev-link " + ValueText(Lookup(shortcodeArgs, "prev_link_class")),
                         current - 1, LinkText(shortcodeArgs, "prev_link_text", "<< Previous"));
    var next := PageLink(classes + " next-link " + ValueText(Lookup(shortcodeArgs, "next_link_class")),
                         current + 1, LinkText(shortcodeArgs, "next_link_text", "Next >>"));
    PaginationLinks(if current - 1 != 0 then Some(prev) else None,
                    if current != pages then Some(next) else None)
  }

  /** On any page of a non-empty listing, every link shown leads to another
      page of that listing. */
  lemma PaginationLinksStayInRange(shortcodeArgs: Option<Settings>, count: nat, param: Option<string>)
    requires PerPage(shortcodeArgs) > 0 && count > 0
    requires 1 <= RequestedPage(param) <= PageCount(count, PerPage(shortcodeArgs))
    ensures var r := ReviewPagination(shortcodeArgs, count, param);
      var pages := PageCount(count, PerPage(shortcodeArgs));
      (r.prev.Some? ==> 1 <= r.prev.value.page < pages) &&
      (r.next.Some? ==> 1 < r.next.value.page <= pages) &&
      (r.prev.None? <==> RequestedPage(param) == 1) &&
      (r.next.None? <==> RequestedPage(param) == pages)
  {
  }

  // -------------------------------------------------------------------------
  // gmbc_get_current_reviews
  // -------------------------------------------------------------------------

  /** `x` moved into `[0, n]`. */
  function Clamp(x: int, n: nat): (c: nat)
    ensures c <= n
    ensures 0 <= x <= n ==> c == x
  {
    if x < 0 then 0 else if x > n then n else x
  }

  /** The items with an index in `[page * perPage - perPage, page * perPage)`. */
  function PageWindow<T>(items: seq<T>, page: int, perPage: int): seq<T>
  {
    var start := page * perPage - perPage;
    var end := page * perPage;
    var lo := Clamp(start, |items|);
    var hi := if end <= start then lo else Clamp(end, |items|);
    items[lo..hi]
  }

  /** `gmbc_get_current_reviews`: the reviews the loop renders (each through
      the `review` template part) and the schema built for exactly those. */
  method CurrentReviews(reviews: seq<ReviewRow>, shortcodeArgs: Option<Settings>, param: Option<string>,
                        info: Option<Settings>, siteName: string)
    returns (rendered: seq<ReviewRow>, schema: seq<ReviewSchema>)
    ensures rendered == PageWindow(reviews, RequestedPage(param), PerPage(shortcodeArgs))
    ensures |schema| == |rendered|
    ensures forall i :: 0 <= i < |rendered| ==>
      schema[i].authorName == rendered[i].content.reviewerDisplayName &&
      schema[i].ratingValue == RatingText(rendered[i].content.starRating)
  {
    var perPage := PerPage(shortcodeArgs);
    var current := RequestedPage(param);
    var start := current * perPage - perPage;
    rendered := [];
    var i := start;
    while i < current * perPage
      invariant start <= i || current * perPage <= start
      invariant i == start || start <= i <= current * perPage
      invariant rendered == reviews[Clamp(start, |reviews|)..Clamp(i, |reviews|)]
      decreases current * perPage - i
    {
      if 0 <= i < |reviews| {
        rendered := rendered + [reviews[i]];
      }
      i := i + 1;
    }
    schema := BuildReviewsSchema(rendered, info, siteName);
  }

  /** A page never shows more than `per_page` reviews. */
  lemma PageWindowSize<T>(items: seq<T>, page: int, perPage: int)
    requires perPage >= 0
    ensures |PageWindow(items, page, perPage)| <= perPage
  {
  }

  /** Pages 1 to `k`, one after the other. */
  function PagesUpTo<T>(items: seq<T>, perPage: int, k: nat): seq<T>
  {
    if k == 0 then [] else PagesUpTo(items, perPage, k - 1) + PageWindow(items, k, perPage)
  }

  lemma {:induction false} PagesUpToIsPrefix<T>(items: seq<T>, perPage: int, k: nat)
    requires perPage > 0
    ensures PagesUpTo(items, perPage, k) == items[..Clamp(k * perPage, |items|)]
  {
    if k > 0 {
      PagesUpToIsPrefix(items, perPage, k - 1);
      assert k * perPage - perPage == (k - 1) * perPage;
    }
  }

  /** With a positive `per_page`, pages 1 to the page count show every review
      exactly once, in stored order. */
  lemma PagesShowEveryReview<T>(items: seq<T>, perPage: int)
    requires perPage > 0
    ensures PagesUpTo(items, perPage, PageCount(|items|, perPage)) == items
  {
    var pages := PageCount(|items|, perPage);
    PagesUpToIsPrefix(items, perPage, pages);
  }

  // -------------------------------------------------------------------------
  // gmbc_get_stars
  // -------------------------------------------------------------------------

  datatype Star = SolidStar | EmptyStar

  function Stars(star: Star, n: nat): (r: seq<Star>)
    ensures |r| == n && forall k :: 0 <= k < n ==> r[k] == star
  {
    seq(n, _ => star)
  }

  /** The stars drawn for a rounded rating: that many solid ones, then empty
      ones up to five. */
  function StarRow(rounded: int): seq<Star>
  {
    Stars(SolidStar, if rounded > 0 then rounded else 0) + Stars(EmptyStar, if rounded < 5 then 5 - rounded else 0)
  }

  /** PHP `round()` of a number given in tenths: halves go away from zero. */
  function RoundTenths(t: int): (r: int)
    ensures t >= 0 ==> 10 * r - 5 <= t < 10 * r + 5
    ensures t < 0 ==> 10 * r - 5 < t <= 10 * r + 5
  {
    if t >= 0 then (t + 5) / 10 else -((-t + 5) / 10)
  }

  /** `round($review_settings['average_rating'])`; a missing setting reads as null, which rounds to 0. */
  function RoundedRating(v: Value): int
  {
    match v
    case Null => 0
    case Str(s) => IntCast(s)
    case Int(i) => i
    case Dec1(t) => RoundTenths(t)
  }

  /** `gmbc_get_stars`: its two loops. */
  method GetStars(reviewSettings: Option<Settings>) returns (stars: seq<Star>)
    ensures stars == StarRow(RoundedRating(Lookup(reviewSettings, "average_rating")))
  {
    var rounded := RoundedRating(Lookup(reviewSettings, "average_rating"));
    stars := [];
    var i := 1;
    while i <= rounded
      invariant 1 <= i <= (if rounded > 0 then rounded else 0) + 1
      invariant stars == Stars(SolidStar, i - 1)
    {
      stars := stars + [SolidStar];
      i := i + 1;
    }
    var solid := stars;
    if rounded < 5 {
      var dif := 5 - rounded;
      i := 1;
      while i <= dif
        invariant 1 <= i <= dif + 1
        invariant stars == solid + Stars(EmptyStar, i - 1)
      {
        stars := stars + [EmptyStar];
        i := i + 1;
      }
    }
  }

  /** A rating from 0 to 5 draws exactly five stars, the first `rounded` solid. */
  lemma StarRowOfRating(rounded: int)
    requires 0 <= rounded <= 5
    ensures |StarRow(rounded)| == 5
    ensures forall k :: 0 <= k < 5 ==> (StarRow(rounded)[k] == SolidStar <==> k < rounded)
  {
  }

  /** An average rating between 0 and 5 (in tenths, 0 to 50) draws five stars,
      as many solid as the average rounds to. */
  lemma AverageRatingStars(t: int)
    requires 0 <= t <= 50
    ensures |StarRow(RoundTenths(t))| == 5
    ensures 10 * RoundTenths(t) - 5 <= t < 10 * RoundTenths(t) + 5
  {
    StarRowOfRating(RoundTenths(t));
  }
}
