/**
 * `GMBConnect\Shortcodes\Reviews`, the `[gmbc_reviews]` shortcode: its
 * attribute defaults, the query it builds, and the arguments it hands to
 * the `reviews` template. SQL is not executed: the rows the query returns
 * are an argument, and the WHERE clause's meaning is given by a small
 * condition tree that renders to the clause text.
 */
module ReviewsShortcode {
  import opened Common
  import opened Text
  import opened DBTables
  import opened Shortcodes

  const TagName := "gmbc_reviews"
  const ClassName := "GMBConnect\\Shortcodes\\Reviews"

  /** Shortcode attributes by name. */
  type Atts = map<string, Value>

  /** `$allowed_atts` as the class declares it. */
  function DeclaredAtts(): Atts
  {
    map["max_reviews" := Null, "min_rating" := Null, "per_page" := Null,
        "id" := Str(""), "class" := Str(""), "reviews_link_class" := Str(""),
        "pagination_link_class" := Str(""), "next_link_class" := Str(""),
        "prev_link_class" := Str(""), "next_link_text" := Str(""),
        "prev_link_text" := Str(""), "reviews_link_text" := Str("")]
  }

  /** A default taken from the `gmbc_reviews` option, or '' when absent or empty. */
  function OptionDefault(options: Option<Settings>, key: string): (v: Value)
    ensures EmptyValue(Lookup(options, key)) ==> v == Str("")
    ensures !EmptyValue(Lookup(options, key)) ==> v == options.value[key]
  {
    if !EmptyValue(Lookup(options, key)) then Lookup(options, key) else Str("")
  }

  /** `$allowed_atts` once the constructor has filled in the three defaults
      from the reviews settings. */
  function ConstructedAtts(options: Option<Settings>): (atts: Atts)
    ensures atts.Keys == DeclaredAtts().Keys
    ensures atts["max_reviews"] == OptionDefault(options, "reviews_max")
    ensures atts["min_rating"] == OptionDefault(options, "rating_min")
    ensures atts["per_page"] == OptionDefault(options, "reviews_per_page")
    ensures forall k :: k in atts && k !in {"max_reviews", "min_rating", "per_page"} ==> atts[k] == DeclaredAtts()[k]
  {
    DeclaredAtts()["max_reviews" := OptionDefault(options, "reviews_max")]
                  ["min_rating" := OptionDefault(options, "rating_min")]
                  ["per_page" := OptionDefault(options, "reviews_per_page")]
  }

  /** WordPress `shortcode_atts`: exactly the allowed names, each with the
      user's value when given and its default otherwise. */
  function ShortcodeAtts(pairs: Atts, given: Atts): (out: Atts)
    ensures out.Keys == pairs.Keys
    ensures forall k :: k in pairs ==> out[k] == (if k in given then given[k] else pairs[k])
  {
    map k | k in pairs :: if k in given then given[k] else pairs[k]
  }

  /** What the attribute names, or null when it is absent. */
  function Att(atts: Atts, key: string): Value
  {
    if key in atts then atts[key] else Null
  }

  // -------------------------------------------------------------------------
  // _get_reviews
  // -------------------------------------------------------------------------

  /** The LIMIT part: none for "all" in any case and surrounding whitespace,
      otherwise the attribute's text, whatever it is. */
  function LimitClause(maxReviews: Value): (limit: string)
    ensures limit == "" <==> maxReviews != Null && Trim(ToLower(ValueText(maxReviews))) == "all"
    ensures limit != "" ==> limit == "LIMIT " + ValueText(maxReviews)
  {
    if maxReviews != Null && Trim(ToLower(ValueText(maxReviews))) == "all" then "" else "LIMIT " + ValueText(maxReviews)
  }

  /** The WHERE clause before any id filter. */
  function BaseWhere(minRating: Value): string
  {
    "WHERE star_rating >= " + ValueText(minRating) + " AND is_hidden = 0"
  }

  /** `array_map('trim', explode(',', $atts['id']))`. */
  function IdList(id: Value): (ids: seq<string>)
    ensures |ids| >= 1
  {
    var parts := Split(ValueText(id), ",");
    seq(|parts|, i requires 0 <= i < |parts| => Trim(parts[i]))
  }

  /** `isset($atts['id']) && ! empty($atts['id'])`. */
  predicate IdFilterSet(id: Value)
  {
    !EmptyValue(id)
  }

  /** The WHERE clause `_get_reviews` builds: the id filter is the trimmed ids
      joined by " OR ID = ", with no separator after the last and no
      parentheses around the alternatives. */
  function WhereClause(minRating: Value, id: Value): string
  {
    BaseWhere(minRating) + (if IdFilterSet(id) then " AND ID = " + Join(IdList(id), " OR ID = ") else "")
  }

  /** The WHERE clause as written, or with `corrected` the corrected one (see
      `CorrectedWhereClause`). */
  function Where(minRating: Value, id: Value, corrected: bool): string
  {
    if corrected then CorrectedWhereClause(minRating, id) else WhereClause(minRating, id)
  }

  /** The query text: table, WHERE clause and LIMIT, separated by single spaces. */
  function SelectSql(prefix: string, minRating: Value, id: Value, maxReviews: Value, corrected: bool): string
  {
    "SELECT * FROM " + (prefix + "gmbc_reviews") + " " + Where(minRating, id, corrected) + " " + LimitClause(maxReviews)
  }

  /** What `_get_reviews` returns, merged with the attributes by `execute`. */
  datatype ShortcodeArgs = ShortcodeArgs(
    reviewSettings: Option<Settings>,
    locationSettings: Option<Settings>,
    reviews: seq<ReviewRow>,
    shortcodeArgs: Atts)

  /** `_get_reviews`: the WHERE clause grown in its loop, and the query; as
      written when `corrected` is false. */
  method GetReviews(atts: Atts, prefix: string, queried: seq<ReviewRow>,
                    reviewSettings: Option<Settings>, locationSettings: Option<Settings>, corrected: bool)
    returns (sql: string, reviewSettingsOut: Option<Settings>, locationSettingsOut: Option<Settings>,
             reviews: seq<ReviewRow>)
    ensures sql == SelectSql(prefix, Att(atts, "min_rating"), Att(atts, "id"), Att(atts, "max_reviews"), corrected)
    ensures reviewSettingsOut == reviewSettings && locationSettingsOut == locationSettings
    ensures reviews == queried
  {
    var dbTable := prefix + "gmbc_reviews";
    var limit := LimitClause(Att(atts, "max_reviews"));
    var where := BuildWhere(Att(atts, "min_rating"), Att(atts, "id"), corrected);
    sql := "SELECT * FROM " + dbTable + " " + where + " " + limit;
    reviewSettingsOut, locationSettingsOut, reviews := reviewSettings, locationSettings, queried;
  }

  /** The WHERE clause: the id filter, when set, is added after " AND ";
      `corrected` puts its alternatives in parentheses when there are several. */
  method BuildWhere(minRating: Value, id: Value, corrected: bool) returns (where: string)
    ensures where == Where(minRating, id, corrected)
  {
    where := BaseWhere(minRating);
    if IdFilterSet(id) {
      var ids := IdList(id);
      var filter := IdFilter(ids);
      CorrectedWhereText(minRating, id);
      WhereClauseText(minRating, id);
      if corrected && |ids| > 1 {
        where := where + " AND " + ("(" + filter + ")");
      } else {
        where := where + " AND " + filter;
      }
    }
  }

  /** The clause as written is the base clause, " AND " and the id filter. */
  lemma WhereClauseText(minRating: Value, id: Value)
    requires IdFilterSet(id)
    ensures WhereClause(minRating, id) == BaseWhere(minRating) + " AND " + ("ID = " + Join(IdList(id), " OR ID = "))
  {
    ClausePieces();
  }

  /** The id loop: each id after "ID = ", joined by " OR ID = " with no
      separator after the last. */
  method IdFilter(ids: seq<string>) returns (filter: string)
    ensures filter == "ID = " + Join(ids, " OR ID = ")
  {
    filter := "ID = ";
    for i := 0 to |ids|
      invariant filter == "ID = " + Join(ids[..i], " OR ID = ") + (if 0 < i < |ids| then " OR ID = " else "")
    {
      IdFilterStep("ID = ", ids, i, " OR ID = ");
      filter := filter + ids[i];
      if i != |ids| - 1 {
        filter := filter + " OR ID = ";
      }
    }
    assert ids[..|ids|] == ids;
  }

  /** One round of the id loop: the id, then the separator unless it was the last. */
  lemma IdFilterStep(head: string, ids: seq<string>, i: nat, sep: string)
    requires i < |ids|
    ensures head + Join(ids[..i], sep) + (if 0 < i < |ids| then sep else "") + ids[i] +
      (if i != |ids| - 1 then sep else "") ==
      head + Join(ids[..i + 1], sep) + (if 0 < i + 1 < |ids| then sep else "")
  {
    if i == 0 {
      assert ids[..1] == [ids[0]];
    } else {
      JoinSnoc(ids[..i], ids[i], sep);
      assert ids[..i] + [ids[i]] == ids[..i + 1];
    }
  }

  /** The `[gmbc_reviews]` object: its declared properties. */
  class ReviewsShortcodeObject {
    var tagName: Option<string>
    var allowedAtts: Option<Atts>

    /** `Reviews::__construct`: fills in the defaults, then runs the base
        constructor, which always registers the tag since both properties
        are declared. */
    constructor (options: Option<Settings>, registry: ShortcodeRegistry)
      modifies registry
      ensures tagName == Some(TagName) && allowedAtts == Some(ConstructedAtts(options))
      ensures registry.handlers == old(registry.handlers)[TagName := ClassName]
    {
      tagName := Some(TagName);
      allowedAtts := Some(ConstructedAtts(options));
      new;
      var thrown := Construct(registry, ClassName, tagName, allowedAtts);
    }

    /** `execute`: the attributes resolved against the allowed ones, the
        query, and the template arguments; the rendering of the `reviews`
        template is the template's own model. */
    method Execute(given: Atts, prefix: string, queried: seq<ReviewRow>,
                   reviewSettings: Option<Settings>, locationSettings: Option<Settings>, corrected: bool)
      returns (sql: string, args: ShortcodeArgs)
      requires allowedAtts.Some?
      ensures var atts := ShortcodeAtts(allowedAtts.value, given);
        sql == SelectSql(prefix, Att(atts, "min_rating"), Att(atts, "id"), Att(atts, "max_reviews"), corrected) &&
        args == ShortcodeArgs(reviewSettings, locationSettings, queried, atts)
    {
      var attributes := ShortcodeAtts(allowedAtts.value, given);
      var rs, ls, reviews;
      sql, rs, ls, reviews := GetReviews(attributes, prefix, queried, reviewSettings, locationSettings, corrected);
      args := ShortcodeArgs(rs, ls, reviews, attributes);
    }
  }

  // -------------------------------------------------------------------------
  // What the WHERE clause selects
  // -------------------------------------------------------------------------

  /** The three kinds of test the clause is made of. */
  datatype Test = RatingAtLeast(min: string) | NotHidden | IdIs(id: string)

  /** A WHERE condition as SQL groups it. */
  datatype Cond = Atom(test: Test) | And(left: Cond, right: Cond) | Or(left: Cond, right: Cond)

  function TestText(t: Test): string
  {
    match t
    case RatingAtLeast(m) => "star_rating >= " + m
    case NotHidden => "is_hidden = 0"
    case IdIs(i) => "ID = " + i
  }

  /** The text of a condition, parenthesised exactly where SQL's precedence
      (AND binds tighter than OR) needs it, so a condition and its text
      have the same meaning. */
  function Render(c: Cond): string
    decreases c, 0
  {
    match c
    case Atom(t) => TestText(t)
    case And(l, r) => Operand(l) + " AND " + Operand(r)
    case Or(l, r) => Render(l) + " OR " + Render(r)
  }

  function Operand(c: Cond): string
    decreases c, 1
  {
    if c.Or? then "(" + Render(c) + ")" else Render(c)
  }

  /** Whether a row satisfies a condition; a rating bound reads as `(int)`
      would, and an id test holds when the id is the row's decimal key. */
  predicate Holds(c: Cond, row: ReviewRow)
  {
    match c
    case Atom(RatingAtLeast(m)) => row.content.starRating.Some? && row.content.starRating.value >= IntCast(m)
    case Atom(NotHidden) => !row.isHidden
    case Atom(IdIs(i)) => NatToString(row.id) == i
    case And(l, r) => Holds(l, row) && Holds(r, row)
    case Or(l, r) => Holds(l, row) || Holds(r, row)
  }

  function BaseCond(min: string): Cond
  {
    And(Atom(RatingAtLeast(min)), Atom(NotHidden))
  }

  /** How SQL groups the clause as written: the first id joins the
      conjunction, and each later id is an alternative to all of it. */
  function AsWrittenCond(min: string, ids: seq<string>): Cond
    requires |ids| >= 1
  {
    if |ids| == 1 then And(BaseCond(min), Atom(IdIs(ids[0])))
    else Or(AsWrittenCond(min, ids[..|ids| - 1]), Atom(IdIs(ids[|ids| - 1])))
  }

  /** Any of the ids. */
  function AnyId(ids: seq<string>): Cond
    requires |ids| >= 1
  {
    if |ids| == 1 then Atom(IdIs(ids[0])) else Or(AnyId(ids[..|ids| - 1]), Atom(IdIs(ids[|ids| - 1])))
  }

  /** The condition the id attribute is evidently meant to add: one of the
      ids, on top of the rating bound and the hidden flag. */
  function IntendedCond(min: string, ids: seq<string>): Cond
    requires |ids| >= 1
  {
    And(BaseCond(min), AnyId(ids))
  }

  /** The corrected clause text: the alternatives in parentheses. */
  function CorrectedWhereClause(minRating: Value, id: Value): string
  {
    if IdFilterSet(id) then "WHERE " + Render(IntendedCond(ValueText(minRating), IdList(id)))
    else BaseWhere(minRating)
  }

  lemma {:induction false} RenderAnyId(ids: seq<string>)
    requires |ids| >= 1
    ensures Render(AnyId(ids)) == "ID = " + Join(ids, " OR ID = ")
    decreases |ids|
  {
    if |ids| > 1 {
      var init := ids[..|ids| - 1];
      var last := ids[|ids| - 1];
      RenderAnyId(init);
      JoinSnoc(init, last, " OR ID = ");
      assert init + [last] == ids;
      assert Render(AnyId(ids)) == Render(AnyId(init)) + " OR " + ("ID = " + last);
    }
  }

  /** The corrected clause is the base clause and the id filter, the filter
      parenthesised exactly when it lists more than one id. */
  lemma CorrectedWhereText(minRating: Value, id: Value)
    requires IdFilterSet(id)
    ensures var filter := "ID = " + Join(IdList(id), " OR ID = ");
      CorrectedWhereClause(minRating, id) ==
        BaseWhere(minRating) + " AND " + (if |IdList(id)| > 1 then "(" + filter + ")" else filter)
  {
    CorrectedText(ValueText(minRating), IdList(id));
    OperandAnyId(IdList(id));
  }

  /** The correction changes the clause only when the id attribute lists
      more than one id. */
  lemma CorrectionOnlyForSeveralIds(minRating: Value, id: Value)
    ensures CorrectedWhereClause(minRating, id) == WhereClause(minRating, id) <==>
      !IdFilterSet(id) || |IdList(id)| == 1
  {
    if IdFilterSet(id) {
      CorrectedWhereText(minRating, id);
      ParenthesesDiffer(BaseWhere(minRating), Join(IdList(id), " OR ID = "), |IdList(id)| > 1);
    }
  }

  lemma ParenthesesDiffer(base: string, j: string, several: bool)
    ensures base + " AND " + (if several then "(" + ("ID = " + j) + ")" else "ID = " + j) == base + (" AND ID = " + j)
      <==> !several
  {
    var k := |base| + 5;
    if several {
      assert (base + " AND " + ("(" + ("ID = " + j) + ")"))[k] == '(';
      assert (base + (" AND ID = " + j))[k] == 'I';
    } else {
      assert " AND " + "ID = " == " AND ID = ";
      assert base + " AND " + ("ID = " + j) == base + ((" AND " + "ID = ") + j);
    }
  }

  lemma CorrectedText(min: string, ids: seq<string>)
    requires |ids| >= 1
    ensures "WHERE " + Render(IntendedCond(min, ids)) ==
      "WHERE star_rating >= " + min + " AND is_hidden = 0" + " AND " + Operand(AnyId(ids))
  {
    IntendedRender(min, ids);
    BaseText(min);
    WherePrefixed(min, Operand(AnyId(ids)));
  }

  lemma IntendedRender(min: string, ids: seq<string>)
    requires |ids| >= 1
    ensures Render(IntendedCond(min, ids)) == Operand(BaseCond(min)) + " AND " + Operand(AnyId(ids))
  {
  }

  lemma WherePrefixed(min: string, o: string)
    ensures "WHERE " + ("star_rating >= " + min + " AND is_hidden = 0" + " AND " + o) ==
      "WHERE star_rating >= " + min + " AND is_hidden = 0" + " AND " + o
  {
    assert "WHERE " + "star_rating >= " == "WHERE star_rating >= ";
  }

  lemma BaseText(min: string)
    ensures Operand(BaseCond(min)) == "star_rating >= " + min + " AND is_hidden = 0"
  {
    assert Operand(Atom(RatingAtLeast(min))) == "star_rating >= " + min;
    assert Operand(Atom(NotHidden)) == "is_hidden = 0";
    assert " AND " + "is_hidden = 0" == " AND is_hidden = 0";
    assert Render(BaseCond(min)) == "star_rating >= " + min + " AND " + "is_hidden = 0";
  }

  lemma OperandAnyId(ids: seq<string>)
    requires |ids| >= 1
    ensures var filter := "ID = " + Join(ids, " OR ID = ");
      Operand(AnyId(ids)) == if |ids| > 1 then "(" + filter + ")" else filter
  {
    RenderAnyId(ids);
  }

  /** The clause's fixed pieces, as the source writes them and as `Render` does. */
  lemma ClausePieces()
    ensures " OR " + "ID = " == " OR ID = "
    ensures " AND " + "is_hidden = 0" == " AND is_hidden = 0"
    ensures " AND " + "ID = " == " AND ID = "
    ensures "WHERE " + "star_rating >= " == "WHERE star_rating >= "
  {
  }

  lemma {:induction false} RenderAsWritten(min: string, ids: seq<string>)
    requires |ids| >= 1
    ensures Render(AsWrittenCond(min, ids)) ==
      "star_rating >= " + min + " AND is_hidden = 0" + " AND ID = " + Join(ids, " OR ID = ")
    decreases |ids|
  {
    if |ids| == 1 {
      RenderAsWrittenOne(min, ids[0]);
      assert Join(ids, " OR ID = ") == ids[0];
    } else {
      ClausePieces();
      var init := ids[..|ids| - 1];
      var last := ids[|ids| - 1];
      RenderAsWritten(min, init);
      JoinSnoc(init, last, " OR ID = ");
      assert init + [last] == ids;
      assert Render(AsWrittenCond(min, ids)) == Render(AsWrittenCond(min, init)) + " OR " + ("ID = " + last);
    }
  }

  lemma RenderAsWrittenOne(min: string, id: string)
    ensures Render(AsWrittenCond(min, [id])) == "star_rating >= " + min + " AND is_hidden = 0" + " AND ID = " + id
  {
    BaseText(min);
    assert Operand(Atom(IdIs(id))) == "ID = " + id;
    assert " AND " + "ID = " == " AND ID = ";
  }

  /** The clause `_get_reviews` builds is the text of `AsWrittenCond`: that
      grouping is what the database evaluates. */
  lemma WhereClauseIsAsWritten(minRating: Value, id: Value)
    requires IdFilterSet(id)
    ensures WhereClause(minRating, id) == "WHERE " + Render(AsWrittenCond(ValueText(minRating), IdList(id)))
  {
    WhereTextIsAsWritten(ValueText(minRating), IdList(id));
  }

  lemma WhereTextIsAsWritten(min: string, ids: seq<string>)
    requires |ids| >= 1
    ensures "WHERE star_rating >= " + min + " AND is_hidden = 0" + (" AND ID = " + Join(ids, " OR ID = ")) ==
      "WHERE " + Render(AsWrittenCond(min, ids))
  {
    ClausePieces();
    RenderAsWritten(min, ids);
  }

  lemma {:induction false} AnyIdHolds(ids: seq<string>, row: ReviewRow)
    requires |ids| >= 1
    ensures Holds(AnyId(ids), row) <==> NatToString(row.id) in ids
    decreases |ids|
  {
    if |ids| > 1 {
      AnyIdHolds(ids[..|ids| - 1], row);
      assert ids == ids[..|ids| - 1] + [ids[|ids| - 1]];
    }
  }

  /** The corrected clause selects exactly the visible rows rated at least
      the minimum whose id is listed. */
  lemma IntendedCondSelects(min: string, ids: seq<string>, row: ReviewRow)
    requires |ids| >= 1
    ensures Holds(IntendedCond(min, ids), row) <==>
      row.content.starRating.Some? && row.content.starRating.value >= IntCast(min) &&
      !row.isHidden && NatToString(row.id) in ids
  {
    AnyIdHolds(ids, row);
    assert Holds(BaseCond(min), row) <==> Holds(Atom(RatingAtLeast(min)), row) && Holds(Atom(NotHidden), row);
  }

  /** As written, with two ids every id after the first escapes the hidden
      flag and the rating bound: a hidden one-star review with ID 2 is
      selected by `[gmbc_reviews id="1,2"]` with a minimum rating of 3. */
  lemma IdFilterShowsHiddenReview()
    ensures var row := ReviewRow(2, ReviewContent("", "", None, Some(1), "", "", ""), true);
      var id := Str("1,2");
      IdList(id) == ["1", "2"] &&
      WhereClause(Str("3"), id) == "WHERE star_rating >= 3 AND is_hidden = 0 AND ID = 1 OR ID = 2" &&
      Holds(AsWrittenCond("3", IdList(id)), row) &&
      !Holds(IntendedCond("3", IdList(id)), row)
  {
    TwoIds();
    TwoIdWhere();
    HiddenRowSelectedAsWritten();
  }

  lemma TwoIdWhere()
    ensures WhereClause(Str("3"), Str("1,2")) == "WHERE star_rating >= 3 AND is_hidden = 0 AND ID = 1 OR ID = 2"
  {
    TwoIds();
    assert ["1", "2"][1..] == ["2"];
    assert Join(["1", "2"], " OR ID = ") == "1" + " OR ID = " + "2";
    assert IdFilterSet(Str("1,2"));
    assert WhereClause(Str("3"), Str("1,2")) ==
      "WHERE star_rating >= " + "3" + " AND is_hidden = 0" + (" AND ID = " + ("1" + " OR ID = " + "2"));
    TwoIdText();
  }

  lemma TwoIdText()
    ensures "WHERE star_rating >= " + "3" + " AND is_hidden = 0" + (" AND ID = " + ("1" + " OR ID = " + "2")) ==
      "WHERE star_rating >= 3 AND is_hidden = 0 AND ID = 1 OR ID = 2"
  {
    assert "1" + " OR ID = " + "2" == "1 OR ID = 2";
    assert " AND ID = " + "1 OR ID = 2" == " AND ID = 1 OR ID = 2";
    assert "WHERE star_rating >= " + "3" == "WHERE star_rating >= 3";
    assert "WHERE star_rating >= 3" + " AND is_hidden = 0" == "WHERE star_rating >= 3 AND is_hidden = 0";
  }

  lemma HiddenRowSelectedAsWritten()
    ensures var row := ReviewRow(2, ReviewContent("", "", None, Some(1), "", "", ""), true);
      Holds(AsWrittenCond("3", ["1", "2"]), row) && !Holds(IntendedCond("3", ["1", "2"]), row)
  {
    var row := ReviewRow(2, ReviewContent("", "", None, Some(1), "", "", ""), true);
    assert NatToString(2) == "2";
    assert ["1", "2"][..1] == ["1"];
    assert AsWrittenCond("3", ["1", "2"]) == Or(AsWrittenCond("3", ["1"]), Atom(IdIs("2")));
    assert Holds(Atom(IdIs("2")), row);
    assert !Holds(BaseCond("3"), row);
  }

  lemma TwoIds()
    ensures IdList(Str("1,2")) == ["1", "2"]
  {
    SplitOneTwo();
    TrimNoSpace("1");
    TrimNoSpace("2");
  }

  lemma SplitOneTwo()
    ensures Split("1,2", ",") == ["1", "2"]
  {
    SplitAtFirst("1", ",", "2");
    SplitWithoutSeparator("2", ",");
    assert "1" + "," + "2" == "1,2";
  }

  lemma TrimNoSpace(s: string)
    requires |s| == 1 && !IsTrimChar(s[0])
    ensures Trim(s) == s
  {
  }
}
