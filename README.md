# Google My Business Connect, modelled in Dafny

A model of the WordPress plugin *Google My Business Connect*. The plugin
connects a site to a Google Business Profile through OAuth. It copies the
profile's locations and the selected location's reviews into two tables of
its own, `gmbc_reviews` and `gmbc_locations`. It lets an administrator hide
reviews from an admin list table. It renders the visible reviews with the
`[gmbc_reviews]` shortcode, which includes stars, a "time ago" text,
pagination and schema.org `Review` entries.

The model has one module per source file or component:

- `Common`: PHP values, `empty()`, option lookups.
- `Text`: the PHP string functions used, such as `explode`, `implode`, `trim`, `stripos`, the `(int)` cast and `trailingslashit`.
- `Credentials`, `GoogleApi`, `WpCron`: the collaborators, given as values and functions.
- `DBTables`: the two tables, and a `Database` class for `$wpdb`.
- `Paging`: the two `while (count < total)` paging loops.
- `Locations`: `src/Locations.php` and `get_locations`.
- `Reviews`: `src/Reviews.php`.
- `AdminArea`: the encryption of the credentials, and the settings form.
- `PluginLoader`: `src/Loader.php`.
- `TemplateFunctions`: `src/gmbc-functions.php`.
- `AdminListTable`: `src/Admin/ReviewsListTable.php`.
- `Shortcodes`: the base shortcode.
- `ReviewsShortcode`: `[gmbc_reviews]`.
- `TemplateParts`: the `reviews.php` and `review.php` templates.
- `Autoloader`: the class autoloader in `gmb-connect.php`.

State that the source changes in place is modelled as classes:

- the database: `DBTables.Database`;
- the WP-Cron event table: `WpCron.Scheduler`;
- the shortcode table: `Shortcodes.ShortcodeRegistry`;
- the `Loader` singleton;
- the list table: `AdminListTable.ReviewsListTable`.

Their methods state the whole new state. The loops of the source are methods with loop invariants. Each method is proved against a function, and the properties that matter are proved about those functions as lemmas.

The Google API is given as its responses. An account listing is a
`Response`. A listing call is a function from the page token to a page or
an exception. The clock, the request parameters, the nonce check, the
`manage_options` capability, the set of files that exist and the cipher
are parameters.

## Model

| member | source | states |
|---|---|---|
| DBTables.ReviewsUpdated | src/DBTables.php:103-123 | An update rewrites the content of every row whose `review_id` matches. Primary keys, `is_hidden`, the row count and the counter stay, and other rows are unchanged. |
| DBTables.SelectReviewIds | src/DBTables.php:131-141 | The ids found are non-empty exactly when a row has that `review_id`, and every one equals the id asked for. |
| DBTables.SelectReviewIdsAppend | src/DBTables.php:136-138 | Appending a row adds its id to the result exactly when the id matches. |
| DBTables.InsertReviewAllowsDuplicates | src/DBTables.php:72-89 | An insert never checks for an existing id. The rows found for the inserted id grow by one, duplicate or not, and those for other ids are unchanged. |
| DBTables.UpdateKeepsReviewIds | src/DBTables.php:103-123 | An update never changes which rows any `review_id` finds. |
| DBTables.ReviewsHiddenSet | src/Admin/ReviewsListTable.php:139-147 | Setting `is_hidden` by primary key changes that flag on the matching rows only. Keys, content and every other row are unchanged. |
| DBTables.LocationsUpdated | src/DBTables.php:177-195 | A location update rewrites the rows whose `location_id` matches and keeps keys and other rows. |
| DBTables.SelectLocationIds | src/DBTables.php:197-207 | The ids found are non-empty exactly when the location is stored, and all equal the one asked for. |
| DBTables.Database.constructor | src/DBTables.php:26-58 | Both tables start empty with the counter at 1. |
| DBTables.Database.InsertReview | src/DBTables.php:72-89 | Appends one visible row under the next key. The locations table is unchanged. |
| DBTables.Database.UpdateReview | src/DBTables.php:103-123 | The reviews table becomes `ReviewsUpdated` of the old one. The locations table is unchanged. |
| DBTables.Database.CheckSyncedReviews | src/DBTables.php:131-141 | Returns `false` (None) exactly when no row has the id, otherwise non-empty copies of it. |
| DBTables.Database.RemoveReviews | src/DBTables.php:148-158 | TRUNCATE empties the reviews table, resets its counter and leaves the locations table unchanged. |
| DBTables.Database.SetReviewHidden | src/Admin/ReviewsListTable.php:139-147 | The reviews table becomes `ReviewsHiddenSet` of the old one. The locations table is unchanged. |
| DBTables.Database.InsertLocation | src/DBTables.php:160-175 | Appends one location row. The reviews table is unchanged. |
| DBTables.Database.UpdateLocation | src/DBTables.php:177-195 | The locations table becomes `LocationsUpdated` of the old one. The reviews table is unchanged. |
| DBTables.Database.CheckSyncedLocations | src/DBTables.php:197-207 | Returns `false` exactly when the location id is not stored. |
| DBTables.Database.RemoveLocations | src/DBTables.php:209-219 | TRUNCATE empties the locations table only. |
| AdminArea.Sanitized | src/Admin/AdminArea.php:567-589 | Sanitizing keeps exactly the option's keys. |
| AdminArea.SanitizeClientCreds | src/Admin/AdminArea.php:567-589 | The in-place `foreach` gives the sanitized option. |
| AdminArea.SanitizedEntryHoldsSeparator | src/Admin/AdminArea.php:576-585 | Every encrypted entry now holds "::", so a later save skips it. |
| AdminArea.SanitizeIdempotent | src/Admin/AdminArea.php:578-580 | Saving the form again, even with a fresh random key, changes nothing. |
| AdminArea.RedirectUri | src/Admin/AdminArea.php:425-427 | The URI starts with `https://` exactly when `$_SERVER['HTTPS']` is `on`. |
| AdminArea.FieldName | src/Admin/AdminArea.php:429 | The field name is `option[key]`, and the key can be read back from between the brackets. |
| AdminArea.DecryptedInvertsEntry | src/Admin/AdminArea.php:419-422 | Splitting a stored `ciphertext::key` and decrypting it gives back the plaintext when the cipher is sound. Encryption happens at src/Admin/AdminArea.php:582-584. |
| AdminArea.FormShowsSavedCredential | src/Admin/AdminArea.php:414-422 | The settings form shows the client id or secret that was saved: display decoding inverts sanitizing. |
| PluginLoader.LoaderSlot.GetInstance | src/Loader.php:71-78 | Creates the loader on first use and then always returns the same object. |
| PluginLoader.GetInstanceTwice | src/Loader.php:71-78 | Two calls in a row return the same object. |
| PluginLoader.NoClientIffNoOption | src/Loader.php:97-183 | `get_client` returns false exactly when the credentials option does not exist. |
| PluginLoader.PersistsOnlyAccessToken | src/Loader.php:132-175 | Whatever is stored is the option as read with only `access_token` replaced, by the refreshed or the exchanged token. A refresh happens exactly when the token has expired and a refresh token exists. The auth URL is built exactly when it has expired without one. The redirect is sent exactly when no code came back. |
| PluginLoader.ErrorExchangeThrows | src/Loader.php:160-167 | A code exchange throws exactly when the returned token has an `error` key. |
| PluginLoader.ClientUsesSavedCredentials | src/Loader.php:90-116 | The client is built from the plaintext id and secret the settings form saved. |
| PluginLoader.ExchangeUnlocksSettings | src/Loader.php:160-174 | After a successful exchange the token is stored, and the settings page then shows the sections it hid before (src/Admin/AdminArea.php:540). |
| PluginLoader.CronSchedules | src/Loader.php:231-250 | The filter adds `every_two_weeks` and `monthly`, adds `weekly` only when it is missing, and keeps every other schedule. |
| PluginLoader.CronSchedulesIdempotent | src/Loader.php:231-250 | Applying the filter twice equals applying it once. |
| WpCron.Scheduler.NextScheduled | src/Reviews.php:45-52 | Returns the hook's event, or none when it has none. |
| WpCron.Scheduler.Unschedule | src/Reviews.php:45-52 | Removes the hook's event and no other. |
| WpCron.Scheduler.Schedule | src/Reviews.php:45-52 | Sets the hook's event to the new time and recurrence. |
| Paging.CollectPages | src/Reviews.php:160-166 | The loop method gives the outcome of the paging specification `Collect`. |
| Paging.FollowingTokensCollectsEveryPage | src/Reviews.php:160-166 | Following `nextPageToken` gathers every page exactly once, in order. |
| Paging.RepeatingFirstRequest | src/Locations.php:65-95 | As written, re-sending the first request can only gather copies of the first page, or never end. |
| Paging.RepeatingFirstRequestDuplicates | src/Locations.php:65-95 | With two pages served correctly, the loop as written gathers the first page twice. Following tokens gathers both pages. |
| Locations.LocationIdOfResourceName | src/Locations.php:99 | For `locations/{id}` the stored location id is `{id}`. |
| Locations.LocationIdWithoutSlash | src/Locations.php:99 | A name without '/' gives a null location id, which the lookup reads as "". |
| Locations.UpsertLocationsStoresEvery | src/Locations.php:98-126 | After the `foreach`, every listed location's id is stored, and no earlier row is lost or re-keyed. |
| Locations.StoreLocations | src/Locations.php:97-125 | The loop writes exactly the upsert of every listed location. The reviews table is unchanged. |
| Locations.StoreLocation | src/Locations.php:100-124 | One pass updates the row when `check_synced_locations` finds the id, and inserts one otherwise. The reviews table is unchanged. |
| Locations.FetchLocations | src/Locations.php:16-96 | Nothing is fetched exactly when a client credential is missing. An account listing that throws is reported. Locations, or a loop that never ends, come only after the accounts and the first page were served. `followTokens` false re-sends the first request as written, and true follows `nextPageToken` (the correction). |
| Locations.SyncLocations | src/Locations.php:16-130 | Returns the outcome of `FetchLocations`, as written when `followTokens` is false. The table is upserted only when locations were fetched. |
| Locations.SyncStoresEveryServedLocation | src/Locations.php:97-126 | With the corrected, token-following fetch, the credentials set and the API serving `pages`, every served location is listed once and stored. |
| Locations.SyncAsWrittenRepeatsFirstPage | src/Locations.php:65-94 | With the fetch as written, the sync lists only copies of the first page's locations, or its loop never ends, whatever the API serves after the first page. |
| Locations.GetLocations | src/DBTables.php:221-235 | Returns the stored rows when there are any. Otherwise it syncs, with the given `followTokens`, and returns what the sync returned. |
| Reviews.StarValue | src/Reviews.php:175-195 | Only the five enum words map to a rating, and it is in 1..5. |
| Reviews.CarriedRatingIsLastKnown | src/Reviews.php:173-195 | The rating written for a review is the last known word's value so far, and null when there is none: `$the_rating` is never reset. |
| Reviews.ReviewContents | src/Reviews.php:169-222 | One row content per fetched review, in order, with the same review id. |
| Reviews.UpsertAllCharacterised | src/Reviews.php:169-226 | Syncing a batch keeps every old row in place with its key and `is_hidden`, refreshed to the last content for its id. New ids are appended once each, visible, under fresh keys. Every id of the batch ends up stored. |
| Reviews.StoredBatchOnlyUpdates | src/Reviews.php:171-210 | When every id is already stored, a sync adds no row and re-keys none. |
| Reviews.UpsertAllIdempotent | src/Reviews.php:169-226 | Syncing the same batch twice leaves what one sync left. |
| Reviews.StoreReviews | src/Reviews.php:169-226 | The loop, which carries `$the_rating` across reviews, writes exactly the upsert of the batch. |
| Reviews.Settled | src/Reviews.php:239-244 | The option keeps its other keys and sets `last_synced_on`, and `average_rating` and `total_review_count` from the last page. When no page was fetched, `average_rating` becomes 0 (`round(null, 1)`) and `total_review_count` null. |
| Reviews.SyncReviews | src/Reviews.php:116-255 | Every exception path stores nothing and reports the errors. The locations are synced before the reviews, by `FetchLocations` with `followLocationTokens` (false as written). A completed loop upserts the gathered reviews. A loop that never ends is `Diverged`. The response is sent as JSON exactly when `is_ajax` is set. |
| Reviews.UpsertAllStoresEvery | src/Reviews.php:169-226 | After a sync, every review id of the batch is stored. |
| Reviews.SyncStoresEveryServedReview | src/Reviews.php:159-226 | With the API serving `pages`, every served review is gathered once and stored. |
| Reviews.ReviewsSyncCronJob | src/Reviews.php:40-55 | On a changed frequency the sync event is rescheduled from now with the new recurrence. Otherwise no event changes. |
| Reviews.GmbcLocationChanged | src/Reviews.php:64-69 | The reviews table is emptied exactly when a non-empty location name was replaced. |
| Reviews.BuildReviewsSchema | src/Reviews.php:71-104 | One entry per review, with the same author and rating. `reviewBody` is present exactly when the comment is loosely non-null, and best and worst ratings are 5 and 1. |
| TemplateFunctions.TemplateCandidates | src/gmbc-functions.php:25-30 | The named variant comes first whenever a name is given, and `slug.php` comes last. |
| TemplateFunctions.SearchPaths | src/gmbc-functions.php:66-77 | Three paths are tried for each name, and none is empty in PHP's sense, so a located file is always loaded when asked. |
| TemplateFunctions.FirstExisting | src/gmbc-functions.php:66-79 | The first existing path, or none exactly when none exists. |
| TemplateFunctions.LocatedIsFirstFound | src/gmbc-functions.php:57-80 | Nothing is located exactly when no name is found. Otherwise the result is the first existing path of the first name found. |
| TemplateFunctions.LocateTemplate | src/gmbc-functions.php:52-88 | The loop with its `break` locates what `Located` specifies, and loads it only when asked and found. |
| TemplateFunctions.LookIn | src/gmbc-functions.php:65-79 | The `if`/`elseif` chain of one round gives the first existing of the three paths, or none. |
| TemplateFunctions.GetTemplatePart | src/gmbc-functions.php:19-37 | Locates the candidates for slug and name. |
| TemplateFunctions.NamedTemplateFirst | src/gmbc-functions.php:25-35 | The named variant wins wherever it exists, and `slug.php` is used only when no copy of the variant exists. |
| TemplateFunctions.ChildThemeOverrides | src/gmbc-functions.php:66-68 | A child-theme copy overrides the plugin's own. |
| TemplateFunctions.Units | src/gmbc-functions.php:120-121 | Weeks and remaining days recompose the day count, with fewer than 7 days left. |
| TemplateFunctions.Labels | src/gmbc-functions.php:133-139 | No label is produced exactly when every unit is zero. |
| TemplateFunctions.TimeElapsedString | src/gmbc-functions.php:115-143 | The loop method gives `ElapsedText`. |
| TemplateFunctions.JustNowIffNoTimePassed | src/gmbc-functions.php:142 | The text is "just now" exactly when every field of the interval is zero. |
| TemplateFunctions.ShortFormNamesLargestUnit | src/gmbc-functions.php:141-142 | Without `$full`, only the largest non-zero unit is named. |
| TemplateFunctions.PageCount | src/gmbc-functions.php:160 | The page count is the ceiling of count / per_page. A zero per_page gives 0 (INF or NAN cast to int). |
| TemplateFunctions.ReviewPagination | src/gmbc-functions.php:156-184 | "Prev" shows exactly off page 1 and "next" exactly off the last page, each pointing one page away. |
| TemplateFunctions.PaginationLinksStayInRange | src/gmbc-functions.php:175-181 | On any page of a non-empty listing, every link shown leads to another page of it. |
| TemplateFunctions.CurrentReviews | src/gmbc-functions.php:195-227 | Renders the page's window of reviews, and the schema entries match the rendered reviews one to one. |
| TemplateFunctions.PageWindowSize | src/gmbc-functions.php:203-213 | A page never shows more than `per_page` reviews. |
| TemplateFunctions.PagesShowEveryReview | src/gmbc-functions.php:199-213 | Pages 1 to the page count show every review exactly once, in order. |
| TemplateFunctions.RoundTenths | src/gmbc-functions.php:242 | PHP `round`: the nearest integer, with halves rounded away from zero. |
| TemplateFunctions.GetStars | src/gmbc-functions.php:238-258 | The two loops draw the star row of the rounded average. |
| TemplateFunctions.StarRowOfRating | src/gmbc-functions.php:244-254 | A rating from 0 to 5 draws five stars, the first `rating` of them solid. |
| TemplateFunctions.AverageRatingStars | src/gmbc-functions.php:242-254 | An average from 0 to 5 draws five stars, with the solid count within half a star of it. |
| AdminListTable.CommentPrefix | src/Admin/ReviewsListTable.php:251 | `SUBSTRING(comment,1,255)` is a prefix of at most 255 characters and is the whole comment when that is short enough. NULL stays NULL. |
| AdminListTable.TableData | src/Admin/ReviewsListTable.php:243-259 | One list item per stored row, in storage order, with `update_time` as the DATETIME column returns it. |
| AdminListTable.FilterTableData | src/Admin/ReviewsListTable.php:106-117 | Keeps exactly the rows some value of which contains the key, ignoring case. |
| AdminListTable.FilterKeepsOrder | src/Admin/ReviewsListTable.php:108 | Filtering preserves the relative order of the rows kept. |
| AdminListTable.FilterIdempotent | src/Admin/ReviewsListTable.php:106-117 | Filtering twice with one key equals filtering once. |
| AdminListTable.BulkHideSetsSelected | src/Admin/ReviewsListTable.php:201-213 | A bulk hide hides exactly the selected rows and changes nothing else. |
| AdminListTable.HandleBulkActions | src/Admin/ReviewsListTable.php:196-221 | The loop hides the selected rows when the user may manage options, and otherwise reports the refusal. |
| AdminListTable.HandleTableActions | src/Admin/ReviewsListTable.php:124-188 | The table becomes `TableActions` of the old one: a verified hide or unhide sets the requested row's flag, and a verified bulk hide runs `handle_bulk_actions`. A failed nonce skips only its own step. The locations table is unchanged. |
| AdminListTable.InvalidNonceChangesNothing | src/Admin/ReviewsListTable.php:132-158 | A hide or unhide request whose nonce fails changes no row. Only a verified bulk hide sent with it can. |
| AdminListTable.UnauthorizedBulkChangesNothing | src/Admin/ReviewsListTable.php:201-219 | Without `manage_options` a bulk hide changes no row. |
| AdminListTable.ColumnIsHidden | src/Admin/ReviewsListTable.php:291-320 | The column shows "Hidden" exactly for hidden rows, and offers the action that flips the flag, with its nonce. |
| AdminListTable.RowActionFlipsHidden | src/Admin/ReviewsListTable.php:296-313 | Following a row's link with a valid nonce flips that row's flag and leaves every other row unchanged (the handler is at lines 132-170). |
| AdminListTable.ColumnStarRating | src/Admin/ReviewsListTable.php:322-341 | The loops draw the rating's star row, followed by the rating in brackets. |
| AdminListTable.ReviewsListTable.PrepareItems | src/Admin/ReviewsListTable.php:58-97 | Runs the actions, then always lists the current page of the filtered rows with their counts. |
| AdminListTable.ReviewsListTable.ListPage | src/Admin/ReviewsListTable.php:69-95 | The items are the page's slice of the rows, filtered when the search key is truthy. The counts are those of the filtered rows. |
| AdminListTable.ListPagesCoverListing | src/Admin/ReviewsListTable.php:86-95 | The table's pages cover the listing exactly, and each holds at most `per_page` rows. |
| Shortcodes.ConstructionError | src/Shortcodes/Shortcode.php:18-26 | Throws exactly when a property is missing, naming `$tag_name` first. |
| Shortcodes.Construct | src/Shortcodes/Shortcode.php:16-30 | Either throws and registers nothing, or registers the class for its tag. |
| Shortcodes.MissingPropertiesDistinguished | src/Shortcodes/Shortcode.php:22-25 | The two messages differ. |
| Shortcodes.ShortcodeRegistry.AddShortcode | src/Shortcodes/Shortcode.php:29 | A later registration of a tag replaces an earlier one. |
| ReviewsShortcode.OptionDefault | src/Shortcodes/Reviews.php:53-55 | The default is the option's value when it is non-empty, and '' otherwise. |
| ReviewsShortcode.ConstructedAtts | src/Shortcodes/Reviews.php:24-37 | The declared attributes, with the three defaults taken from the settings (lines 53-55). |
| ReviewsShortcode.ShortcodeAtts | src/Shortcodes/Reviews.php:72 | Exactly the allowed names, each with the given value when present and the default otherwise. |
| ReviewsShortcode.LimitClause | src/Shortcodes/Reviews.php:101 | No LIMIT exactly for "all", in any case and with any surrounding whitespace. Otherwise the attribute's text. |
| ReviewsShortcode.IdList | src/Shortcodes/Reviews.php:108 | `explode` always yields at least one id. |
| ReviewsShortcode.GetReviews | src/Shortcodes/Reviews.php:94-135 | The query is the table, the WHERE clause and the LIMIT. The clause is as written, or corrected when `corrected` is set. The settings and the queried rows are returned unchanged. |
| ReviewsShortcode.IdFilter | src/Shortcodes/Reviews.php:112-118 | The loop writes each id after "ID = ", joined by " OR ID = ", with no separator after the last. |
| ReviewsShortcode.BuildWhere | src/Shortcodes/Reviews.php:104-120 | Builds the rating bound and the hidden flag, then the id filter when ids are given. That is `WhereClause` as written, and with `corrected` the filter is in parentheses when there are several ids. |
| ReviewsShortcode.CorrectionOnlyForSeveralIds | src/Shortcodes/Reviews.php:104-120 | The corrected clause differs from the clause as written exactly when the id attribute lists more than one id. |
| ReviewsShortcode.ReviewsShortcodeObject.constructor | src/Shortcodes/Reviews.php:49-59 | Fills in the defaults and always registers `gmbc_reviews`. |
| ReviewsShortcode.ReviewsShortcodeObject.Execute | src/Shortcodes/Reviews.php:69-86 | The query uses the resolved attributes, and the template receives them with the settings and the queried rows. |
| ReviewsShortcode.WhereClauseIsAsWritten | src/Shortcodes/Reviews.php:104-120 | The clause text is the condition that SQL precedence groups as "(rating and visible and first id) or later ids". |
| ReviewsShortcode.IntendedCondSelects | src/Shortcodes/Reviews.php:103-120 | The corrected clause selects exactly the visible rows rated at least the minimum whose id is listed. |
| ReviewsShortcode.IdFilterShowsHiddenReview | src/Shortcodes/Reviews.php:107-120 | A hidden one-star review with ID 2 is selected by `id="1,2"` with minimum 3, although the corrected clause rejects it. |
| TemplateParts.ReviewTemplate | src/template-parts/review.php:4-37 | Nothing is printed for empty args. Otherwise the output has the row's star row, bracketed rating, elapsed text, name, photo and comment. |
| TemplateParts.ReviewStarsFive | src/template-parts/review.php:9-19 | A rating from 1 to 5 draws five stars, the first `rating` of them solid. |
| TemplateParts.FirstNamed | src/template-parts/reviews.php:9-16 | No match exactly when no location's name is identical to the saved one. Otherwise the first match. |
| TemplateParts.FindLocation | src/template-parts/reviews.php:9-16 | The loop with its `break` finds the first matching location. |
| TemplateParts.SectionSuffixOfResourceName | src/template-parts/reviews.php:7-20 | For a saved `locations/{id}` the section id ends in `{id}`. |
| TemplateParts.ReviewsTemplate | src/template-parts/reviews.php:4-45 | Prints nothing exactly when there are no reviews. A sync exception propagates. Otherwise the section shows the matching location, the average and its stars, the page's reviews with schema, the link and the pagination. |
| TemplateParts.DefaultReviewsLinkText | src/template-parts/reviews.php:39 | Without a link text the link reads "Write a Review". |
| Autoloader.AutoloadHandlesOwnNamespace | gmb-connect.php:31-34 | Only `GMBConnect` and names under `GMBConnect\` are handled. |
| Autoloader.AutoloadLooksUnderSource | gmb-connect.php:39-54 | `GMBConnect\rest` is looked up at the normalized path of `src/rest.php`, and required exactly when that file is readable. |
| Autoloader.RequiredFileNormalized | gmb-connect.php:48-54 | A required file is readable and its path is normalized. |
| Autoloader.NormalizePathNormalized | gmb-connect.php:48 | `wp_normalize_path` leaves no backslash and no collapsible slash run, and an upper-case drive letter. |
| Autoloader.NormalizePathIdempotent | gmb-connect.php:48 | Normalizing a path twice equals normalizing it once. |
| Autoloader.CollapseKeepsAllButSlashes | gmb-connect.php:48 | Collapsing removes slashes and nothing else, and never lengthens the path. |
| Autoloader.CollapsedUnchanged | gmb-connect.php:48 | A path with nothing left to collapse is left unchanged. |

## Left out

- The Google API client and the OAuth library: accounts, locations and reviews are given as responses and listing functions, and `get_client`'s effect on the syncs is reduced to the credentials guard.
- The paging loops: a loop that would request more than `fuel` pages is reported as never ending (`OutOfFuel`, `Diverged`, `NeverEnds`), because the API could keep reporting a larger total forever.
- `Locations.FetchLocations`, `SyncLocations`, `GetLocations` and `Reviews.SyncReviews` take a switch: `false` is the loop as written, which re-sends the first request, and `true` the corrected loop that follows `nextPageToken` (see Findings). The property that every served location is stored (`SyncStoresEveryServedLocation`) is proved for the corrected loop only.
- The rounded average (`RoundedRating`, `AverageRatingStars`): averages are decimal numbers given in tenths. Other floating-point behaviour is not modelled.
- `WpCron.Scheduler`: WP-Cron is reduced to at most one event per hook. `wp_schedule_event` does not de-duplicate recurring events, so the plugin's `ReviewsSyncCronJob` path, which unschedules only the next event it finds, is modelled as if no duplicate could exist.
- TemplateFunctions.PageCount, `ReviewPagination`, `CurrentReviews` and `AdminArea.SanitizedEntry`: PHP 7 semantics, the oldest version the plugin supports (gmb-connect.php:16). A `per_page` of 0, which `(int)''` gives whenever the `reviews_per_page` option is empty, makes `ceil(count / per_page)` 0 here. `strpos` on an array value gives null. Under PHP 8 both calls throw (`DivisionByZeroError`, `TypeError`).
- `Reviews.Settled`: a response without `totalReviewCount` is not distinguished from a count of 0.
- The `rating_min` and `reviews_max` resolution at src/Reviews.php:128-135 is not modelled: nothing in the sync reads its result.
- The aggregate schema (src/Reviews.php:257-296), the JSON and HTML output, the `wp_footer` hooks, and every action and filter hook: the template parts are reduced to the values they print.
- The `gmbc_review_classes` filter and `load_template`'s output.
- WP-Cron's validation of recurrence names, and `FILTER_SANITIZE_URL`.
- Key loading: `Key::loadFromAsciiSafeString` is folded into the cipher's decrypt function, whose failure stands for either exception.
- SQL: queries are not executed. The rows a query returns are a parameter of `GetReviews`. Collation is not modelled. Nor is the rejection of a NULL by a NOT NULL column: a null `star_rating`, and the null `location_id` that `list()` gives for a location name without '/' (written to the NOT NULL column at src/DBTables.php:48), are stored as the model's values (no rating, and "").
- AdminListTable.FilterTableData: the search reads `update_time` as the `DATETIME` column returns it. MySQL's conversion of Google's RFC 3339 text (for example `2021-03-01T10:15:30.123Z` read back as `2021-03-01 10:15:30`) is the parameter `datetimeText`, not modelled.
- ORDER BY in `get_table_data`: rows come in storage order.
- `wp_unslash` and `stripslashes` on request values.
- `(int)` casts: exponent notation and integer overflow are not modelled.
- A string `average_rating` passed to `round()`: it is read through the `(int)` cast of its text.
- `invalid_nonce_redirect` and `graceful_exit`: no file of the plugin defines them, and `WP_List_Table` answers a call to an undefined method with false. `TableActions`, `HandleTableActions` and `PrepareItems` therefore treat both calls as doing nothing, and the table is listed after a failed nonce or a bulk hide.
- Stream wrappers in `wp_normalize_path`.
- `require_once` of the located file: only the choice of file is modelled.
- The clock: elapsed time is the `DateInterval` value, and `now` is a parameter.
- `register_activation_hook`, and the hooks the `Loader` constructor adds.
- The `setup_tables` DDL: it is reduced to two empty tables.
- The template lookup is not chained: `ReviewsShortcodeObject.Execute` and `CurrentReviews` take the rendering of the `reviews` and `review` parts as the separate models `TemplateParts.ReviewsTemplate` and `TemplateParts.ReviewTemplate`. `execute` and `gmbc_get_current_reviews` ask for the templates with the name '' (`reviews-.php`, `review-.php`), which `TemplateCandidates` covers.
- ReviewsShortcode.BuildWhere, `GetReviews` and `Execute` take a switch `corrected`: `false` builds `WhereClause` as written, and `true` the corrected clause (see Findings).
- Exceptions that nothing catches are modelled only where a sync can throw inside `get_locations`, as `Uncaught`. Elsewhere the model follows the source's `try` blocks.
- src/Admin/Support.php, src/Admin/Reviews.php and src/js/gmbc-reviews.js are not part of this model.

## Findings

| source | as written | input that shows it | evidently intended | confidence | as-written member | corrected member |
|---|---|---|---|---|---|---|
| src/Locations.php:65-94 | The paging loop re-sends the first `listLocations` request without a `pageToken`. | An account with two locations served one per page: the loop gathers the first page twice and never sees the second. | Send the previous page's `nextPageToken`, as the reviews loop does. | not executed | Paging.RepeatingFirstRequestDuplicates | Paging.FollowingTokensCollectsEveryPage |
| src/Shortcodes/Reviews.php:107-120 | The id filter is appended as `AND ID = a OR ID = b` without parentheses, so every id after the first escapes the rating bound and the hidden flag. | `[gmbc_reviews id="1,2"]` with a minimum rating of 3 selects a hidden one-star review whose ID is 2. | `AND (ID = a OR ID = b)` | not executed | ReviewsShortcode.IdFilterShowsHiddenReview | ReviewsShortcode.IntendedCondSelects |
