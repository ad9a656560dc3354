/**
 * `Locations::sync_locations` and `DBTables::get_locations`: list the first
 * account's locations and store each in `gmbc_locations`, updating the row
 * whose `location_id` matches or inserting a new one.
 */
module Locations {
  import opened Common
  import opened Text
  import opened GoogleApi
  import opened Credentials
  import opened DBTables
  import opened Paging

  /** `list($path, $location_id) = explode('/', $location->name)`: the second
      `/`-separated segment, or "" when the name has none. */
  function LocationIdOf(name: string): string
  {
    Part(Split(name, "/"), 1)
  }

  /** For a resource name `locations/{id}` the id is what follows the slash. */
  lemma LocationIdOfResourceName(prefix: string, id: string)
    requires forall i :: 0 <= i < |prefix| ==> prefix[i] != '/'
    requires forall i :: 0 <= i < |id| ==> id[i] != '/'
    ensures LocationIdOf(prefix + "/" + id) == id
  {
    SplitAtFirst(prefix, "/", id);
    SplitWithoutSeparator(id, "/");
  }

  /** A name without a slash has no second segment: the id reads as "". */
  lemma LocationIdWithoutSlash(name: string)
    requires forall i :: 0 <= i < |name| ==> name[i] != '/'
    ensures LocationIdOf(name) == ""
  {
    SplitWithoutSeparator(name, "/");
  }

  /** The columns written for one listed location. */
  function LocationContentOf(l: ApiLocation): LocationContent
  {
    LocationContent(l.name, l.title, LocationIdOf(l.name), l.newReviewUri, l.mapsUri)
  }

  /** One pass of the `foreach`: update when `check_synced_locations` finds the id, insert otherwise. */
  function UpsertLocation(t: LocationTable, c: LocationContent): LocationTable
  {
    if |SelectLocationIds(t.rows, c.locationId)| > 0 then LocationsUpdated(t, c) else LocationInserted(t, c)
  }

  /** The whole `foreach`, location by location. */
  function UpsertLocations(t: LocationTable, ls: seq<ApiLocation>): LocationTable
  {
    if |ls| == 0 then t
    else UpsertLocation(UpsertLocations(t, ls[..|ls| - 1]), LocationContentOf(ls[|ls| - 1]))
  }

  /** Rows of `t` are still in `r`, at the same place, with the same key and location id. */
  ghost predicate KeepsRows(t: LocationTable, r: LocationTable)
  {
    |t.rows| <= |r.rows| &&
    forall i :: 0 <= i < |t.rows| ==>
      r.rows[i].id == t.rows[i].id && r.rows[i].content.locationId == t.rows[i].content.locationId
  }

  lemma UpsertLocationStep(t: LocationTable, c: LocationContent)
    ensures KeepsRows(t, UpsertLocation(t, c))
    ensures HasLocation(UpsertLocation(t, c).rows, c.locationId)
    ensures forall x :: HasLocation(t.rows, x) ==> HasLocation(UpsertLocation(t, c).rows, x)
  {
    var r := UpsertLocation(t, c);
    if |SelectLocationIds(t.rows, c.locationId)| == 0 {
      assert r.rows[|t.rows|].content.locationId == c.locationId;
    }
    forall x | HasLocation(t.rows, x)
      ensures HasLocation(r.rows, x)
    {
      var i :| 0 <= i < |t.rows| && t.rows[i].content.locationId == x;
      assert r.rows[i].content.locationId == x;
    }
  }

  /** After the `foreach`, every listed location's id is in the table and no
      earlier row was lost or re-keyed. */
  lemma {:induction false} UpsertLocationsStoresEvery(t: LocationTable, ls: seq<ApiLocation>)
    ensures KeepsRows(t, UpsertLocations(t, ls))
    ensures forall l :: l in ls ==> HasLocation(UpsertLocations(t, ls).rows, LocationIdOf(l.name))
    decreases |ls|
  {
    if |ls| > 0 {
      var init := ls[..|ls| - 1];
      var last := ls[|ls| - 1];
      var mid := UpsertLocations(t, init);
      UpsertLocationsStoresEvery(t, init);
      UpsertLocationStep(mid, LocationContentOf(last));
      forall l | l in ls
        ensures HasLocation(UpsertLocations(t, ls).rows, LocationIdOf(l.name))
      {
        if l != last {
          assert l in init;
        }
      }
    }
  }

  /** The guard: both client credentials are non-empty. */
  predicate Configured(creds: Option<Creds>)
  {
    FilledEntry(creds, "client_id") && FilledEntry(creds, "client_secret")
  }

  /** What `sync_locations` ends with: nothing (the guard failed; PHP returns
      null), the listed locations, an exception, or a paging loop that does not end. */
  datatype LocationsFetch =
    | NotConfigured
    | LocationsFetched(locations: seq<ApiLocation>)
    | LocationsThrew(errors: seq<string>)
    | LocationsDiverged

  /** The API side of `sync_locations`. With `followTokens` false the paging
      loop re-sends the first request, as the source does; with it true the
      loop follows `nextPageToken`, as it evidently means to. */
  function FetchLocations(creds: Option<Creds>, accounts: Response<seq<string>>,
                          listLocations: string -> Lister<ApiLocation, ()>, followTokens: bool, fuel: nat)
    : (r: LocationsFetch)
    ensures r.NotConfigured? <==> !Configured(creds)
    ensures accounts.Thrown? && Configured(creds) ==> r == LocationsThrew(accounts.errors)
    ensures r.LocationsFetched? || r.LocationsDiverged? ==>
      accounts.Ok? && listLocations(FirstAccountName(accounts.value))(None).Ok?
  {
    if !Configured(creds) then NotConfigured
    else
      match accounts
      case Thrown(e) => LocationsThrew(e)
      case Ok(names) =>
        var list := listLocations(FirstAccountName(names));
        match list(None)
        case Thrown(e) => LocationsThrew(e)
        case Ok(first) =>
          match Collect(list, followTokens, [], first, fuel)
          case Collected(items, _) => LocationsFetched(items)
          case PageFailed(e, _) => LocationsThrew(e)
          case OutOfFuel => LocationsDiverged
  }

  lemma UpsertLocationsSnoc(t: LocationTable, ls: seq<ApiLocation>, i: nat)
    requires i < |ls|
    ensures UpsertLocations(t, ls[..i + 1]) == UpsertLocation(UpsertLocations(t, ls[..i]), LocationContentOf(ls[i]))
  {
    assert ls[..i + 1][..i] == ls[..i];
  }

  /** The `foreach` over the listed locations. */
  method StoreLocations(db: Database, ls: seq<ApiLocation>)
    modifies db
    ensures db.locations == UpsertLocations(old(db.locations), ls)
    ensures db.reviews == old(db.reviews)
  {
    ghost var t := db.locations;
    for i := 0 to |ls|
      invariant db.locations == UpsertLocations(t, ls[..i])
      invariant db.reviews == old(db.reviews)
    {
      StoreLocation(db, LocationContentOf(ls[i]));
      UpsertLocationsSnoc(t, ls, i);
    }
    assert ls[..|ls|] == ls;
  }

  /** One pass of the `foreach`: `check_synced_locations`, then the update or the insert. */
  method StoreLocation(db: Database, c: LocationContent)
    modifies db
    ensures db.locations == UpsertLocation(old(db.locations), c)
    ensures db.reviews == old(db.reviews)
  {
    var existing := db.CheckSyncedLocations(c.locationId);
    assert existing.Some? <==> |SelectLocationIds(db.locations.rows, c.locationId)| > 0;
    if existing.Some? {
      db.UpdateLocation(c);
    } else {
      db.InsertLocation(c);
    }
  }

  /** `Locations::sync_locations`; `followTokens` as in `FetchLocations`. */
  method SyncLocations(db: Database, creds: Option<Creds>, accounts: Response<seq<string>>,
                       listLocations: string -> Lister<ApiLocation, ()>, followTokens: bool, fuel: nat)
    returns (result: LocationsFetch)
    modifies db
    ensures result == FetchLocations(creds, accounts, listLocations, followTokens, fuel)
    ensures db.locations ==
      (if result.LocationsFetched? then UpsertLocations(old(db.locations), result.locations) else old(db.locations))
    ensures db.reviews == old(db.reviews)
  {
    if !Configured(creds) {
      return NotConfigured;
    }
    match accounts {
      case Thrown(e) =>
        return LocationsThrew(e);
      case Ok(names) =>
        var list := listLocations(FirstAccountName(names));
        var response := list(None);
        match response {
          case Thrown(e) =>
            return LocationsThrew(e);
          case Ok(first) =>
            var paged := CollectPages(list, followTokens, first, fuel);
            match paged {
              case Collected(items, _) =>
                StoreLocations(db, items);
                return LocationsFetched(items);
              case PageFailed(e, _) =>
                return LocationsThrew(e);
              case OutOfFuel =>
                return LocationsDiverged;
            }
        }
    }
  }

  /** With the credentials filled in and the API serving `pages`, the
      corrected sync, which follows `nextPageToken`, lists every location of
      every page once and stores each one. */
  lemma SyncStoresEveryServedLocation(creds: Option<Creds>, names: seq<string>,
                                      listLocations: string -> Lister<ApiLocation, ()>,
                                      pages: seq<LocationsPage>, fuel: nat, t: LocationTable)
    requires Configured(creds)
    requires Serves(listLocations(FirstAccountName(names)), pages)
    requires fuel >= |pages|
    ensures FetchLocations(creds, Ok(names), listLocations, true, fuel) == LocationsFetched(Flatten(pages))
    ensures forall l :: l in Flatten(pages) ==> HasLocation(UpsertLocations(t, Flatten(pages)).rows, LocationIdOf(l.name))
  {
    FollowingTokensCollectsEveryPage(listLocations(FirstAccountName(names)), pages, fuel);
    UpsertLocationsStoresEvery(t, Flatten(pages));
  }

  /** The sync as written: whatever the API serves after the first page, it
      lists copies of the first page's locations, or its loop does not end. */
  lemma SyncAsWrittenRepeatsFirstPage(creds: Option<Creds>, names: seq<string>,
                                      listLocations: string -> Lister<ApiLocation, ()>,
                                      first: LocationsPage, fuel: nat)
    requires Configured(creds)
    requires listLocations(FirstAccountName(names))(None) == Ok(first)
    ensures var r := FetchLocations(creds, Ok(names), listLocations, false, fuel);
      r.LocationsDiverged? || (r.LocationsFetched? && exists j :: r.locations == Repeat(first.items, j))
  {
    RepeatingFirstRequest(listLocations(FirstAccountName(names)), first, 0, fuel);
  }

  /** What `get_locations` returns: the stored rows, or what a sync returned. */
  datatype LocationsListing = StoredRows(rows: seq<LocationRow>) | SyncedFromApi(fetch: LocationsFetch)

  /** `DBTables::get_locations`: the table when it has rows, otherwise a sync. */
  method GetLocations(db: Database, creds: Option<Creds>, accounts: Response<seq<string>>,
                      listLocations: string -> Lister<ApiLocation, ()>, followTokens: bool, fuel: nat)
    returns (result: LocationsListing)
    modifies db
    ensures |old(db.locations.rows)| > 0 ==>
      result == StoredRows(old(db.locations.rows)) && db.locations == old(db.locations)
    ensures |old(db.locations.rows)| == 0 ==>
      result == SyncedFromApi(FetchLocations(creds, accounts, listLocations, followTokens, fuel)) &&
      db.locations == (if result.fetch.LocationsFetched?
                       then UpsertLocations(old(db.locations), result.fetch.locations)
                       else old(db.locations))
    ensures db.reviews == old(db.reviews)
  {
    var rows := db.locations.rows;
    if |rows| > 0 {
      return StoredRows(rows);
    }
    var fetched := SyncLocations(db, creds, accounts, listLocations, followTokens, fuel);
    result := SyncedFromApi(fetched);
  }
}
