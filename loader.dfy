/**
 * `GMBConnect\Loader`: the singleton accessor, the OAuth client set-up
 * decision in `get_client`, and the extra WP-Cron schedules.
 */
module PluginLoader {
  import opened Common
  import opened Text
  import opened Credentials
  import opened AdminArea

  // -------------------------------------------------------------------------
  // get_instance
  // -------------------------------------------------------------------------

  /** The plugin object; what its constructor hooks up is not modelled. */
  class Loader {
    constructor ()
    {
    }
  }

  /** Holder of the static `Loader::$instance`. */
  class LoaderSlot {
    var instance: Loader?

    constructor ()
      ensures instance == null
    {
      instance := null;
    }

    /** `get_instance`: create the loader on first use, then always return it. */
    method GetInstance() returns (l: Loader)
      modifies this
      ensures old(instance) != null ==> l == old(instance)
      ensures old(instance) == null ==> fresh(l)
      ensures instance == l
    {
      if instance == null {
        instance := new Loader();
      }
      l := instance;
    }
  }

  /** Two calls in a row hand back the same object. */
  method GetInstanceTwice(slot: LoaderSlot) returns (first: Loader, second: Loader)
    modifies slot
    ensures first == second && slot.instance == first
  {
    first := slot.GetInstance();
    second := slot.GetInstance();
  }

  // -------------------------------------------------------------------------
  // get_client
  // -------------------------------------------------------------------------

  /** What the Google client reports about the stored token and returns from its
      calls; the OAuth library itself is not modelled. */
  datatype ClientView = ClientView(
    tokenExpired: bool,          // isAccessTokenExpired()
    refreshToken: string,        // getRefreshToken(), "" when there is none
    refreshed: CredValue,        // fetchAccessTokenWithRefreshToken(...)
    authUrl: string,             // createAuthUrl()
    exchanged: seq<(string, string)>)  // fetchAccessTokenWithAuthCode(...)

  /** The client built from the decrypted credentials, together with what the
      call stored with `update_option`, the auth URL it built, and whether it
      sent a `Location` header. */
  datatype ClientSetup = ClientSetup(
    clientId: string,
    clientSecret: string,
    redirectUri: Option<CredValue>,
    persisted: Option<Creds>,
    authUrl: Option<string>,
    redirected: bool)

  datatype ClientOutcome =
    | NoClient                    // `return false`
    | KeyOrDecryptThrew           // the key load or the decryption threw
    | AuthThrew(message: string)  // `throw new \Exception(join(',', $access_token))`
    | Client(setup: ClientSetup)

  /** `$creds[$k]` when set and not empty, else ''. */
  function EntryOrEmpty(creds: Creds, k: string): CredValue
  {
    if k in creds && Filled(creds[k]) then creds[k] else StrVal("")
  }

  function Keys(entries: seq<(string, string)>): set<string>
  {
    set i | 0 <= i < |entries| :: entries[i].0
  }

  function Values(entries: seq<(string, string)>): (vs: seq<string>)
    ensures |vs| == |entries|
  {
    seq(|entries|, i requires 0 <= i < |entries| => entries[i].1)
  }

  /** `get_client`. `code` is `$_GET['code']` when set. */
  function GetClient(creds: Option<Creds>, cipher: Cipher, view: ClientView, code: Option<string>): ClientOutcome
  {
    if creds.None? then NoClient
    else
      var c := creds.value;
      match (Decrypted(EntryOrEmpty(c, "client_id"), cipher), Decrypted(EntryOrEmpty(c, "client_secret"), cipher))
      case (None, _) => KeyOrDecryptThrew
      case (_, None) => KeyOrDecryptThrew
      case (Some(id), Some(secret)) =>
        var redirect := if FilledEntry(creds, "redirect_uri") then Some(c["redirect_uri"]) else None;
        var base := ClientSetup(id, secret, redirect, None, None, false);
        if FilledEntry(creds, "access_token") then
          if !view.tokenExpired then Client(base)
          else if !EmptyString(view.refreshToken) then
            Client(base.(persisted := Some(c["access_token" := view.refreshed])))
          else
            Client(base.(authUrl := Some(view.authUrl)))
        else if code.None? then
          Client(base.(authUrl := Some(view.authUrl), redirected := true))
        else if "error" in Keys(view.exchanged) then
          AuthThrew(Join(Values(view.exchanged), ","))
        else
          Client(base.(persisted := Some(c["access_token" := ArrayVal(view.exchanged)])))
  }

  /** `get_client` returns false exactly when the option does not exist. */
  lemma NoClientIffNoOption(creds: Option<Creds>, cipher: Cipher, view: ClientView, code: Option<string>)
    ensures GetClient(creds, cipher, view, code).NoClient? <==> creds.None?
  {
  }

  /** Whatever `get_client` stores is the option it read with only
      `access_token` replaced: by the refresh result for an expired token with
      a refresh token, or by the exchanged token after a `code` came back. */
  lemma PersistsOnlyAccessToken(creds: Option<Creds>, cipher: Cipher, view: ClientView, code: Option<string>)
    ensures var r := GetClient(creds, cipher, view, code);
      r.Client? && r.setup.persisted.Some? ==>
        creds.Some? &&
        r.setup.persisted.value.Keys == creds.value.Keys + {"access_token"} &&
        (forall k :: k in creds.value && k != "access_token" ==> r.setup.persisted.value[k] == creds.value[k]) &&
        r.setup.persisted.value["access_token"] ==
          (if FilledEntry(creds, "access_token") then view.refreshed else ArrayVal(view.exchanged))
    ensures var r := GetClient(creds, cipher, view, code);
      r.Client? && FilledEntry(creds, "access_token") ==>
        (r.setup.persisted.Some? <==> view.tokenExpired && !EmptyString(view.refreshToken)) &&
        (r.setup.authUrl.Some? <==> view.tokenExpired && EmptyString(view.refreshToken)) &&
        !r.setup.redirected
    ensures var r := GetClient(creds, cipher, view, code);
      r.Client? && !FilledEntry(creds, "access_token") ==>
        (r.setup.redirected <==> code.None?) && (r.setup.persisted.Some? <==> code.Some?)
  {
  }

  /** A failed authorization throws before anything is stored. */
  lemma ErrorExchangeThrows(creds: Option<Creds>, cipher: Cipher, view: ClientView, code: Option<string>)
    requires GetClient(creds, cipher, view, code).Client? || GetClient(creds, cipher, view, code).AuthThrew?
    requires !FilledEntry(creds, "access_token") && code.Some?
    ensures GetClient(creds, cipher, view, code).AuthThrew? <==> exists i :: 0 <= i < |view.exchanged| && view.exchanged[i].0 == "error"
  {
    if exists i :: 0 <= i < |view.exchanged| && view.exchanged[i].0 == "error" {
      var i :| 0 <= i < |view.exchanged| && view.exchanged[i].0 == "error";
      assert "error" in Keys(view.exchanged);
    }
  }

  /** The client is built from the plaintext credentials that the settings form
      saved: `get_client` decrypts what `sanitize_client_creds` encrypted. */
  lemma ClientUsesSavedCredentials(value: Creds, cipher: Cipher, key: string, view: ClientView, code: Option<string>)
    requires Sound(cipher) && ColonFreeCiphertext(cipher)
    requires forall i :: 0 <= i < |key| ==> key[i] != ':'
    requires "client_id" in value && value["client_id"].StrVal? && !Contains(value["client_id"].s, "::")
    requires "client_secret" in value && value["client_secret"].StrVal? && !Contains(value["client_secret"].s, "::")
    ensures var r := GetClient(Some(Sanitized(value, cipher, key)), cipher, view, code);
      (r.Client? || r.AuthThrew?) &&
      (r.Client? ==> r.setup.clientId == value["client_id"].s && r.setup.clientSecret == value["client_secret"].s)
  {
    var saved := Sanitized(value, cipher, key);
    DecryptedInvertsEntry(value["client_id"].s, cipher, key);
    DecryptedInvertsEntry(value["client_secret"].s, cipher, key);
    assert saved["client_id"] == StrVal(cipher.encrypt(value["client_id"].s, key) + "::" + key);
    assert saved["client_secret"] == StrVal(cipher.encrypt(value["client_secret"].s, key) + "::" + key);
  }

  /** After a successful exchange stores a non-empty token, the settings page
      shows the locations and reviews sections. */
  lemma ExchangeUnlocksSettings(creds: Option<Creds>, cipher: Cipher, view: ClientView, code: Option<string>)
    requires GetClient(creds, cipher, view, code).Client?
    requires !FilledEntry(creds, "access_token") && code.Some? && |view.exchanged| > 0
    ensures !SectionsShown(creds)
    ensures GetClient(creds, cipher, view, code).setup.persisted.Some?
    ensures SectionsShown(GetClient(creds, cipher, view, code).setup.persisted)
  {
  }

  // -------------------------------------------------------------------------
  // cron_schedules
  // -------------------------------------------------------------------------

  datatype Schedule = Schedule(interval: int, display: string)

  /** The `cron_schedules` filter. */
  function CronSchedules(schedules: map<string, Schedule>): (r: map<string, Schedule>)
    ensures r.Keys == schedules.Keys + {"every_two_weeks", "monthly", "weekly"}
    ensures r["every_two_weeks"] == Schedule(1209600, "Every Two Weeks")
    ensures r["monthly"] == Schedule(2419200, "Monthly")
    ensures r["weekly"] == if "weekly" in schedules then schedules["weekly"] else Schedule(604800, "Weekly")
    ensures forall k :: k in schedules && k !in {"every_two_weeks", "monthly", "weekly"} ==> r[k] == schedules[k]
  {
    var s := schedules["every_two_weeks" := Schedule(1209600, "Every Two Weeks")]
                      ["monthly" := Schedule(2419200, "Monthly")];
    if "weekly" !in schedules then s["weekly" := Schedule(604800, "Weekly")] else s
  }

  /** Applying the filter twice gives what applying it once gave. */
  lemma CronSchedulesIdempotent(schedules: map<string, Schedule>)
    ensures CronSchedules(CronSchedules(schedules)) == CronSchedules(schedules)
  {
  }
}
