/**
 * `GMBConnect\Admin\AdminArea`: how the client credentials are encrypted
 * when the settings form is saved, how they are decoded again to fill the
 * form, the redirect-URI and field-name rules, and when the location and
 * review sections of the settings page are shown.
 */
module AdminArea {
  import opened Common
  import opened Text
  import opened Credentials

  /** Entries `sanitize_client_creds` never encrypts. */
  predicate PassedThrough(k: string)
  {
    k == "redirect_uri" || k == "access_token"
  }

  /** One entry after `sanitize_client_creds` with key text `key`: skipped
      keys, arrays (PHP 7 `strpos` on an array yields null, which `!== false`)
      and values already holding "::" are kept; any other value becomes its
      ciphertext, "::" and the key. */
  function SanitizedEntry(k: string, v: CredValue, cipher: Cipher, key: string): CredValue
  {
    if PassedThrough(k) then v
    else
      match v
      case ArrayVal(_) => v
      case StrVal(s) => if Contains(s, "::") then v else StrVal(cipher.encrypt(s, key) + "::" + key)
  }

  /** The whole option after `sanitize_client_creds`: same keys, each entry
      sanitized with the one key created for the call. */
  function Sanitized(value: Creds, cipher: Cipher, key: string): (r: Creds)
    ensures r.Keys == value.Keys
  {
    map k | k in value :: SanitizedEntry(k, value[k], cipher, key)
  }

  /** `sanitize_client_creds`: the `foreach` reassigning `$value[$k]` in place.
      `key` is the ASCII-safe text of the fresh random key. */
  method SanitizeClientCreds(value: Creds, cipher: Cipher, key: string) returns (result: Creds)
    ensures result == Sanitized(value, cipher, key)
  {
    result := value;
    var pending := value.Keys;
    while pending != {}
      invariant pending <= value.Keys
      invariant result.Keys == value.Keys
      invariant forall k :: k in value && k !in pending ==> result[k] == SanitizedEntry(k, value[k], cipher, key)
      invariant forall k :: k in pending ==> result[k] == value[k]
      decreases pending
    {
      var k :| k in pending;
      var v := value[k];
      if PassedThrough(k) {
      } else if v.ArrayVal? {
      } else if Contains(v.s, "::") {
      } else {
        result := result[k := StrVal(cipher.encrypt(v.s, key) + "::" + key)];
      }
      pending := pending - {k};
    }
    assert forall k :: k in value ==> result[k] == Sanitized(value, cipher, key)[k];
  }

  /** Every entry that was encrypted now holds "::" (so a later save skips it). */
  lemma SanitizedEntryHoldsSeparator(k: string, v: CredValue, cipher: Cipher, key: string)
    requires !PassedThrough(k) && v.StrVal?
    ensures SanitizedEntry(k, v, cipher, key).StrVal?
    ensures Contains(SanitizedEntry(k, v, cipher, key).s, "::")
  {
    if !Contains(v.s, "::") {
      ContainsJoined(cipher.encrypt(v.s, key), "::", v.s);
      ContainsJoined(cipher.encrypt(v.s, key), "::", key);
    }
  }

  /** Saving the form again, even with a new random key, changes nothing. */
  lemma SanitizeIdempotent(value: Creds, cipher: Cipher, key: string, key2: string)
    ensures Sanitized(Sanitized(value, cipher, key), cipher, key2) == Sanitized(value, cipher, key)
  {
    var once := Sanitized(value, cipher, key);
    forall k | k in once
      ensures SanitizedEntry(k, once[k], cipher, key2) == once[k]
    {
      if !PassedThrough(k) && value[k].StrVal? {
        SanitizedEntryHoldsSeparator(k, value[k], cipher, key);
      }
    }
  }

  /** `$_SERVER['HTTPS'] === 'on'` picks the scheme of the redirect URI. */
  function RedirectUri(https: Option<string>, host: string): (uri: string)
    ensures HasPrefix(uri, "https://") <==> https == Some("on")
  {
    var uri := (if https == Some("on") then "https" else "http") + "://" + host + "/wp-admin/admin.php?page=gmb-connect";
    assert uri[4] == if https == Some("on") then 's' else ':';
    uri
  }

  /** The input's `name`: `option[option_key]`. */
  function FieldName(option: string, optionKey: string): (name: string)
    ensures |name| == |option| + |optionKey| + 2
    ensures HasPrefix(name, option) && name[|option|] == '[' && name[|name| - 1] == ']'
    ensures name[|option| + 1..|name| - 1] == optionKey
  {
    option + "[" + optionKey + "]"
  }

  /** `list($encrypted, $ascii_key) = explode('::', $val)` followed by loading
      the key and decrypting; None when either throws. An array cannot be split. */
  function Decrypted(v: CredValue, cipher: Cipher): Option<string>
  {
    match v
    case ArrayVal(_) => None
    case StrVal(s) =>
      var parts := Split(s, "::");
      cipher.decrypt(Part(parts, 0), Part(parts, 1))
  }

  /** The value `render_input_field` shows, or the decryption exception. */
  datatype Field = Shown(value: CredValue) | DecryptThrew

  /** `render_input_field`'s value: the stored entry or ""; the client id and
      secret are decrypted when truthy; the redirect URI is always computed. */
  function InputFieldValue(option: Option<Creds>, optionKey: string, cipher: Cipher,
                           https: Option<string>, host: string): Field
  {
    var val := if option.Some? && optionKey in option.value then option.value[optionKey] else StrVal("");
    if (optionKey == "client_id" || optionKey == "client_secret") && Filled(val) then
      match Decrypted(val, cipher)
      case None => DecryptThrew
      case Some(p) => Shown(StrVal(p))
    else if optionKey == "redirect_uri" then Shown(StrVal(RedirectUri(https, host)))
    else Shown(val)
  }

  /** Splitting a sanitized value at "::" gives back the ciphertext and the key. */
  lemma DecryptedInvertsEntry(p: string, cipher: Cipher, key: string)
    requires Sound(cipher) && ColonFreeCiphertext(cipher)
    requires forall i :: 0 <= i < |key| ==> key[i] != ':'
    ensures Decrypted(StrVal(cipher.encrypt(p, key) + "::" + key), cipher) == Some(p)
  {
    var enc := cipher.encrypt(p, key);
    assert forall i :: 0 <= i < |enc| ==> enc[i] != ':' by {
      forall i | 0 <= i < |enc|
        ensures enc[i] != ':'
      {
        assert enc[i] in enc;
      }
    }
    SplitAtFirst(enc, "::", key);
    SplitWithoutSeparator(key, "::");
  }

  /** The settings form shows the plaintext client id or secret that was saved:
      decoding for display inverts `sanitize_client_creds`. */
  lemma FormShowsSavedCredential(value: Creds, cipher: Cipher, key: string, k: string,
                                 https: Option<string>, host: string)
    requires Sound(cipher) && ColonFreeCiphertext(cipher)
    requires forall i :: 0 <= i < |key| ==> key[i] != ':'
    requires k == "client_id" || k == "client_secret"
    requires k in value && value[k].StrVal? && !Contains(value[k].s, "::")
    ensures InputFieldValue(Some(Sanitized(value, cipher, key)), k, cipher, https, host) == Shown(value[k])
  {
    DecryptedInvertsEntry(value[k].s, cipher, key);
  }

  /** `render_page` shows the locations and reviews sections only when an
      access token is stored. */
  predicate SectionsShown(creds: Option<Creds>)
  {
    FilledEntry(creds, "access_token")
  }
}
