/**
 * The `gmbc_credentials` option and the symmetric cipher that protects the
 * client id and secret. The cipher is not modelled: it is a pair of function
 * values, and the properties a caller needs of it are stated as predicates.
 * A key is identified with its ASCII-safe text (`saveToAsciiSafeString`).
 */
module Credentials {
  import opened Common

  /** A credentials entry: a string, or an array such as the OAuth token
      (kept as its ordered key/value entries). */
  datatype CredValue = StrVal(s: string) | ArrayVal(entries: seq<(string, string)>)

  /** The `gmbc_credentials` option array. */
  type Creds = map<string, CredValue>

  datatype Cipher = Cipher(encrypt: (string, string) -> string, decrypt: (string, string) -> Option<string>)

  /** Decrypting with the key used to encrypt gives the plaintext back. */
  ghost predicate Sound(c: Cipher)
  {
    forall p, k :: c.decrypt(c.encrypt(p, k), k) == Some(p)
  }

  /** Ciphertexts never contain ':' (they are hex text). */
  ghost predicate ColonFreeCiphertext(c: Cipher)
  {
    forall p, k :: ':' !in c.encrypt(p, k)
  }

  /** PHP truthiness of an entry: a non-empty string other than "0", or a non-empty array. */
  predicate Filled(v: CredValue)
  {
    match v
    case StrVal(s) => !EmptyString(s)
    case ArrayVal(e) => |e| > 0
  }

  /** `isset($creds[$key]) && ! empty($creds[$key])`, with `$creds` as `get_option` returned it. */
  predicate FilledEntry(creds: Option<Creds>, key: string)
  {
    creds.Some? && key in creds.value && Filled(creds.value[key])
  }
}
