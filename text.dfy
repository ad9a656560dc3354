/**
 * The PHP string functions the plugin relies on, over `string = seq<char>`:
 * `explode`, `implode`, `trim`/`ltrim`, `strpos(...) !== false`,
 * `stripos(...) !== false`, `strtolower` and integer-to-string conversion.
 * Case folding is ASCII only.
 */
module Text {
  import opened Common

  predicate HasPrefix(s: string, p: string)
  {
    |p| <= |s| && s[..|p|] == p
  }

  /** `strpos($s, $sub) !== false` for a non-empty `$sub`. */
  predicate Contains(s: string, sub: string)
    decreases |s|
  {
    HasPrefix(s, sub) || (|s| > 0 && Contains(s[1..], sub))
  }

  /** `explode($sep, $s)`: the pieces between the leftmost non-overlapping
      occurrences of `sep`; never empty. */
  function Split(s: string, sep: string): (parts: seq<string>)
    requires |sep| > 0
    ensures |parts| >= 1
    decreases |s|
  {
    if |s| < |sep| then [s]
    else if s[..|sep|] == sep then [""] + Split(s[|sep|..], sep)
    else
      var rest := Split(s[1..], sep);
      [[s[0]] + rest[0]] + rest[1..]
  }

  /** Element `i` of an `explode` result as `list(...)` reads it: a missing
      element is null, which PHP turns into "" when it is used as a string. */
  function Part(parts: seq<string>, i: nat): string
  {
    if i < |parts| then parts[i] else ""
  }

  /** `implode($sep, $parts)`. */
  function Join(parts: seq<string>, sep: string): string
  {
    if |parts| == 0 then ""
    else if |parts| == 1 then parts[0]
    else parts[0] + sep + Join(parts[1..], sep)
  }

  /** The characters PHP's `trim` removes by default: " \t\n\r\0\x0B". */
  predicate IsTrimChar(c: char)
  {
    c == ' ' || c == '\t' || c == '\n' || c == '\r' || c == '\0' || c == '\U{000B}'
  }

  function TrimLeft(s: string): (r: string)
    ensures exists k :: 0 <= k <= |s| && r == s[k..] && forall j :: 0 <= j < k ==> IsTrimChar(s[j])
    ensures r == [] || !IsTrimChar(r[0])
  {
    if |s| > 0 && IsTrimChar(s[0]) then
      var r := TrimLeft(s[1..]);
      var k :| 0 <= k <= |s[1..]| && r == s[1..][k..] && forall j :: 0 <= j < k ==> IsTrimChar(s[1..][j]);
      assert r == s[k + 1..];
      r
    else
      assert s[0..] == s;
      s
  }

  function TrimRight(s: string): (r: string)
    ensures exists k :: 0 <= k <= |s| && r == s[..k] && forall j :: k <= j < |s| ==> IsTrimChar(s[j])
    ensures r == [] || !IsTrimChar(r[|r| - 1])
  {
    if |s| > 0 && IsTrimChar(s[|s| - 1]) then
      var init := s[..|s| - 1];
      var r := TrimRight(init);
      var k :| 0 <= k <= |init| && r == init[..k] && forall j :: k <= j < |init| ==> IsTrimChar(init[j]);
      assert r == s[..k];
      r
    else
      assert s[..|s|] == s;
      s
  }

  /** `trim($s)`. */
  function Trim(s: string): string
  {
    TrimRight(TrimLeft(s))
  }

  /** `ltrim($s, $c)` for a one-character list. */
  function TrimLeftChar(s: string, c: char): (r: string)
    ensures exists k :: 0 <= k <= |s| && r == s[k..] && forall j :: 0 <= j < k ==> s[j] == c
    ensures r == [] || r[0] != c
  {
    if |s| > 0 && s[0] == c then
      var r := TrimLeftChar(s[1..], c);
      var k :| 0 <= k <= |s[1..]| && r == s[1..][k..] && forall j :: 0 <= j < k ==> s[1..][j] == c;
      assert r == s[k + 1..];
      r
    else
      assert s[0..] == s;
      s
  }

  function LowerChar(c: char): char
  {
    if 'A' <= c <= 'Z' then (c as int + 32) as char else c
  }

  /** `strtolower($s)`, ASCII letters only. */
  function ToLower(s: string): (r: string)
    ensures |r| == |s|
  {
    seq(|s|, i requires 0 <= i < |s| => LowerChar(s[i]))
  }

  function UpperChar(c: char): char
  {
    if 'a' <= c <= 'z' then (c as int - 32) as char else c
  }

  /** `stripos($s, $sub) !== false` for a non-empty `$sub`. */
  predicate ContainsIgnoringCase(s: string, sub: string)
  {
    Contains(ToLower(s), ToLower(sub))
  }

  /** Every occurrence of `from` replaced by `to` (`str_replace` for one character). */
  function ReplaceChar(s: string, from: char, to: char): (r: string)
    ensures |r| == |s|
  {
    seq(|s|, i requires 0 <= i < |s| => if s[i] == from then to else s[i])
  }

  function DigitChar(d: nat): char
    requires d < 10
  {
    ('0' as int + d) as char
  }

  /** The decimal text of a natural number, as PHP prints it. */
  function NatToString(n: nat): (r: string)
    ensures |r| >= 1
  {
    if n < 10 then [DigitChar(n)] else NatToString(n / 10) + [DigitChar(n % 10)]
  }

  /** `(string) $i` for an integer. */
  function IntToString(i: int): string
  {
    if i < 0 then "-" + NatToString(-i) else NatToString(i)
  }

  /** `rtrim($s, '/\\')`. */
  function TrimRightSlashes(s: string): (r: string)
    ensures r == [] || (r[|r| - 1] != '/' && r[|r| - 1] != '\\')
  {
    if |s| > 0 && (s[|s| - 1] == '/' || s[|s| - 1] == '\\') then TrimRightSlashes(s[..|s| - 1]) else s
  }

  /** WordPress `trailingslashit`: exactly one trailing '/'. */
  function TrailingSlashIt(s: string): string
  {
    TrimRightSlashes(s) + "/"
  }

  predicate IsDigit(c: char)
  {
    '0' <= c <= '9'
  }

  /** The longest prefix of `s` made of decimal digits. */
  function DigitPrefix(s: string): (r: string)
    ensures |r| <= |s| && r == s[..|r|]
    ensures forall i :: 0 <= i < |r| ==> IsDigit(r[i])
    ensures |r| < |s| ==> !IsDigit(s[|r|])
  {
    if |s| > 0 && IsDigit(s[0]) then [s[0]] + DigitPrefix(s[1..]) else ""
  }

  /** The number a string of decimal digits denotes. */
  function DigitsValue(ds: string): nat
    requires forall i :: 0 <= i < |ds| ==> IsDigit(ds[i])
  {
    if |ds| == 0 then 0
    else
      assert IsDigit(ds[|ds| - 1]);
      DigitsValue(ds[..|ds| - 1]) * 10 + (ds[|ds| - 1] as int - '0' as int)
  }

  /** The whitespace PHP skips before a number: " \t\n\r\v\f". */
  predicate IsNumericSpace(c: char)
  {
    c == ' ' || c == '\t' || c == '\n' || c == '\r' || c == '\U{000B}' || c == '\U{000C}'
  }

  function SkipNumericSpace(s: string): string
  {
    if |s| > 0 && IsNumericSpace(s[0]) then SkipNumericSpace(s[1..]) else s
  }

  /** `(int) $s`: leading whitespace, an optional sign, then as many decimal
      digits as follow; 0 when there are none. */
  function IntCast(s: string): int
  {
    var t := SkipNumericSpace(s);
    if |t| > 0 && (t[0] == '-' || t[0] == '+') then
      var v: int := DigitsValue(DigitPrefix(t[1..]));
      if t[0] == '-' then -v else v
    else DigitsValue(DigitPrefix(t))
  }

  /** `(int) $v` for an option value; a one-decimal number truncates toward zero. */
  function IntOf(v: Value): int
  {
    match v
    case Null => 0
    case Str(s) => IntCast(s)
    case Int(i) => i
    case Dec1(t) => if t < 0 then -((-t) / 10) else t / 10
  }

  /** A scalar option value used as a string: null is "", an integer its
      decimal text, a one-decimal number "4.5" (or "4" when the decimal is 0). */
  function ValueText(v: Value): string
  {
    match v
    case Null => ""
    case Str(s) => s
    case Int(i) => IntToString(i)
    case Dec1(t) =>
      var sign := if t < 0 then "-" else "";
      var a := if t < 0 then -t else t;
      sign + NatToString(a / 10) + (if a % 10 == 0 then "" else "." + [DigitChar(a % 10)])
  }

  // ---------------------------------------------------------------------
  // Lemmas about explode / implode / strpos
  // ---------------------------------------------------------------------

  /** A string without the separator's first character is one piece. */
  lemma {:induction false} SplitWithoutSeparator(s: string, sep: string)
    requires |sep| > 0
    requires forall i :: 0 <= i < |s| ==> s[i] != sep[0]
    ensures Split(s, sep) == [s]
    decreases |s|
  {
    if |s| >= |sep| {
      assert s[..|sep|][0] == s[0];
      SplitWithoutSeparator(s[1..], sep);
      assert [s[0]] + s[1..] == s;
    }
  }

  /** The first piece ends at the first separator when the text before it
      cannot start a separator. */
  lemma {:induction false} SplitAtFirst(a: string, sep: string, b: string)
    requires |sep| > 0
    requires forall i :: 0 <= i < |a| ==> a[i] != sep[0]
    ensures Split(a + sep + b, sep) == [a] + Split(b, sep)
    decreases |a|
  {
    var s := a + sep + b;
    if |a| == 0 {
      assert s == sep + b;
      assert s[..|sep|] == sep;
      assert s[|sep|..] == b;
    } else {
      assert s[..|sep|][0] == a[0];
      assert s[1..] == a[1..] + sep + b;
      SplitAtFirst(a[1..], sep, b);
      assert [a[0]] + a[1..] == a;
    }
  }

  /** The first piece of `explode` on a one-character separator is the text
      before the first separator, or the whole text when there is none. */
  lemma {:induction false} SplitFirstPiece(s: string, c: char)
    ensures var p := Split(s, [c])[0];
      |p| <= |s| && s[..|p|] == p && (|p| == |s| || s[|p|] == c) &&
      forall i :: 0 <= i < |p| ==> p[i] != c
    decreases |s|
  {
    if |s| >= 1 && s[..1] != [c] {
      SplitFirstPiece(s[1..], c);
      assert s[0] != c;
    }
  }

  /** `strpos($a . $sep . $b, $sep) !== false`. */
  lemma {:induction false} ContainsJoined(a: string, sep: string, b: string)
    ensures Contains(a + sep + b, sep)
    decreases |a|
  {
    var s := a + sep + b;
    if |a| == 0 {
      assert s[..|sep|] == sep;
    } else {
      assert s[1..] == a[1..] + sep + b;
      ContainsJoined(a[1..], sep, b);
    }
  }

  /** Appending one more piece to a non-empty `implode` adds exactly one separator. */
  lemma {:induction false} JoinSnoc(xs: seq<string>, x: string, sep: string)
    requires |xs| > 0
    ensures Join(xs + [x], sep) == Join(xs, sep) + sep + x
    decreases |xs|
  {
    if |xs| == 1 {
      assert (xs + [x])[1..] == [x];
    } else {
      assert (xs + [x])[1..] == xs[1..] + [x];
      JoinSnoc(xs[1..], x, sep);
    }
  }

  lemma {:induction false} NatToStringDigits(n: nat)
    ensures forall i :: 0 <= i < |NatToString(n)| ==> IsDigit(NatToString(n)[i])
    ensures DigitsValue(NatToString(n)) == n
  {
    if n >= 10 {
      NatToStringDigits(n / 10);
      var s := NatToString(n);
      assert s[..|s| - 1] == NatToString(n / 10);
    }
  }

  lemma {:induction false} DigitPrefixOfDigits(s: string)
    requires forall i :: 0 <= i < |s| ==> IsDigit(s[i])
    ensures DigitPrefix(s) == s
    decreases |s|
  {
    if |s| > 0 {
      DigitPrefixOfDigits(s[1..]);
    }
  }

  /** `(int)` reads back the decimal text of any integer. */
  lemma IntCastOfIntToString(i: int)
    ensures IntCast(IntToString(i)) == i
  {
    var n: nat := if i < 0 then -i else i;
    NatToStringDigits(n);
    DigitPrefixOfDigits(NatToString(n));
    if i < 0 {
      assert IntToString(i)[1..] == NatToString(n);
    } else {
      assert !IsNumericSpace(NatToString(n)[0]);
    }
  }

  /** `explode` undoes `implode` when no piece holds the (one-character) separator. */
  lemma {:induction false} SplitJoin(parts: seq<string>, c: char)
    requires |parts| > 0
    requires forall k, i :: 0 <= k < |parts| && 0 <= i < |parts[k]| ==> parts[k][i] != c
    ensures Split(Join(parts, [c]), [c]) == parts
    decreases |parts|
  {
    if |parts| == 1 {
      SplitWithoutSeparator(parts[0], [c]);
    } else {
      SplitAtFirst(parts[0], [c], Join(parts[1..], [c]));
      SplitJoin(parts[1..], c);
    }
  }
}
