/**
 * The JavaScript semantics the server and the browser code rely on: the values a
 * decoded request body can hold, truthiness, `String(v)`, the string methods
 * `trim`, `substring`, `startsWith`, `includes`, `toLowerCase` and `join`,
 * `Array.prototype.slice`, the `Error` objects the code throws and inspects, and
 * how MySQL matches a request value against an integer id column.
 */
module Js {
  import opened Wrappers

  /**
   * A value found at one key of a decoded JSON request body. `Undefined` is a
   * missing key. Numbers are integers here. Objects and arrays are `Compound`,
   * carrying the text `String(v)` produces for them: "[object Object]" for a
   * plain object, the joined elements for an array (so "" for `[]` or `[null]`).
   */
  datatype Json =
    | Undefined
    | Null
    | Bool(b: bool)
    | Num(n: int)
    | Str(s: string)
    | Compound(text: string)

  /** JavaScript truthiness: `!v` is false exactly for these values. */
  predicate Truthy(v: Json)
  {
    match v
    case Undefined => false
    case Null => false
    case Bool(b) => b
    case Num(n) => n != 0
    case Str(s) => s != ""
    case Compound(_) => true
  }

  /** `v === undefined || v === null` */
  predicate IsNullish(v: Json)
  {
    v.Undefined? || v.Null?
  }

  /** A thrown JavaScript `Error`, with the fields mysql2 adds to database errors. */
  datatype Error = Error(message: string, code: Option<string>, sqlState: Option<string>, sqlMessage: Option<string>)

  /** `new Error(message)`: no database fields. */
  function Thrown(message: string): (e: Error)
    ensures e.message == message && e.code.None?
  {
    Error(message, None, None, None)
  }

  /** The `TypeError` raised by calling `.trim()` on a value that is not a string. */
  const TrimTypeError: Error := Thrown("trim is not a function")

  // ---------------------------------------------------------------- digits

  predicate IsDigit(c: char)
  {
    '0' <= c <= '9'
  }

  function DigitChar(d: nat): (c: char)
    requires d < 10
    ensures IsDigit(c) && c as int - '0' as int == d
  {
    ['0', '1', '2', '3', '4', '5', '6', '7', '8', '9'][d]
  }

  /** The decimal numeral of `n`, without leading zeros. */
  function DecimalDigits(n: nat): (r: string)
    ensures r != [] && forall i :: 0 <= i < |r| ==> IsDigit(r[i])
  {
    if n < 10 then [DigitChar(n)] else DecimalDigits(n / 10) + [DigitChar(n % 10)]
  }

  /** The value of a string of decimal digits (leading zeros allowed). */
  function DigitsValue(s: string): nat
    requires forall i :: 0 <= i < |s| ==> IsDigit(s[i])
  {
    if s == [] then 0 else DigitsValue(s[..|s| - 1]) * 10 + DigitValue(s[|s| - 1])
  }

  function DigitValue(c: char): nat
    requires IsDigit(c)
  {
    c as int - '0' as int
  }

  /** A non-empty string of decimal digits read as a number; anything else is `None`. */
  function ParseDigits(s: string): (r: Option<nat>)
    ensures r.Some? <==> s != [] && forall i :: 0 <= i < |s| ==> IsDigit(s[i])
  {
    if s != [] && forall i :: 0 <= i < |s| ==> IsDigit(s[i]) then Some(DigitsValue(s)) else None
  }

  /** Reading back the numeral of `n` gives `n`. */
  lemma {:induction false} ParseDecimalDigits(n: nat)
    ensures ParseDigits(DecimalDigits(n)) == Some(n)
  {
    var r := DecimalDigits(n);
    if n >= 10 {
      ParseDecimalDigits(n / 10);
      assert r[..|r| - 1] == DecimalDigits(n / 10);
      assert DigitValue(r[|r| - 1]) == n % 10;
      assert DigitsValue(r) == (n / 10) * 10 + n % 10;
    } else {
      assert DigitsValue(r) == DigitsValue([]) * 10 + DigitValue(r[0]);
    }
  }

  /** `String(n)` for an integer. */
  function IntToDecimal(n: int): (r: string)
    ensures r != []
    ensures n >= 0 ==> ParseDigits(r) == Some(n)
  {
    ParseDecimalDigits(if n < 0 then -n else n);
    if n < 0 then "-" + DecimalDigits(-n) else DecimalDigits(n)
  }

  /** `String(v)`. */
  function ToJsString(v: Json): (r: string)
    ensures v.Str? ==> r == v.s
    ensures v.Compound? ==> r == v.text
    ensures !v.Str? && !v.Compound? ==> r != ""
  {
    match v
    case Undefined => "undefined"
    case Null => "null"
    case Bool(b) => if b then "true" else "false"
    case Num(n) => IntToDecimal(n)
    case Str(s) => s
    case Compound(t) => t
  }

  /**
   * The integer a request value selects in `WHERE id = ?`: a number selects
   * itself, a boolean the integer mysql2 sends for it (1 for `true`, 0 for
   * `false`) and a string of decimal digits its value; any other value selects
   * 0, which no row has, since auto-increment ids start at 1.
   */
  function RowKey(v: Json): (k: int)
    ensures v.Num? ==> k == v.n
    ensures v.Bool? ==> k == (if v.b then 1 else 0)
    ensures v.Str? && ParseDigits(v.s).Some? ==> k == ParseDigits(v.s).value
    ensures !v.Num? && !v.Bool? && !(v.Str? && ParseDigits(v.s).Some?) ==> k == 0
  {
    match v
    case Num(n) => n
    case Bool(b) => if b then 1 else 0
    case Str(s) => (match ParseDigits(s) case Some(d) => d case None => 0)
    case _ => 0
  }

  // ------------------------------------------------------------------ trim

  /** The characters `String.prototype.trim` removes: white space and line terminators. */
  predicate IsSpace(c: char)
  {
    || c == '\t' || c == '\n' || c == '\U{B}' || c == '\U{C}' || c == '\r' || c == ' '
    || c == '\U{A0}' || c == '\U{1680}' || ('\U{2000}' <= c <= '\U{200A}')
    || c == '\U{2028}' || c == '\U{2029}' || c == '\U{202F}' || c == '\U{205F}'
    || c == '\U{3000}' || c == '\U{FEFF}'
  }

  predicate AllSpace(s: string)
  {
    forall i :: 0 <= i < |s| ==> IsSpace(s[i])
  }

  /** The index of the first character of `s` at or after `i` that is not white space, or `|s|`. */
  function SkipSpaces(s: string, i: nat): (k: nat)
    requires i <= |s|
    ensures i <= k <= |s|
    ensures forall j :: i <= j < k ==> IsSpace(s[j])
    ensures k < |s| ==> !IsSpace(s[k])
    decreases |s| - i
  {
    if i < |s| && IsSpace(s[i]) then SkipSpaces(s, i + 1) else i
  }

  /** The index just past the last character of `s[..e]` that is not white space, or 0. */
  function SkipSpacesBack(s: string, e: nat): (k: nat)
    requires e <= |s|
    ensures k <= e
    ensures forall j :: k <= j < e ==> IsSpace(s[j])
    ensures k > 0 ==> !IsSpace(s[k - 1])
  {
    if e > 0 && IsSpace(s[e - 1]) then SkipSpacesBack(s, e - 1) else e
  }

  /**
   * `s.trim()`: the part of `s` between its leading and its trailing white space.
   * It is empty exactly when `s` is all white space; everything cut off is white space.
   */
  function Trim(s: string): (r: string)
    ensures |r| <= |s|
    ensures r == [] <==> AllSpace(s)
    ensures r != [] ==> !IsSpace(r[0]) && !IsSpace(r[|r| - 1])
  {
    var k := SkipSpaces(s, 0);
    var e := SkipSpacesBack(s, |s|);
    if k == |s| then "" else s[k..e]
  }

  /** The trimmed string is the slice of `s` after its leading white space, and everything cut off is white space. */
  lemma TrimSlice(s: string)
    ensures var k, r := SkipSpaces(s, 0), Trim(s);
      && k + |r| <= |s| && r == s[k..k + |r|]
      && forall j :: 0 <= j < |s| && !(k <= j < k + |r|) ==> IsSpace(s[j])
  {
  }

  /** Trimming twice is trimming once. */
  lemma TrimIdempotent(s: string)
    ensures Trim(Trim(s)) == Trim(s)
  {
    var r := Trim(s);
    if r != [] {
      assert SkipSpaces(r, 0) == 0;
      assert SkipSpacesBack(r, |r|) == |r|;
    }
  }

  // ------------------------------------------------------------- substring

  function Min(a: int, b: int): int
  {
    if a <= b then a else b
  }

  function Max(a: int, b: int): int
  {
    if a <= b then b else a
  }

  /** `s.substring(0, n)`: the first `n` characters, or all of `s` when it is shorter. */
  function Prefix(s: string, n: int): (r: string)
    ensures |r| == Max(0, Min(n, |s|))
    ensures r == s[..|r|]
    ensures n >= |s| ==> r == s
  {
    if n <= 0 then "" else if n >= |s| then s else s[..n]
  }

  /** `s.startsWith(p)` */
  predicate StartsWith(s: string, p: string)
  {
    |p| <= |s| && s[..|p|] == p
  }

  /** `needle` occurs in `hay` starting at index `i`. */
  predicate OccursAt(hay: string, needle: string, i: int)
  {
    0 <= i <= |hay| - |needle| && hay[i..i + |needle|] == needle
  }

  /** `hay.includes(needle)`: `needle` occurs in `hay` at some position. */
  function Includes(hay: string, needle: string): (r: bool)
    ensures r <==> exists i :: OccursAt(hay, needle, i)
    decreases |hay|
  {
    if |needle| > |hay| then false
    else if hay[..|needle|] == needle then assert OccursAt(hay, needle, 0); true
    else
      var rest := Includes(hay[1..], needle);
      OccursShift(hay, needle);
      rest
  }

  /** Past index 0, the occurrences in `hay` are those in `hay[1..]`, one place to the right. */
  lemma OccursShift(hay: string, needle: string)
    requires hay != [] && !OccursAt(hay, needle, 0)
    ensures (exists i :: OccursAt(hay, needle, i)) <==> exists j :: OccursAt(hay[1..], needle, j)
  {
    if exists i :: OccursAt(hay, needle, i) {
      var i :| OccursAt(hay, needle, i);
      assert hay[1..][i - 1..i - 1 + |needle|] == hay[i..i + |needle|];
      assert OccursAt(hay[1..], needle, i - 1);
    }
    if exists j :: OccursAt(hay[1..], needle, j) {
      var j :| OccursAt(hay[1..], needle, j);
      assert hay[j + 1..j + 1 + |needle|] == hay[1..][j..j + |needle|];
      assert OccursAt(hay, needle, j + 1);
    }
  }

  // ----------------------------------------------------------- toLowerCase

  /** Lower-case mapping for the ASCII and Latin-1 capital letters; every other character is kept. */
  function LowerChar(c: char): char
  {
    if 'A' <= c <= 'Z' || ('\U{C0}' <= c <= '\U{DE}' && c != '\U{D7}') then (c as int + 32) as char else c
  }

  /** `s.toLowerCase()`, character by character. */
  function ToLower(s: string): (r: string)
    ensures |r| == |s|
    ensures forall i :: 0 <= i < |s| ==> r[i] == LowerChar(s[i])
  {
    if s == [] then [] else [LowerChar(s[0])] + ToLower(s[1..])
  }

  // ------------------------------------------------------------------ join

  /** `parts.join(sep)` */
  function Join(parts: seq<string>, sep: string): (r: string)
    ensures parts == [] ==> r == ""
    ensures |parts| == 1 ==> r == parts[0]
    ensures parts != [] ==> StartsWith(r, parts[0])
  {
    if parts == [] then ""
    else if |parts| == 1 then parts[0]
    else parts[0] + sep + Join(parts[1..], sep)
  }

  // ----------------------------------------------------------------- slice

  /** The index `Array.prototype.slice` derives from a relative index `k`. */
  function SliceIndex(k: int, len: nat): (r: nat)
    ensures r <= len
    ensures 0 <= k <= len ==> r == k
  {
    if k < 0 then Max(len + k, 0) else Min(k, len)
  }

  /** `s.slice(start, end)` */
  function Slice<T>(s: seq<T>, start: int, end: int): (r: seq<T>)
    ensures |r| <= |s|
    ensures var a, b := SliceIndex(start, |s|), SliceIndex(end, |s|);
      r == if a < b then s[a..b] else []
  {
    var a, b := SliceIndex(start, |s|), SliceIndex(end, |s|);
    if a < b then s[a..b] else []
  }
}
