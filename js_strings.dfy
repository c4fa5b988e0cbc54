/** The few pieces of JavaScript string semantics the client relies on:
    truthiness of a possibly-missing string, `String.prototype.trim`, `substring`
    and the decimal rendering of a number inside a template literal. */
module JsStrings {
  import opened Wrappers

  /** `!!s` for a value that is either a string or `null`: only a non-empty string is truthy. */
  predicate Truthy(s: Option<string>) {
    s.Some? && s.value != ""
  }

  /** The characters `trim` removes: WhiteSpace and LineTerminator of ECMAScript
      (section 12.2 and 12.3 of ECMA-262), that is TAB, VT, FF, SP, NBSP, ZWNBSP,
      the Zs category, LF, CR, LS and PS. */
  predicate IsWhite(c: char) {
    c == '\t' || c == '\n' || c == '\U{000B}' || c == '\U{000C}' || c == '\r' || c == ' '
    || c == '\U{00A0}' || c == '\U{1680}' || ('\U{2000}' <= c <= '\U{200A}')
    || c == '\U{2028}' || c == '\U{2029}' || c == '\U{202F}' || c == '\U{205F}'
    || c == '\U{3000}' || c == '\U{FEFF}'
  }

  predicate AllWhite(s: string) {
    forall k :: 0 <= k < |s| ==> IsWhite(s[k])
  }

  /** First index at or after `i` that does not hold white space (or `|s|`). */
  function FirstNonWhite(s: string, i: nat): (k: nat)
    requires i <= |s|
    ensures i <= k <= |s|
    ensures forall j :: i <= j < k ==> IsWhite(s[j])
    ensures k < |s| ==> !IsWhite(s[k])
    decreases |s| - i
  {
    if i == |s| || !IsWhite(s[i]) then i else FirstNonWhite(s, i + 1)
  }

  /** Smallest end `k >= lo` such that `s[k..j]` is all white space. */
  function EndOfNonWhite(s: string, lo: nat, j: nat): (k: nat)
    requires lo <= j <= |s|
    ensures lo <= k <= j
    ensures forall m :: k <= m < j ==> IsWhite(s[m])
    ensures lo < k ==> !IsWhite(s[k - 1])
    decreases j
  {
    if j == lo || !IsWhite(s[j - 1]) then j else EndOfNonWhite(s, lo, j - 1)
  }

  /** The bounds of the part of `s` that `trim` keeps: everything before `lo` and from
      `hi` on is white space, and the kept part neither starts nor ends with it. */
  function TrimBounds(s: string): (b: (nat, nat))
    ensures b.0 <= b.1 <= |s|
    ensures forall k :: 0 <= k < b.0 ==> IsWhite(s[k])
    ensures forall k :: b.1 <= k < |s| ==> IsWhite(s[k])
    ensures b.0 < b.1 ==> !IsWhite(s[b.0]) && !IsWhite(s[b.1 - 1])
    ensures b.0 == b.1 ==> b.0 == |s|
  {
    var lo := FirstNonWhite(s, 0);
    (lo, EndOfNonWhite(s, lo, |s|))
  }

  /** `s.trim()`. */
  function Trim(s: string): (r: string)
    ensures |r| <= |s|
    ensures forall k :: 0 <= k < |r| ==> r[k] in s
  {
    var b := TrimBounds(s);
    s[b.0..b.1]
  }

  /** `trim` gives the empty string exactly for an all-white input, and otherwise a
      string that starts and ends with a non-white character. */
  lemma TrimShape(s: string)
    ensures Trim(s) == "" <==> AllWhite(s)
    ensures Trim(s) != "" ==> !IsWhite(Trim(s)[0]) && !IsWhite(Trim(s)[|Trim(s)| - 1])
    ensures |Trim(s)| <= |s|
  {
    var b := TrimBounds(s);
    if b.0 == b.1 {
      assert forall k :: 0 <= k < |s| ==> IsWhite(s[k]);
    } else {
      assert !IsWhite(s[b.0]);
    }
  }

  /** Trimming twice is trimming once. */
  lemma TrimIdempotent(s: string)
    ensures Trim(Trim(s)) == Trim(s)
  {
    var t := Trim(s);
    TrimShape(s);
    if t != "" {
      assert FirstNonWhite(t, 0) == 0;
      assert EndOfNonWhite(t, 0, |t|) == |t|;
    }
  }

  /** The number of UTF-16 code units that encode `c`: two for a character outside the
      Basic Multilingual Plane (a surrogate pair), one otherwise. */
  function CodeUnits(c: char): nat {
    if c as int >= 0x1_0000 then 2 else 1
  }

  /** The `length` of a JavaScript string: its UTF-16 code units. */
  function Utf16Length(s: string): nat {
    if s == [] then 0 else CodeUnits(s[0]) + Utf16Length(s[1..])
  }

  /** `s.substring(0, n)` for `n >= 0`, which counts UTF-16 code units: the longest
      prefix of whole characters that fits in `n` code units. When a surrogate pair
      straddles position `n`, JavaScript keeps its lone first half; a Dafny string cannot
      hold that half, so the prefix stops one unit short there. */
  function Utf16Prefix(s: string, n: nat): (r: string)
    ensures r <= s
    ensures Utf16Length(r) <= n
    ensures r == s || Utf16Length(r) + CodeUnits(s[|r|]) > n
    ensures Utf16Length(s) <= n ==> r == s
    decreases |s|
  {
    if s == [] || CodeUnits(s[0]) > n then []
    else
      var rest := Utf16Prefix(s[1..], n - CodeUnits(s[0]));
      assert ([s[0]] + rest)[1..] == rest;
      assert rest != s[1..] ==> s[1..][|rest|] == s[|rest| + 1];
      [s[0]] + rest
  }

  function Digit(d: nat): (c: char)
    requires d < 10
    ensures '0' <= c <= '9'
  {
    ('0' as int + d) as char
  }

  predicate AllDigits(s: string) {
    forall k :: 0 <= k < |s| ==> '0' <= s[k] <= '9'
  }

  /** `${n}` for a non-negative integer: its decimal digits, most significant first. */
  function DecimalString(n: nat): (s: string)
    ensures |s| >= 1 && AllDigits(s)
    ensures s[0] == '0' ==> n == 0
    decreases n
  {
    if n < 10 then [Digit(n)] else DecimalString(n / 10) + [Digit(n % 10)]
  }

  /** The number a string of decimal digits denotes. */
  function DecimalValue(s: string): nat
    requires AllDigits(s)
  {
    if s == [] then 0 else DecimalValue(s[..|s| - 1]) * 10 + (s[|s| - 1] as int - '0' as int)
  }

  /** Reading back the rendering of a number gives the number: the rendering loses nothing. */
  lemma {:induction false} DecimalRoundTrip(n: nat)
    ensures DecimalValue(DecimalString(n)) == n
    decreases n
  {
    if n >= 10 {
      DecimalRoundTrip(n / 10);
      var s := DecimalString(n);
      assert s[..|s| - 1] == DecimalString(n / 10);
    }
  }

  /** Hence two numbers render alike only if they are equal. */
  lemma DecimalStringInjective(m: nat, n: nat)
    ensures DecimalString(m) == DecimalString(n) ==> m == n
  {
    DecimalRoundTrip(m);
    DecimalRoundTrip(n);
  }
}
