/** The two string primitives of the JavaScript runtime that the application relies on:
    `String.prototype.trim` and the decimal rendering of a non-negative integer inside a
    template literal (`${n}`). */
module JsText {

  /** The code points `String.prototype.trim` strips: the ECMAScript WhiteSpace set
      (tab, vertical tab, form feed, space, no-break space, zero-width no-break space and
      the Unicode space separators) and the LineTerminator set (LF, CR, LS, PS). */
  predicate IsTrimmable(c: char)
  {
    || c == '\t' || c == '\n' || c == '\U{B}' || c == '\U{C}' || c == '\r' || c == ' '
    || c == '\U{A0}' || c == '\U{1680}' || ('\U{2000}' <= c <= '\U{200A}')
    || c == '\U{2028}' || c == '\U{2029}' || c == '\U{202F}' || c == '\U{205F}'
    || c == '\U{3000}' || c == '\U{FEFF}'
  }

  /** `s` with its leading trimmable characters removed. */
  function TrimStart(s: string): (r: string)
    ensures |r| <= |s| && r == s[|s| - |r|..]
    ensures r == [] || !IsTrimmable(r[0])
    ensures forall i :: 0 <= i < |s| - |r| ==> IsTrimmable(s[i])
  {
    if |s| > 0 && IsTrimmable(s[0]) then TrimStart(s[1..]) else s
  }

  /** `s` with its trailing trimmable characters removed. */
  function TrimEnd(s: string): (r: string)
    ensures |r| <= |s| && r == s[..|r|]
    ensures r == [] || !IsTrimmable(r[|r| - 1])
    ensures forall i :: |r| <= i < |s| ==> IsTrimmable(s[i])
  {
    if |s| > 0 && IsTrimmable(s[|s| - 1]) then TrimEnd(s[..|s| - 1]) else s
  }

  /** The number of trimmable characters at the front of `s`. */
  function LeadingCount(s: string): nat
  {
    |s| - |TrimStart(s)|
  }

  /** `s.trim()`: the infix of `s` that neither starts nor ends with a trimmable character,
      obtained by removing only trimmable characters at both ends. */
  function Trim(s: string): (r: string)
    ensures r == [] || (!IsTrimmable(r[0]) && !IsTrimmable(r[|r| - 1]))
    ensures LeadingCount(s) + |r| <= |s| && r == s[LeadingCount(s)..LeadingCount(s) + |r|]
    ensures forall j :: 0 <= j < LeadingCount(s) ==> IsTrimmable(s[j])
    ensures forall j :: LeadingCount(s) + |r| <= j < |s| ==> IsTrimmable(s[j])
  {
    TrailingOfSuffix(s, TrimStart(s));
    TrimEnd(TrimStart(s))
  }

  /** What `TrimEnd` removes from a suffix `t` of `s` is also trailing in `s`. */
  lemma TrailingOfSuffix(s: string, t: string)
    requires |t| <= |s| && t == s[|s| - |t|..]
    ensures var k, r := |s| - |t|, TrimEnd(t);
            && k + |r| <= |s| && r == s[k..k + |r|]
            && forall j :: k + |r| <= j < |s| ==> IsTrimmable(s[j])
  {
    var k, r := |s| - |t|, TrimEnd(t);
    forall j | k + |r| <= j < |s| ensures IsTrimmable(s[j]) {
      assert s[j] == t[j - k];
    }
  }

  /** `!s.trim()`: the trimmed string is the empty (falsy) string. */
  predicate IsBlank(s: string)
  {
    Trim(s) == ""
  }

  lemma BlankIffAllTrimmable(s: string)
    ensures IsBlank(s) <==> forall i :: 0 <= i < |s| ==> IsTrimmable(s[i])
  {
    if !IsBlank(s) {
      var r, i := Trim(s), LeadingCount(s);
      assert s[i] == r[0] && !IsTrimmable(s[i]);
    }
  }

  lemma TrimIdempotent(s: string)
    ensures Trim(Trim(s)) == Trim(s)
  {
    var r := Trim(s);
    if r != [] {
      assert TrimStart(r) == r;
      assert TrimEnd(r) == r;
    }
  }

  function DigitChar(d: nat): (c: char)
    requires d < 10
    ensures '0' <= c <= '9'
  {
    "0123456789"[d]
  }

  predicate IsDigits(s: string)
  {
    forall i :: 0 <= i < |s| ==> '0' <= s[i] <= '9'
  }

  /** The decimal text of `n`, as a template literal renders a non-negative integer:
      a non-empty string of digits without a leading zero (except for 0 itself). */
  function Decimal(n: nat): (s: string)
    ensures |s| >= 1 && IsDigits(s)
    ensures s[0] == '0' <==> n == 0
    ensures n == 0 ==> s == "0"
    decreases n
  {
    if n < 10 then [DigitChar(n)] else Decimal(n / 10) + [DigitChar(n % 10)]
  }

  /** The value of a string of decimal digits. */
  function ParseDecimal(s: string): nat
    requires IsDigits(s)
  {
    if s == [] then 0 else 10 * ParseDecimal(s[..|s| - 1]) + (s[|s| - 1] as int - '0' as int)
  }

  lemma {:induction false} ParseDecimalInvertsDecimal(n: nat)
    ensures ParseDecimal(Decimal(n)) == n
    decreases n
  {
    if n >= 10 {
      var s := Decimal(n);
      assert s[..|s| - 1] == Decimal(n / 10);
      ParseDecimalInvertsDecimal(n / 10);
    }
  }

  lemma DecimalInjective(m: nat, n: nat)
    ensures Decimal(m) == Decimal(n) <==> m == n
  {
    if Decimal(m) == Decimal(n) {
      ParseDecimalInvertsDecimal(m);
      ParseDecimalInvertsDecimal(n);
    }
  }

  /** How many UTF-16 code units `c` takes in a JavaScript string: two (a surrogate pair) for a
      character outside the Basic Multilingual Plane, one otherwise. */
  function Utf16Width(c: char): nat
  {
    if c as int > 0xFFFF then 2 else 1
  }

  /** `s.length` in JavaScript: the number of UTF-16 code units, which is the number of characters
      exactly when every character lies in the Basic Multilingual Plane. */
  function Utf16Length(s: string): (n: nat)
    ensures |s| <= n <= 2 * |s|
    ensures (forall i :: 0 <= i < |s| ==> s[i] as int <= 0xFFFF) ==> n == |s|
  {
    if s == [] then 0 else Utf16Width(s[0]) + Utf16Length(s[1..])
  }
}
