/** The few JavaScript string primitives the extension relies on:
    line terminators (what a regex `.` refuses), `String.prototype.trim`,
    `String.prototype.includes`, and `String(n)` / `Number(s)` on integers. */
module JsStrings {
  import opened Results

  /** ECMAScript LineTerminator: LF, CR, LINE SEPARATOR, PARAGRAPH SEPARATOR.
      A regex `.` without the `s` flag matches every code unit except these. */
  predicate IsLineTerminator(c: char) {
    c == '\n' || c == '\r' || c == '\U{2028}' || c == '\U{2029}'
  }

  /** ECMAScript WhiteSpace (TAB, VT, FF, ZWNBSP and the Unicode "Zs" space
      separators) together with LineTerminator: what `trim` removes. */
  predicate IsWhiteSpace(c: char) {
    || c == '\t' || c == '\U{000B}' || c == '\U{000C}' || c == ' ' || c == '\U{00A0}'
    || c == '\U{FEFF}' || c == '\U{1680}' || ('\U{2000}' <= c <= '\U{200A}')
    || c == '\U{202F}' || c == '\U{205F}' || c == '\U{3000}'
    || IsLineTerminator(c)
  }

  ghost predicate AllWhiteSpace(s: string) {
    forall k :: 0 <= k < |s| ==> IsWhiteSpace(s[k])
  }

  /** Index of the first non-white-space character at or after `i` (or `|s|`). */
  function SkipLeading(s: string, i: nat): (k: nat)
    requires i <= |s|
    decreases |s| - i
    ensures i <= k <= |s|
    ensures forall j :: i <= j < k ==> IsWhiteSpace(s[j])
    ensures k < |s| ==> !IsWhiteSpace(s[k])
  {
    if i == |s| || !IsWhiteSpace(s[i]) then i else SkipLeading(s, i + 1)
  }

  /** End of the content before `j` once trailing white space is dropped. */
  function SkipTrailing(s: string, j: nat): (k: nat)
    requires j <= |s|
    decreases j
    ensures k <= j
    ensures forall m :: k <= m < j ==> IsWhiteSpace(s[m])
    ensures k > 0 ==> !IsWhiteSpace(s[k - 1])
  {
    if j == 0 || !IsWhiteSpace(s[j - 1]) then j else SkipTrailing(s, j - 1)
  }

  /** `s.trim()`: the slice of `s` left after removing leading and trailing
      white space and line terminators. */
  function Trim(s: string): (r: string)
    ensures r == [] <==> AllWhiteSpace(s)
    ensures r != [] ==> !IsWhiteSpace(r[0]) && !IsWhiteSpace(r[|r| - 1])
    ensures exists i :: 0 <= i <= |s| - |r| && r == s[i..i + |r|]
                        && AllWhiteSpace(s[..i]) && AllWhiteSpace(s[i + |r|..])
  {
    var a := SkipLeading(s, 0);
    var b := SkipTrailing(s, |s|);
    if a >= b then
      assert AllWhiteSpace(s[..0]) && AllWhiteSpace(s[0..]);
      []
    else
      assert AllWhiteSpace(s[..a]) && AllWhiteSpace(s[b..]);
      s[a..b]
  }

  /** Trimming twice is trimming once. */
  lemma TrimIdempotent(s: string)
    ensures Trim(Trim(s)) == Trim(s)
  {
    var r := Trim(s);
    if r != [] {
      assert SkipLeading(r, 0) == 0;
      assert SkipTrailing(r, |r|) == |r|;
    }
  }

  /** `sub` occurs in `s` starting at index `i`. */
  predicate OccursAt(s: string, sub: string, i: nat) {
    i + |sub| <= |s| && s[i..i + |sub|] == sub
  }

  /** `s.includes(sub)`. */
  predicate Includes(s: string, sub: string) {
    exists i: nat :: i <= |s| && OccursAt(s, sub, i)
  }

  predicate IsDigit(c: char) {
    '0' <= c <= '9'
  }

  predicate AllDigits(s: string) {
    forall k :: 0 <= k < |s| ==> IsDigit(s[k])
  }

  function DigitChar(d: nat): (c: char)
    requires d < 10
    ensures IsDigit(c)
  {
    ('0' as int + d) as char
  }

  /** Decimal rendering of a natural number, without leading zeros. */
  function NatToString(n: nat): (s: string)
    decreases n
    ensures |s| >= 1 && AllDigits(s)
    ensures |s| > 1 ==> s[0] != '0'
  {
    if n < 10 then [DigitChar(n)] else NatToString(n / 10) + [DigitChar(n % 10)]
  }

  /** `String(n)` for an integer-valued number. */
  function IntToString(n: int): string {
    if n < 0 then "-" + NatToString(-n) else NatToString(n)
  }

  /** The value of a string of decimal digits (empty reads as 0). */
  function DigitsValue(s: string): nat
    requires AllDigits(s)
  {
    if s == [] then 0 else DigitsValue(s[..|s| - 1]) * 10 + (s[|s| - 1] as int - '0' as int)
  }

  /** `Number(s)` on strings of the shape `-?[0-9]+`; `None` stands for `NaN`,
      which compares unequal to every number. */
  function ParseInt(s: string): Option<int> {
    if |s| > 1 && s[0] == '-' && AllDigits(s[1..]) then
      Some(0 - DigitsValue(s[1..]) as int)
    else if |s| > 0 && AllDigits(s) then Some(DigitsValue(s))
    else None
  }

  lemma {:induction false} DigitsOfNat(n: nat)
    ensures DigitsValue(NatToString(n)) == n
    decreases n
  {
    if n >= 10 {
      var s := NatToString(n);
      DigitsOfNat(n / 10);
      assert s[..|s| - 1] == NatToString(n / 10);
    }
  }

  /** `Number(String(n)) === n` for every integer `n`. */
  lemma NumberOfString(n: int)
    ensures ParseInt(IntToString(n)) == Some(n)
  {
    if n < 0 {
      DigitsOfNat(-n);
      assert IntToString(n)[1..] == NatToString(-n);
    } else {
      DigitsOfNat(n);
    }
  }

  /** `String` is injective on integers, so distinct ids give distinct option ids. */
  lemma IntToStringInjective(a: int, b: int)
    ensures IntToString(a) == IntToString(b) <==> a == b
  {
    NumberOfString(a);
    NumberOfString(b);
  }
}
