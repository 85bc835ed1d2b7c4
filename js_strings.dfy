/** String helpers with the semantics of the JavaScript built-ins the core
    relies on: `String.prototype.trim`, `startsWith`, `endsWith`, `includes`,
    the `\s` and `\w` regex classes, the `.` class and number-to-string. */
module JsStrings {

  /** The characters JavaScript's `trim` and the regex class `\s` treat as
      white space (the WhiteSpace and LineTerminator productions), in code
      point order: tab, line feed, vertical tab, form feed, carriage return,
      space, no-break space, ogham space mark, the eleven spaces U+2000 to
      U+200A, line separator, paragraph separator, narrow no-break space,
      medium mathematical space, ideographic space and the byte order mark. */
  const WhitespaceCount := 25

  function WhitespaceAt(k: nat): char
    requires k < WhitespaceCount
  {
    if k < 5 then (9 + k) as char
    else if k == 5 then ' '
    else if k == 6 then '\U{00A0}'
    else if k == 7 then '\U{1680}'
    else if k < 19 then (0x2000 + (k - 8)) as char
    else if k == 19 then '\U{2028}'
    else if k == 20 then '\U{2029}'
    else if k == 21 then '\U{202F}'
    else if k == 22 then '\U{205F}'
    else if k == 23 then '\U{3000}'
    else '\U{FEFF}'
  }

  /** `c` is one of the white-space characters from index `k` on; written
      recursively so that a proof unfolds only the entries it needs. */
  predicate WhitespaceFrom(c: char, k: nat)
    decreases WhitespaceCount - k
  {
    k < WhitespaceCount && (c == WhitespaceAt(k) || WhitespaceFrom(c, k + 1))
  }

  predicate IsWhitespace(c: char) {
    WhitespaceFrom(c, 0)
  }

  /** The characters the regex `.` does NOT match (no `s` flag). */
  predicate IsLineTerminator(c: char) {
    c == '\n' || c == '\r' || c == '\U{2028}' || c == '\U{2029}'
  }

  /** The regex class `\w`. */
  predicate IsWordChar(c: char) {
    ('a' <= c <= 'z') || ('A' <= c <= 'Z') || ('0' <= c <= '9') || c == '_'
  }

  /** The number of white-space characters `s` starts with. */
  function LeadingWhitespace(s: string): (n: nat)
    ensures n <= |s|
  {
    if s != [] && IsWhitespace(s[0]) then 1 + LeadingWhitespace(s[1..]) else 0
  }

  /** The number of white-space characters `s` ends with. */
  function TrailingWhitespace(s: string): (n: nat)
    ensures n <= |s|
  {
    if s != [] && IsWhitespace(s[|s| - 1]) then 1 + TrailingWhitespace(s[..|s| - 1]) else 0
  }

  /** `s.trim()`: what lies between the leading white space of `s` and the
      trailing white space of the rest. */
  function Trim(s: string): string {
    var a := LeadingWhitespace(s);
    s[a..|s| - TrailingWhitespace(s[a..])]
  }

  /** Every character of `s` is white space. */
  predicate AllWhitespace(s: string)
    decreases |s|
  {
    s == [] || (IsWhitespace(s[0]) && AllWhitespace(s[1..]))
  }

  lemma {:induction false} AllWhitespaceSnoc(s: string, c: char)
    requires AllWhitespace(s) && IsWhitespace(c)
    ensures AllWhitespace(s + [c])
    decreases |s|
  {
    if s != [] {
      AllWhitespaceSnoc(s[1..], c);
      assert (s + [c])[1..] == s[1..] + [c];
    }
  }

  /** The counted prefix is white space and the character after it is not. */
  lemma {:induction false} LeadingWhitespaceSpec(s: string)
    ensures var n := LeadingWhitespace(s);
            AllWhitespace(s[..n]) && (n < |s| ==> !IsWhitespace(s[n]))
  {
    if s != [] && IsWhitespace(s[0]) {
      LeadingWhitespaceSpec(s[1..]);
      var n := LeadingWhitespace(s);
      assert s[..n][1..] == s[1..][..n - 1];
    }
  }

  /** The counted suffix is white space and the character before it is not. */
  lemma {:induction false} TrailingWhitespaceSpec(s: string)
    ensures var n := TrailingWhitespace(s);
            AllWhitespace(s[|s| - n..]) && (n < |s| ==> !IsWhitespace(s[|s| - n - 1]))
  {
    if s != [] && IsWhitespace(s[|s| - 1]) {
      TrailingWhitespaceSpec(s[..|s| - 1]);
      var n := TrailingWhitespace(s);
      assert s[|s| - n..] == s[..|s| - 1][|s| - n..] + [s[|s| - 1]];
      AllWhitespaceSnoc(s[..|s| - 1][|s| - n..], s[|s| - 1]);
    }
  }

  /** What `trim` promises: the result neither starts nor ends with white
      space. */
  lemma TrimEnds(s: string)
    ensures var r := Trim(s);
            r != [] ==> !IsWhitespace(r[0]) && !IsWhitespace(r[|r| - 1])
  {
    var a := LeadingWhitespace(s);
    var t := s[a..];
    LeadingWhitespaceSpec(s);
    TrailingWhitespaceSpec(t);
    var r := Trim(s);
    if r != [] {
      assert r[0] == s[a];
    }
  }

  /** What `trim` removes is white space and nothing else: the result is
      the slice `s[a..b]` between a white-space prefix and a white-space
      suffix. */
  lemma TrimBounds(s: string) returns (a: nat, b: nat)
    ensures a <= b <= |s| && Trim(s) == s[a..b]
    ensures AllWhitespace(s[..a]) && AllWhitespace(s[b..])
  {
    a := LeadingWhitespace(s);
    var t := s[a..];
    b := |s| - TrailingWhitespace(t);
    LeadingWhitespaceSpec(s);
    TrailingWhitespaceSpec(t);
    assert s[b..] == t[|t| - TrailingWhitespace(t)..];
  }

  /** No visible ASCII character is white space. */
  lemma {:induction false} VisibleNotWhitespace(c: char, k: nat)
    requires ' ' < c <= '~'
    ensures !WhitespaceFrom(c, k)
    decreases WhitespaceCount - k
  {
    if k < WhitespaceCount {
      VisibleNotWhitespace(c, k + 1);
    }
  }

  lemma TrimNoWhitespace(s: string)
    requires s == [] || (!IsWhitespace(s[0]) && !IsWhitespace(s[|s| - 1]))
    ensures Trim(s) == s
  {
  }

  /** Trimming twice is trimming once. */
  lemma TrimIdempotent(s: string)
    ensures Trim(Trim(s)) == Trim(s)
  {
    TrimEnds(s);
    TrimNoWhitespace(Trim(s));
  }

  predicate StartsWith(s: string, p: string) {
    |p| <= |s| && s[..|p|] == p
  }

  predicate EndsWith(s: string, p: string) {
    |p| <= |s| && s[|s| - |p|..] == p
  }

  /** `p` occurs in `s` starting at index `k`. */
  predicate OccursAt(s: string, p: string, k: int) {
    0 <= k <= |s| - |p| && s[k..k + |p|] == p
  }

  /** `s.includes(p)`. */
  predicate Includes(s: string, p: string) {
    exists k :: 0 <= k <= |s| && OccursAt(s, p, k)
  }

  /** `c.repeat(n)` for a one-character string `c`. */
  function Repeat(c: char, n: nat): (r: string)
    ensures |r| == n && forall k :: 0 <= k < n ==> r[k] == c
  {
    if n == 0 then "" else [c] + Repeat(c, n - 1)
  }

  /** `c` does not occur in `s`. */
  predicate Lacks(s: string, c: char) {
    forall k :: 0 <= k < |s| ==> s[k] != c
  }

  function DigitChar(d: nat): (c: char)
    requires d < 10
    ensures '0' <= c <= '9'
  {
    "0123456789"[d]
  }

  /** Decimal digits of a natural number, as `String(n)` prints it. */
  function NatString(n: nat): (r: string)
    ensures r != []
    ensures forall k :: 0 <= k < |r| ==> '0' <= r[k] <= '9'
    ensures n < 10 ==> |r| == 1
    decreases n
  {
    if n < 10 then [DigitChar(n)] else NatString(n / 10) + [DigitChar(n % 10)]
  }

  /** `String(n)` for an integer: a minus sign and the digits. */
  function IntString(n: int): (r: string)
    ensures r != []
    ensures (r[0] == '-') <==> n < 0
  {
    if n < 0 then "-" + NatString(-n) else NatString(n)
  }

  function DigitValue(c: char): nat
    requires '0' <= c <= '9'
  {
    (c as int - '0' as int) as nat
  }

  /** Reads back a string of decimal digits. */
  function ParseNat(s: string): nat
    requires forall k :: 0 <= k < |s| ==> '0' <= s[k] <= '9'
  {
    if s == [] then 0 else 10 * ParseNat(s[..|s| - 1]) + DigitValue(s[|s| - 1])
  }

  /** The decimal rendering is read back as the number it renders. */
  lemma {:induction false} NatStringRoundTrip(n: nat)
    ensures ParseNat(NatString(n)) == n
  {
    if n >= 10 {
      var r := NatString(n);
      assert r[..|r| - 1] == NatString(n / 10);
      NatStringRoundTrip(n / 10);
    }
  }

  /** Distinct integers print differently. */
  lemma IntStringInjective(v: int, w: int)
    requires IntString(v) == IntString(w)
    ensures v == w
  {
    NatStringRoundTrip(if v < 0 then -v else v);
    NatStringRoundTrip(if w < 0 then -w else w);
    if v < 0 {
      assert IntString(v)[1..] == NatString(-v);
      assert IntString(w)[1..] == NatString(-w);
    }
  }
}
