/**
 * String primitives the handlers rely on: JavaScript truthiness of strings,
 * `String.prototype.trim`, `split(" ")`, substring containment and
 * `parseInt(s, 10)`.
 */
module Text {
  import opened Wrappers

  /** A JSON string field as JavaScript sees it: `None` is undefined or null. */
  predicate Truthy(o: Option<string>) {
    o.Some? && o.value != ""
  }

  /** `o || d` for a string field. */
  function OrDefault(o: Option<string>, d: string): (r: string)
    ensures Truthy(o) ==> r == o.value
    ensures !Truthy(o) ==> r == d
  {
    if Truthy(o) then o.value else d
  }

  /** The space separators of Unicode (category Zs). */
  predicate IsSpaceSeparator(c: char) {
    c == ' ' || c == '\U{00A0}' || c == '\U{1680}' || ('\U{2000}' <= c <= '\U{200A}') ||
    c == '\U{202F}' || c == '\U{205F}' || c == '\U{3000}'
  }

  /**
   * White space as JavaScript's `trim()` removes it: tab, line tabulation,
   * form feed, the byte order mark, the space separators and the line
   * terminators (line feed, carriage return, U+2028 and U+2029).
   */
  predicate IsSpace(c: char) {
    c == '\t' || c == '\U{000B}' || c == '\U{000C}' || c == '\U{FEFF}' || IsSpaceSeparator(c) ||
    c == '\n' || c == '\r' || c == '\U{2028}' || c == '\U{2029}'
  }

  /**
   * .NET's `char.IsWhiteSpace`: U+0009 to U+000D, U+0085, the space
   * separators and U+2028 and U+2029; unlike `trim()`, not the byte order mark.
   */
  predicate IsWhiteSpace(c: char) {
    ('\t' <= c <= '\r') || c == '\U{0085}' || IsSpaceSeparator(c) || c == '\U{2028}' || c == '\U{2029}'
  }

  /** `string.IsNullOrWhiteSpace` on a present string. */
  predicate IsWhiteSpaceOnly(s: string) {
    forall i | 0 <= i < |s| :: IsWhiteSpace(s[i])
  }

  /** The two notions differ in exactly two characters: the byte order mark and U+0085. */
  lemma SpaceSetsDiffer(c: char)
    ensures IsSpace(c) && !IsWhiteSpace(c) <==> c == '\U{FEFF}'
    ensures IsWhiteSpace(c) && !IsSpace(c) <==> c == '\U{0085}'
  {
  }

  predicate IsBlank(s: string) {
    forall i | 0 <= i < |s| :: IsSpace(s[i])
  }

  function LeadingSpaces(s: string): (n: nat)
    ensures n <= |s|
    ensures forall i | 0 <= i < n :: IsSpace(s[i])
    ensures n < |s| ==> !IsSpace(s[n])
  {
    if |s| > 0 && IsSpace(s[0]) then 1 + LeadingSpaces(s[1..]) else 0
  }

  function TrailingSpaces(s: string): (n: nat)
    ensures n <= |s|
    ensures forall i | |s| - n <= i < |s| :: IsSpace(s[i])
    ensures n < |s| ==> !IsSpace(s[|s| - n - 1])
  {
    if |s| > 0 && IsSpace(s[|s| - 1]) then 1 + TrailingSpaces(s[..|s| - 1]) else 0
  }

  /** `s.trim()`: drop white space at both ends. */
  function Trim(s: string): (r: string)
    ensures |r| <= |s|
    ensures r == [] <==> IsBlank(s)
    ensures r != [] ==> !IsSpace(r[0]) && !IsSpace(r[|r| - 1])
  {
    var t := s[LeadingSpaces(s)..];
    assert IsBlank(s) ==> LeadingSpaces(s) == |s|;
    assert t == [] ==> IsBlank(s) by {
      if t == [] {
        assert LeadingSpaces(s) == |s|;
      }
    }
    t[..|t| - TrailingSpaces(t)]
  }

  /** Trimming removes only white space: a text without white space at its ends is its own trim. */
  lemma TrimKeepsTrimmed(s: string)
    requires s != [] && !IsSpace(s[0]) && !IsSpace(s[|s| - 1])
    ensures Trim(s) == s
  {
    assert LeadingSpaces(s) == 0;
    assert s[0..] == s;
    assert TrailingSpaces(s) == 0;
  }

  /** Trimming twice is trimming once. */
  lemma TrimIdempotent(s: string)
    ensures Trim(Trim(s)) == Trim(s)
  {
    if Trim(s) != [] {
      TrimKeepsTrimmed(Trim(s));
    }
  }

  /** Case-sensitive substring test (`Contains` on a .NET string). */
  predicate Contains(s: string, sub: string) {
    exists i | 0 <= i <= |s| - |sub| :: OccursAt(s, sub, i)
  }

  predicate OccursAt(s: string, sub: string, i: nat)
    requires i + |sub| <= |s|
  {
    s[i..i + |sub|] == sub
  }

  /** `LEFT(s, n)` in SQL: the first `n` characters. */
  function Left(s: string, n: nat): (r: string)
    ensures |r| == if |s| < n then |s| else n
    ensures r == s[..|r|]
  {
    if |s| <= n then s else s[..n]
  }

  /** Index of the first `c` in `s`, or `|s|` when there is none. */
  function IndexOf(s: string, c: char): (k: nat)
    ensures k <= |s|
    ensures c !in s[..k]
    ensures k < |s| ==> s[k] == c
  {
    if s == [] then 0
    else if s[0] == c then 0
    else
      assert s[..1 + IndexOf(s[1..], c)] == [s[0]] + s[1..][..IndexOf(s[1..], c)];
      1 + IndexOf(s[1..], c)
  }

  /** The pieces glued back with the separator. */
  function Join(pieces: seq<string>, c: char): string
    requires |pieces| >= 1
  {
    if |pieces| == 1 then pieces[0] else pieces[0] + [c] + Join(pieces[1..], c)
  }

  /** `s.split(c)` for a one-character separator. */
  function Split(s: string, c: char): (r: seq<string>)
    ensures |r| >= 1
    ensures forall k | 0 <= k < |r| :: c !in r[k]
    ensures Join(r, c) == s
    decreases |s|
  {
    var k := IndexOf(s, c);
    if k == |s| then
      assert s[..k] == s;
      [s]
    else
      var rest := Split(s[k + 1..], c);
      assert s == s[..k] + [c] + s[k + 1..];
      [s[..k]] + rest
  }

  /** The pieces of a text are determined by that text: splitting a join gives the pieces back. */
  lemma {:induction false} SplitJoin(pieces: seq<string>, c: char)
    requires |pieces| >= 1
    requires forall k | 0 <= k < |pieces| :: c !in pieces[k]
    ensures Split(Join(pieces, c), c) == pieces
  {
    var s := Join(pieces, c);
    if |pieces| == 1 {
      assert s == pieces[0];
      assert IndexOf(s, c) == |s|;
    } else {
      var p := pieces[0];
      var tail := Join(pieces[1..], c);
      assert s == p + [c] + tail;
      assert c !in p;
      assert s[|p|] == c;
      assert s[..|p|] == p;
      assert IndexOf(s, c) == |p|;
      assert s[|p| + 1..] == tail;
      SplitJoin(pieces[1..], c);
      assert Split(s, c) == [p] + Split(tail, c);
      assert [p] + pieces[1..] == pieces;
    }
  }

  /** `s.split(" ")[1]`: the second space-separated piece, if there is one. */
  function SecondWord(s: string): (r: Option<string>)
    ensures r.Some? <==> ' ' in s
    ensures r.Some? ==> ' ' !in r.value
  {
    var pieces := Split(s, ' ');
    if |pieces| >= 2 then Some(pieces[1]) else
      assert s == pieces[0];
      None
  }

  /** `"<scheme> <token>".split(" ")[1]` is the token, whatever the scheme word is. */
  lemma SecondWordOfHeader(scheme: string, token: string)
    requires ' ' !in scheme && ' ' !in token
    ensures SecondWord(scheme + " " + token) == Some(token)
  {
    var pieces := [scheme, token];
    assert Join(pieces[1..], ' ') == token;
    assert Join(pieces, ' ') == scheme + " " + token;
    SplitJoin(pieces, ' ');
  }

  // ---------------------------------------------------------------------------
  // parseInt(s, 10)
  // ---------------------------------------------------------------------------

  predicate IsDigit(c: char) {
    '0' <= c <= '9'
  }

  function DigitValue(c: char): (d: nat)
    requires IsDigit(c)
    ensures d < 10
  {
    (c as int - '0' as int) as nat
  }

  function Digit(d: nat): (c: char)
    requires d < 10
    ensures IsDigit(c) && DigitValue(c) == d
  {
    ('0' as int + d) as char
  }

  function LeadingDigits(s: string): (n: nat)
    ensures n <= |s|
    ensures forall i | 0 <= i < n :: IsDigit(s[i])
    ensures n < |s| ==> !IsDigit(s[n])
  {
    if |s| > 0 && IsDigit(s[0]) then 1 + LeadingDigits(s[1..]) else 0
  }

  function DigitsValue(ds: string): nat
    requires forall i | 0 <= i < |ds| :: IsDigit(ds[i])
  {
    if ds == [] then 0 else DigitsValue(ds[..|ds| - 1]) * 10 + DigitValue(ds[|ds| - 1])
  }

  /**
   * `parseInt(s, 10)`: skip leading white space, read an optional sign, then the
   * longest run of decimal digits. No digit gives NaN, modelled as `None`.
   */
  function ParseInt(s: string): (r: Option<int>)
    ensures r.Some? ==> exists i | 0 <= i < |s| :: IsDigit(s[i])
    ensures |s| > 0 && IsDigit(s[0]) ==> r.Some? && r.value >= 0
  {
    var t := s[LeadingSpaces(s)..];
    var negative := |t| > 0 && t[0] == '-';
    var u := if |t| > 0 && (t[0] == '-' || t[0] == '+') then t[1..] else t;
    var n := LeadingDigits(u);
    var magnitude: int := if n == 0 then 0 else DigitsValue(u[..n]);
    assert n > 0 ==> IsDigit(u[0]) && u[0] in s;
    assert |s| > 0 && IsDigit(s[0]) ==> !IsSpace(s[0]) && t == s && u == s && n > 0;
    if n == 0 then None
    else if negative then Some(-magnitude)
    else Some(magnitude)
  }

  /** Decimal text of a natural number, as `String(n)` prints it. */
  function ShowNat(n: nat): (r: string)
    ensures |r| >= 1
    ensures forall i | 0 <= i < |r| :: IsDigit(r[i])
  {
    if n < 10 then [Digit(n)] else ShowNat(n / 10) + [Digit(n % 10)]
  }

  lemma {:induction false} ShowNatValue(n: nat)
    ensures DigitsValue(ShowNat(n)) == n
  {
    var r := ShowNat(n);
    if n < 10 {
      assert r[..0] == [];
    } else {
      assert r[..|r| - 1] == ShowNat(n / 10);
      ShowNatValue(n / 10);
    }
  }

  /** A route parameter printed from an id parses back to that id. */
  lemma ParseIntShowNat(n: nat)
    ensures ParseInt(ShowNat(n)) == Some(n)
  {
    var s := ShowNat(n);
    assert IsDigit(s[0]) && !IsSpace(s[0]);
    assert LeadingSpaces(s) == 0;
    assert s[0..] == s;
    assert LeadingDigits(s) == |s| by {
      LeadingDigitsAll(s);
    }
    assert s[..|s|] == s;
    ShowNatValue(n);
  }

  lemma {:induction false} LeadingDigitsAll(s: string)
    requires forall i | 0 <= i < |s| :: IsDigit(s[i])
    ensures LeadingDigits(s) == |s|
  {
    if |s| > 0 {
      LeadingDigitsAll(s[1..]);
    }
  }

  /** A parameter with no digit after the optional sign is NaN, so it is rejected before any lookup. */
  lemma ParseIntWithoutDigits(s: string)
    requires s != [] && !IsDigit(s[0]) && !IsSpace(s[0]) && s[0] != '-' && s[0] != '+'
    ensures ParseInt(s) == None
  {
    assert LeadingSpaces(s) == 0;
    assert s[0..] == s;
  }
}
