/** The string primitives the app relies on: Python's `str.strip()`,
    `str.splitlines()`, and fixed-width zero-padded decimal numerals as
    `strftime` writes them and `strptime` reads them. */
module Text {

  /** Python's `str.isspace()` on one character: the ASCII controls tab to
      carriage return, the separators 0x1C to 0x1F, space, and the Unicode
      spaces and line/paragraph separators. */
  predicate IsSpace(c: char) {
    var k := c as int;
    || 9 <= k <= 13
    || 0x1C <= k <= 0x20
    || k == 0x85 || k == 0xA0 || k == 0x1680
    || 0x2000 <= k <= 0x200A
    || k == 0x2028 || k == 0x2029 || k == 0x202F || k == 0x205F || k == 0x3000
  }

  /** The characters at which `str.splitlines()` ends a line. */
  predicate IsLineBoundary(c: char) {
    var k := c as int;
    || 10 <= k <= 13
    || 0x1C <= k <= 0x1E
    || k == 0x85 || k == 0x2028 || k == 0x2029
  }

  predicate NoLineBoundary(s: string) {
    forall j :: 0 <= j < |s| ==> !IsLineBoundary(s[j])
  }

  function LeadingSpaces(s: string): (k: nat)
    ensures k <= |s|
    ensures forall j :: 0 <= j < k ==> IsSpace(s[j])
    ensures k < |s| ==> !IsSpace(s[k])
  {
    if |s| == 0 || !IsSpace(s[0]) then 0 else 1 + LeadingSpaces(s[1..])
  }

  function TrailingSpaces(s: string): (k: nat)
    ensures k <= |s|
    ensures forall j :: |s| - k <= j < |s| ==> IsSpace(s[j])
    ensures k < |s| ==> !IsSpace(s[|s| - k - 1])
  {
    if |s| == 0 || !IsSpace(s[|s| - 1]) then 0 else 1 + TrailingSpaces(s[..|s| - 1])
  }

  /** `s.strip()`: the longest slice of `s` that neither starts nor ends with
      whitespace, everything around it being whitespace. */
  function Strip(s: string): (t: string)
    ensures var i := LeadingSpaces(s);
      && i + |t| <= |s| && t == s[i..i + |t|]
      && forall j :: i + |t| <= j < |s| ==> IsSpace(s[j])
    ensures t != [] ==> !IsSpace(t[0]) && !IsSpace(t[|t| - 1])
  {
    var i := LeadingSpaces(s);
    var rest := s[i..];
    var k := TrailingSpaces(rest);
    var t := rest[..|rest| - k];
    assert s[i..i + |t|] == t;
    assert forall j :: i + |t| <= j < |s| ==> s[j] == rest[j - i];
    assert t != [] ==> t[0] == s[i] && t[|t| - 1] == rest[|rest| - k - 1];
    t
  }

  /** A string strips to nothing exactly when it is all whitespace. */
  lemma StripBlank(s: string)
    ensures Strip(s) == [] <==> forall j :: 0 <= j < |s| ==> IsSpace(s[j])
  {
    var i := LeadingSpaces(s);
    if Strip(s) == [] {
      forall j | 0 <= j < |s|
        ensures IsSpace(s[j])
      {
        if j >= i {
          assert i + |Strip(s)| <= j;
        }
      }
    }
  }

  /** A string that neither starts nor ends with whitespace is its own strip. */
  lemma StripTrimmed(t: string)
    requires t != [] ==> !IsSpace(t[0]) && !IsSpace(t[|t| - 1])
    ensures Strip(t) == t
  {
    var r := Strip(t);
    if t != [] {
      assert LeadingSpaces(t) == 0;
      assert |r| == |t|;
    }
  }

  /** Stripping twice is stripping once. */
  lemma StripIdempotent(s: string)
    ensures Strip(Strip(s)) == Strip(s)
  {
    StripTrimmed(Strip(s));
  }

  /** The index of the first line boundary of `s`, or `|s|` if there is none. */
  function LineEnd(s: string): (k: nat)
    ensures k <= |s|
    ensures NoLineBoundary(s[..k])
    ensures k < |s| ==> IsLineBoundary(s[k])
  {
    if |s| == 0 || IsLineBoundary(s[0]) then 0
    else
      var k := 1 + LineEnd(s[1..]);
      assert s[..k] == [s[0]] + s[1..][..k - 1];
      k
  }

  /** `s.splitlines()`: the lines of `s` without their boundaries, where
      "\r\n" counts as one boundary and a final boundary opens no new line. */
  function SplitLines(s: string): (ls: seq<string>)
    ensures forall i :: 0 <= i < |ls| ==> NoLineBoundary(ls[i])
    ensures ls == [] <==> s == []
    decreases |s|
  {
    if s == [] then []
    else
      var k := LineEnd(s);
      if k == |s| then
        assert s[..k] == s;
        [s]
      else
        var skip := if s[k] == '\r' && k + 1 < |s| && s[k + 1] == '\n' then 2 else 1;
        [s[..k]] + SplitLines(s[k + skip..])
  }

  /** A line followed by a newline is split off as that line. */
  lemma SplitLinesCons(l: string, rest: string)
    requires NoLineBoundary(l)
    ensures SplitLines(l + "\n" + rest) == [l] + SplitLines(rest)
  {
    var s := l + "\n" + rest;
    assert s[..|l|] == l;
    assert s[|l|] == '\n';
    assert LineEnd(s) == |l| by {
      LineEndAt(s, |l|);
    }
    assert s[|l| + 1..] == rest;
  }

  lemma LineEndAt(s: string, k: nat)
    requires k < |s| && NoLineBoundary(s[..k]) && IsLineBoundary(s[k])
    ensures LineEnd(s) == k
  {
  }

  /** Lines joined with "\n", the way a user types them one per line. */
  function JoinLines(ls: seq<string>): string
    requires |ls| >= 1
  {
    if |ls| == 1 then ls[0] else ls[0] + "\n" + JoinLines(ls[1..])
  }

  /** Splitting undoes joining, for lines without boundaries whose last line
      is not empty. */
  lemma {:induction false} SplitJoin(ls: seq<string>)
    requires |ls| >= 1 && ls[|ls| - 1] != []
    requires forall i :: 0 <= i < |ls| ==> NoLineBoundary(ls[i])
    ensures SplitLines(JoinLines(ls)) == ls
    decreases |ls|
  {
    if |ls| == 1 {
      SplitOneLine(ls[0]);
    } else {
      var tail := ls[1..];
      var rest := JoinLines(tail);
      assert JoinLines(ls) == ls[0] + "\n" + rest;
      assert tail[|tail| - 1] == ls[|ls| - 1];
      assert forall i :: 0 <= i < |tail| ==> tail[i] == ls[i + 1];
      SplitLinesCons(ls[0], rest);
      SplitJoin(tail);
      assert ls == [ls[0]] + tail;
    }
  }

  /** A non-empty text without line boundaries is a single line. */
  lemma SplitOneLine(s: string)
    requires s != [] && NoLineBoundary(s)
    ensures SplitLines(s) == [s]
  {
    assert LineEnd(s) == |s|;
    assert s[..|s|] == s;
  }

  predicate IsDigit(c: char) {
    '0' <= c <= '9'
  }

  predicate AllDigits(s: string) {
    forall j :: 0 <= j < |s| ==> IsDigit(s[j])
  }

  function DigitValue(c: char): (v: int)
    requires IsDigit(c)
    ensures 0 <= v <= 9
  {
    c as int - '0' as int
  }

  function DigitChar(v: int): (c: char)
    requires 0 <= v <= 9
    ensures IsDigit(c) && DigitValue(c) == v
  {
    ('0' as int + v) as char
  }

  /** The value of a decimal numeral, most significant digit first. */
  function NumeralValue(s: string): (v: int)
    requires AllDigits(s)
    ensures v >= 0
  {
    if |s| == 0 then 0 else NumeralValue(s[..|s| - 1]) * 10 + DigitValue(s[|s| - 1])
  }

  function Pow10(w: nat): (p: int)
    ensures p >= 1
  {
    if w == 0 then 1 else 10 * Pow10(w - 1)
  }

  /** `n` written with exactly `w` digits, zero-padded on the left, as the
      `%d`, `%m` and `%Y` directives of `strftime` write day, month and year. */
  function Padded(n: int, w: nat): (s: string)
    requires 0 <= n < Pow10(w)
    ensures |s| == w && AllDigits(s)
  {
    if w == 0 then [] else Padded(n / 10, w - 1) + [DigitChar(n % 10)]
  }

  /** Reading a zero-padded numeral gives back its number. */
  lemma {:induction false} PaddedValue(n: int, w: nat)
    requires 0 <= n < Pow10(w)
    ensures NumeralValue(Padded(n, w)) == n
  {
    if w > 0 {
      var s := Padded(n, w);
      assert s[..|s| - 1] == Padded(n / 10, w - 1);
      PaddedValue(n / 10, w - 1);
    }
  }

  /** `n` written without leading zeros, for `1 <= n <= 99`. */
  function Unpadded(n: int): (s: string)
    requires 1 <= n <= 99
    ensures AllDigits(s) && 1 <= |s| <= 2
  {
    if n < 10 then [DigitChar(n)] else Padded(n, 2)
  }

  lemma UnpaddedValue(n: int)
    requires 1 <= n <= 99
    ensures NumeralValue(Unpadded(n)) == n
  {
    if n < 10 {
      assert Unpadded(n)[..0] == [];
    } else {
      PaddedValue(n, 2);
    }
  }
}
