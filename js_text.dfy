/**
 * The JavaScript string operations the demos rely on, stated over `seq<char>`:
 * `String.prototype.trim`, `split` on a one-character separator, the decimal
 * rendering of a non-negative number in a template literal, `parseInt` with no
 * radix, and the unanchored test of the regular expression `\S+@\S+\.\S+`.
 */
module JsText {
  import opened Wrappers

  /**
   * The WhiteSpace and LineTerminator code points of ECMAScript (tab, vertical tab,
   * form feed, space, no-break space, the byte order mark, the Unicode space
   * separators, line feed, carriage return, line and paragraph separators): what
   * `trim` strips and what `\s` matches.
   */
  const Whitespace: set<char> := {
    '\t', '\U{0B}', '\U{0C}', ' ', '\U{A0}', '\U{FEFF}',
    '\U{1680}', '\U{2000}', '\U{2001}', '\U{2002}', '\U{2003}', '\U{2004}', '\U{2005}',
    '\U{2006}', '\U{2007}', '\U{2008}', '\U{2009}', '\U{200A}', '\U{202F}', '\U{205F}', '\U{3000}',
    '\n', '\r', '\U{2028}', '\U{2029}'
  }

  predicate IsWhitespace(c: char) {
    c in Whitespace
  }

  predicate AllWhitespace(s: string) {
    forall k :: 0 <= k < |s| ==> IsWhitespace(s[k])
  }

  /** The number of whitespace characters `s` starts with. */
  function LeadingWhitespace(s: string): (n: nat)
    ensures n <= |s| && AllWhitespace(s[..n])
    ensures n < |s| ==> !IsWhitespace(s[n])
  {
    if s != [] && IsWhitespace(s[0]) then
      assert s[..1 + LeadingWhitespace(s[1..])] == [s[0]] + s[1..][..LeadingWhitespace(s[1..])];
      1 + LeadingWhitespace(s[1..])
    else 0
  }

  /** Where the trailing whitespace of `s` begins. */
  function TrailingWhitespaceStart(s: string): (n: nat)
    ensures n <= |s| && AllWhitespace(s[n..])
    ensures 0 < n ==> !IsWhitespace(s[n - 1])
  {
    if s != [] && IsWhitespace(s[|s| - 1]) then
      var n := TrailingWhitespaceStart(s[..|s| - 1]);
      assert s[n..] == s[..|s| - 1][n..] + [s[|s| - 1]];
      n
    else |s|
  }

  /** `s.trimStart()`. */
  function TrimStart(s: string): string {
    s[LeadingWhitespace(s)..]
  }

  /** `s.trimEnd()`. */
  function TrimEnd(s: string): string {
    s[..TrailingWhitespaceStart(s)]
  }

  /** `s.trim()`: the longest slice of `s` that neither starts nor ends with whitespace. */
  function Trim(s: string): (r: string)
    ensures LeadingWhitespace(s) + |r| <= |s|
    ensures r == s[LeadingWhitespace(s)..LeadingWhitespace(s) + |r|]
    ensures AllWhitespace(s[..LeadingWhitespace(s)]) && AllWhitespace(s[LeadingWhitespace(s) + |r|..])
    ensures r == [] <==> AllWhitespace(s)
    ensures r != [] ==> !IsWhitespace(r[0]) && !IsWhitespace(r[|r| - 1])
  {
    var lead := LeadingWhitespace(s);
    var t := s[lead..];
    var e := TrailingWhitespaceStart(t);
    assert s[lead + e..] == t[e..];
    assert e == 0 ==> AllWhitespace(s) by {
      if e == 0 {
        forall k | 0 <= k < |s| ensures IsWhitespace(s[k]) {
          assert s[..lead][k] == s[k];
        }
      }
    }
    t[..e]
  }

  /** The string is empty or all whitespace: `!s.trim()` in JavaScript (see `BlankIffTrimEmpty`). */
  predicate IsBlank(s: string) {
    AllWhitespace(s)
  }

  /** JavaScript's `!s.trim()` holds exactly for the blank strings. */
  lemma BlankIffTrimEmpty(s: string)
    ensures IsBlank(s) <==> Trim(s) == ""
  {
  }

  lemma TrimIdempotent(s: string)
    ensures Trim(Trim(s)) == Trim(s)
  {
    var r := Trim(s);
    if r != [] {
      assert TrimStart(r) == r;
      assert TrimEnd(r) == r;
    }
  }

  // ---------------------------------------------------------------------------
  // split and join on a one-character separator

  /** `s.split(sep)` for a one-character separator: the pieces between separators. */
  function Split(s: string, sep: char): (parts: seq<string>)
    ensures |parts| >= 1
    ensures forall k :: 0 <= k < |parts| ==> sep !in parts[k]
    decreases |s|
  {
    if s == [] then [""]
    else
      assert s == [s[0]] + s[1..];
      var rest := Split(s[1..], sep);
      if s[0] == sep then [""] + rest
      else [[s[0]] + rest[0]] + rest[1..]
  }

  /** There is one more piece than there are separators. */
  lemma {:induction false} SplitCount(s: string, sep: char)
    ensures |Split(s, sep)| == multiset(s)[sep] + 1
    decreases |s|
  {
    if s != [] {
      SplitCount(s[1..], sep);
      assert s == [s[0]] + s[1..];
      assert multiset(s) == multiset{s[0]} + multiset(s[1..]);
    }
  }

  /** `parts.join(sep)`. */
  function Join(parts: seq<string>, sep: char): string
    requires |parts| >= 1
  {
    if |parts| == 1 then parts[0] else parts[0] + [sep] + Join(parts[1..], sep)
  }

  lemma {:induction false} JoinHead(c: char, parts: seq<string>, sep: char)
    requires |parts| >= 1
    ensures Join([[c] + parts[0]] + parts[1..], sep) == [c] + Join(parts, sep)
  {
    var p := [[c] + parts[0]] + parts[1..];
    if |parts| > 1 {
      assert p[1..] == parts[1..];
    }
  }

  /** Joining the pieces of a split gives back the string. */
  lemma {:induction false} JoinSplit(s: string, sep: char)
    ensures Join(Split(s, sep), sep) == s
    decreases |s|
  {
    if s != [] {
      var rest := Split(s[1..], sep);
      JoinSplit(s[1..], sep);
      assert s == [s[0]] + s[1..];
      if s[0] == sep {
        var parts := [""] + rest;
        assert Split(s, sep) == parts;
        assert parts[1..] == rest;
        assert Join(parts, sep) == "" + [sep] + Join(rest, sep);
      } else {
        assert Split(s, sep) == [[s[0]] + rest[0]] + rest[1..];
        JoinHead(s[0], rest, sep);
      }
    }
  }

  lemma {:induction false} SplitNoSeparator(x: string, sep: char)
    requires sep !in x
    ensures Split(x, sep) == [x]
    decreases |x|
  {
    if x != [] {
      SplitNoSeparator(x[1..], sep);
      assert x == [x[0]] + x[1..];
    }
  }

  lemma {:induction false} SplitAfterPiece(x: string, y: string, sep: char)
    requires sep !in x
    ensures Split(x + [sep] + y, sep) == [x] + Split(y, sep)
    decreases |x|
  {
    var s := x + [sep] + y;
    if x == [] {
      assert s[1..] == y;
    } else {
      assert s[1..] == x[1..] + [sep] + y;
      SplitAfterPiece(x[1..], y, sep);
      assert [x[0]] + x[1..] == x;
    }
  }

  /** Splitting the join of separator-free pieces gives back the pieces. */
  lemma {:induction false} SplitJoin(parts: seq<string>, sep: char)
    requires |parts| >= 1
    requires forall k :: 0 <= k < |parts| ==> sep !in parts[k]
    ensures Split(Join(parts, sep), sep) == parts
    decreases |parts|
  {
    if |parts| == 1 {
      SplitNoSeparator(parts[0], sep);
    } else {
      SplitJoin(parts[1..], sep);
      SplitAfterPiece(parts[0], Join(parts[1..], sep), sep);
      assert [parts[0]] + parts[1..] == parts;
    }
  }

  // ---------------------------------------------------------------------------
  // numbers as text

  predicate IsDecimalDigit(c: char) {
    '0' <= c <= '9'
  }

  function DigitChar(d: nat): (c: char)
    requires d < 10
    ensures IsDecimalDigit(c)
  {
    (48 + d) as char
  }

  /** The digit value of `c` in radix 36 (letters of either case count from 10); 36 for any other character. */
  function DigitValue(c: char): nat {
    if '0' <= c <= '9' then c as nat - 48
    else if 'a' <= c <= 'z' then c as nat - 87
    else if 'A' <= c <= 'Z' then c as nat - 55
    else 36
  }

  /** The decimal text of a non-negative integer, as `${n}` renders it. */
  function NatToString(n: nat): (r: string)
    ensures r != [] && forall k :: 0 <= k < |r| ==> IsDecimalDigit(r[k])
  {
    if n < 10 then [DigitChar(n)] else NatToString(n / 10) + [DigitChar(n % 10)]
  }

  /** The longest prefix of `s` made of digits of the radix. */
  function DigitPrefix(s: string, radix: nat): (z: string)
    ensures |z| <= |s| && z == s[..|z|]
    ensures forall k :: 0 <= k < |z| ==> DigitValue(z[k]) < radix
    ensures |z| < |s| ==> DigitValue(s[|z|]) >= radix
  {
    if s != [] && DigitValue(s[0]) < radix then [s[0]] + DigitPrefix(s[1..], radix) else []
  }

  /** The value of a string of digits in the radix, most significant first. */
  function DigitsValue(z: string, radix: nat): nat {
    if z == [] then 0 else DigitsValue(z[..|z| - 1], radix) * radix + DigitValue(z[|z| - 1])
  }

  /**
   * `parseInt(s)` with no radix argument (section 19.2.5 of ECMA-262): leading
   * whitespace is skipped, then one sign, then a `0x`/`0X` prefix selects radix 16,
   * and the longest run of digits is read. None stands for NaN.
   */
  function ParseInt(s: string): (r: Option<int>)
    ensures r.None? <==> |DigitPrefix(ParseIntBody(s).body, ParseIntBody(s).radix)| == 0
  {
    var t := TrimStart(s);
    var negative := t != [] && t[0] == '-';
    var rb := ParseIntBody(s);
    var radix := rb.radix;
    var z := DigitPrefix(rb.body, radix);
    if z == [] then None
    else if negative then Some(-(DigitsValue(z, radix) as int))
    else Some(DigitsValue(z, radix))
  }

  /** The radix `parseInt` reads in and the text it reads the digits from. */
  datatype DigitRun = DigitRun(radix: nat, body: string)

  /** The radix `parseInt` settles on and the text it reads digits from. */
  function ParseIntBody(s: string): (rb: DigitRun)
    ensures rb.radix == 10 || rb.radix == 16
  {
    var t := TrimStart(s);
    var u := if t != [] && (t[0] == '-' || t[0] == '+') then t[1..] else t;
    if |u| >= 2 && u[0] == '0' && (u[1] == 'x' || u[1] == 'X') then DigitRun(16, u[2..]) else DigitRun(10, u)
  }

  /** `parseInt(s) || 0`: NaN (and minus zero) become 0. */
  function ParseIntOrZero(s: string): (z: int)
    ensures ParseInt(s).None? ==> z == 0
    ensures z != 0 ==> ParseInt(s) == Some(z)
  {
    ParseInt(s).GetOr(0)
  }

  lemma {:induction false} DigitPrefixOfDigits(s: string, radix: nat)
    requires forall k :: 0 <= k < |s| ==> DigitValue(s[k]) < radix
    ensures DigitPrefix(s, radix) == s
    decreases |s|
  {
    if s != [] {
      DigitPrefixOfDigits(s[1..], radix);
      assert s == [s[0]] + s[1..];
    }
  }

  /** Reading back the decimal text of `n` gives `n`. */
  lemma {:induction false} DigitsValueOfNatToString(n: nat)
    ensures DigitsValue(NatToString(n), 10) == n
  {
    var r := NatToString(n);
    if n >= 10 {
      DigitsValueOfNatToString(n / 10);
      assert r[..|r| - 1] == NatToString(n / 10);
    }
  }

  lemma DigitIsNotWhitespace(c: char)
    requires IsDecimalDigit(c)
    ensures !IsWhitespace(c) && c != '-' && c != '+' && c != 'x' && c != 'X'
  {
  }

  /** Starting from `s`, `parseInt` reads the digit string `r` in radix 10. */
  lemma {:induction false} ParsesAsDecimal(s: string, r: string)
    requires r != [] && forall k :: 0 <= k < |r| ==> IsDecimalDigit(r[k])
    requires s == r || (s == "-" + r)
    ensures ParseIntBody(s) == DigitRun(10, r)
    ensures DigitPrefix(r, 10) == r
  {
    DigitIsNotWhitespace(r[0]);
    if s == r {
      assert LeadingWhitespace(s) == 0;
    } else {
      assert LeadingWhitespace(s) == 0;
      assert s[1..] == r;
    }
    if |r| >= 2 {
      DigitIsNotWhitespace(r[1]);
    }
    DigitPrefixOfDigits(r, 10);
  }

  /** `parseInt` reads back what a template literal wrote: the number-to-text round trip. */
  lemma ParseIntOfNatToString(n: nat)
    ensures ParseInt(NatToString(n)) == Some(n)
    ensures ParseIntOrZero(NatToString(n)) == n
  {
    var r := NatToString(n);
    ParsesAsDecimal(r, r);
    DigitIsNotWhitespace(r[0]);
    assert TrimStart(r) == r;
    DigitsValueOfNatToString(n);
  }

  /** A leading minus sign negates what follows it. */
  lemma ParseIntOfNegative(n: nat)
    ensures ParseIntOrZero("-" + NatToString(n)) == -(n as int)
  {
    var r := NatToString(n);
    var s := "-" + r;
    ParsesAsDecimal(s, r);
    assert TrimStart(s) == s;
    DigitsValueOfNatToString(n);
  }

  /** Text with no digit where `parseInt` starts reading parses as NaN, so `|| 0` gives 0. */
  lemma ParseIntNoDigits(s: string)
    requires TrimStart(s) != [] && TrimStart(s)[0] !in "+-" && DigitValue(TrimStart(s)[0]) >= 10
    ensures ParseInt(s) == None && ParseIntOrZero(s) == 0
  {
  }

  // ---------------------------------------------------------------------------
  // the email test of the contact form

  /**
   * `/\S+@\S+\.\S+/.test(s)`, unanchored: some `@` has a non-whitespace character
   * before it, and is followed by a non-empty run of non-whitespace characters, a
   * `.`, and one more non-whitespace character.
   */
  predicate LooksLikeEmail(s: string) {
    exists i, j | 0 < i < j < |s| :: EmailAt(s, i, j)
  }

  /** The `@` at `i` and the `.` at `j` witness a match of `\S+@\S+\.\S+`. */
  predicate EmailAt(s: string, i: int, j: int) {
    && 0 < i && i + 1 < j && j + 1 < |s|
    && s[i] == '@' && s[j] == '.'
    && !IsWhitespace(s[i - 1]) && !IsWhitespace(s[j + 1])
    && NoWhitespace(s[i + 1..j])
  }

  predicate NoWhitespace(s: string) {
    forall k :: 0 <= k < |s| ==> !IsWhitespace(s[k])
  }

  /** The regular expression read literally: some slice of `s` is `x@y.z` with `x`, `y`, `z` non-empty runs of `\S`. */
  ghost predicate MatchesEmailPattern(s: string) {
    exists a, i, j, e :: EmailSliceAt(s, a, i, j, e)
  }

  /** `s[a..e]` is `x@y.z` with the `@` at `i` and the `.` at `j`. */
  ghost predicate EmailSliceAt(s: string, a: int, i: int, j: int, e: int) {
    && 0 <= a < i && i + 1 < j && j + 1 < e <= |s|
    && s[i] == '@' && s[j] == '.'
    && NoWhitespace(s[a..i]) && NoWhitespace(s[i + 1..j]) && NoWhitespace(s[j + 1..e])
  }

  /** The predicate the form uses is exactly the regular expression's unanchored test. */
  lemma LooksLikeEmailMatchesPattern(s: string)
    ensures LooksLikeEmail(s) <==> MatchesEmailPattern(s)
  {
    if LooksLikeEmail(s) {
      var i, j :| 0 < i < j < |s| && EmailAt(s, i, j);
      assert s[i - 1..i][0] == s[i - 1];
      assert s[j + 1..j + 2][0] == s[j + 1];
      assert EmailSliceAt(s, i - 1, i, j, j + 2);
    }
    if MatchesEmailPattern(s) {
      var a, i, j, e :| EmailSliceAt(s, a, i, j, e);
      assert s[a..i][i - 1 - a] == s[i - 1];
      assert s[j + 1..e][0] == s[j + 1];
      assert EmailAt(s, i, j);
    }
  }

  lemma NoWhitespaceInLowercase(t: string)
    requires forall k :: 0 <= k < |t| ==> 'a' <= t[k] <= 'z'
    ensures NoWhitespace(t)
  {
  }

  lemma SampleEmails()
    ensures LooksLikeEmail("john@example.com")
    ensures !LooksLikeEmail("john@example")
    ensures !LooksLikeEmail("john @example.com")
  {
    var s := "john@example.com";
    assert s[5..12] == "example";
    NoWhitespaceInLowercase("example");
    assert EmailAt(s, 4, 12);
  }
}
