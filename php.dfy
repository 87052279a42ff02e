/** The PHP built-ins the web tier relies on, defined as PHP 8 does for the
    inputs the pages see: `empty`, `isset` over `$_SESSION`-like maps,
    `trim`, `is_numeric`, the `(int)` cast of a string, `htmlspecialchars`
    with `ENT_QUOTES`, and `basename`. */
module Php {
  import opened Wrappers
  import opened Text

  /** A scalar held in `$_SESSION`, `$_POST` or a result row. */
  datatype PhpVal = PNull | PBool(b: bool) | PInt(i: int) | PFloat(f: real) | PStr(s: string)

  /** `isset($m[$k])`: present and not null. */
  predicate IsSet(m: map<string, PhpVal>, k: string)
  {
    k in m && m[k] != PNull
  }

  /** `empty($s)` for a string: the empty string and "0" are empty. */
  predicate EmptyString(s: string)
  {
    s == "" || s == "0"
  }

  /** `empty($v)` for any scalar (and `!$v`, its truthiness). */
  predicate Empty(v: PhpVal)
  {
    match v
    case PNull => true
    case PBool(b) => !b
    case PInt(i) => i == 0
    case PFloat(f) => f == 0.0
    case PStr(s) => EmptyString(s)
  }

  function TrimLeft(s: string, chars: set<char>): (r: string)
    ensures |r| <= |s| && r == s[|s| - |r|..]
    ensures forall k :: 0 <= k < |s| - |r| ==> s[k] in chars
    ensures r != [] ==> r[0] !in chars
  {
    if s != [] && s[0] in chars then TrimLeft(s[1..], chars) else s
  }

  function TrimRight(s: string, chars: set<char>): (r: string)
    ensures |r| <= |s| && r == s[..|r|]
    ensures forall k :: |r| <= k < |s| ==> s[k] in chars
    ensures r != [] ==> r[|r| - 1] !in chars
  {
    if s != [] && s[|s| - 1] in chars then TrimRight(s[..|s| - 1], chars) else s
  }

  /** `trim($s, $chars)`. */
  function TrimSet(s: string, chars: set<char>): string
  {
    TrimRight(TrimLeft(s, chars), chars)
  }

  /** The characters `trim($s)` strips by default: space, tab, newline,
      carriage return, NUL and vertical tab. */
  const TrimChars: set<char> := {' ', '\t', '\n', '\r', '\0', '\U{000B}'}

  /** `trim($s)`. */
  function Trim(s: string): string
  {
    TrimSet(s, TrimChars)
  }

  lemma TrimSetIdempotent(s: string, chars: set<char>)
    ensures TrimSet(TrimSet(s, chars), chars) == TrimSet(s, chars)
  {
    var t := TrimSet(s, chars);
    if t != [] {
      assert t[0] == TrimLeft(s, chars)[0];
    }
  }

  lemma TrimSetNoEdges(s: string, chars: set<char>)
    requires s == [] || (s[0] !in chars && s[|s| - 1] !in chars)
    ensures TrimSet(s, chars) == s
  {
  }

  /** A lone character of the set is trimmed away. */
  lemma TrimSetLoneMember(c: char, chars: set<char>)
    requires c in chars
    ensures TrimSet([c], chars) == []
  {
    assert TrimLeft([c], chars) == TrimLeft([c][1..], chars);
  }

  /** The whitespace PHP 8 allows around a numeric string. */
  const NumericWhitespace: set<char> := {' ', '\t', '\n', '\r', '\U{000B}', '\U{000C}'}

  /** The number of leading decimal digits of `s`. */
  function LeadingDigits(s: string): (n: nat)
    ensures n <= |s| && AllDigits(s[..n])
    ensures n < |s| ==> !IsDigit(s[n])
  {
    if s != [] && IsDigit(s[0]) then
      var n := 1 + LeadingDigits(s[1..]);
      assert s[..n] == [s[0]] + s[1..][..n - 1];
      n
    else 0
  }

  /** An optional exponent `e`/`E`, optional sign, at least one digit. */
  predicate ExponentText(e: string)
  {
    e == [] ||
    ((e[0] == 'e' || e[0] == 'E') &&
     var f := if |e| > 1 && (e[1] == '+' || e[1] == '-') then e[2..] else e[1..];
     f != [] && AllDigits(f))
  }

  /** `LNUM`, `DNUM` or `EXPONENT_DNUM` of the PHP language grammar. */
  predicate UnsignedNumberText(u: string)
  {
    var a := LeadingDigits(u);
    var rest := u[a..];
    if rest != [] && rest[0] == '.' then
      var b := LeadingDigits(rest[1..]);
      a + b > 0 && ExponentText(rest[1..][b..])
    else
      a > 0 && ExponentText(rest)
  }

  function StripSign(t: string): string
  {
    if t != [] && (t[0] == '+' || t[0] == '-') then t[1..] else t
  }

  /** `is_numeric($s)` for a string, as in PHP 8: optional surrounding
      whitespace, an optional sign, then an integer, decimal or exponent
      number. Hexadecimal, octal and binary forms are not numeric. */
  predicate IsNumeric(s: string)
  {
    UnsignedNumberText(StripSign(TrimSet(s, NumericWhitespace)))
  }

  lemma DigitsAreNumeric(s: string)
    requires s != [] && AllDigits(s)
    ensures IsNumeric(s)
  {
    assert TrimSet(s, NumericWhitespace) == s;
    assert LeadingDigits(s) == |s| by {
      LeadingDigitsOfDigits(s);
    }
  }

  lemma {:induction false} LeadingDigitsOfDigits(s: string)
    requires AllDigits(s)
    ensures LeadingDigits(s) == |s|
  {
    if s != [] {
      LeadingDigitsOfDigits(s[1..]);
    }
  }

  /** Text starting with a character that cannot begin a number (not
      whitespace, sign, digit or point) is not numeric. */
  lemma NotNumericStart(s: string)
    requires s != [] && !IsDigit(s[0]) && s[0] !in NumericWhitespace
    requires s[0] != '+' && s[0] != '-' && s[0] != '.'
    ensures !IsNumeric(s)
  {
    assert TrimLeft(s, NumericWhitespace) == s;
    var r := TrimRight(s, NumericWhitespace);
    assert r != [] && r[0] == s[0];
    assert StripSign(r) == r;
    assert LeadingDigits(r) == 0;
  }

  lemma EmptyIsNotNumeric()
    ensures !IsNumeric("")
  {
  }

  /** An optional sign and the leading decimal digits; no digits is 0. */
  function SignedLeadingDigits(t: string): int
  {
    var u := StripSign(t);
    var v: int := DigitsValue(u[..LeadingDigits(u)]);
    if t != [] && t[0] == '-' then -v else v
  }

  /** `(int)$s` for a string: leading whitespace, an optional sign and the
      leading decimal digits. */
  function IntCast(s: string): int
  {
    SignedLeadingDigits(TrimLeft(s, NumericWhitespace))
  }

  /** `(int)` of decimal digits is the number they write. */
  lemma IntCastOfDigits(s: string)
    requires s != [] && AllDigits(s)
    ensures IntCast(s) == DigitsValue(s)
  {
    assert TrimLeft(s, NumericWhitespace) == s;
    assert StripSign(s) == s;
    LeadingDigitsOfDigits(s);
    assert s[..|s|] == s;
  }

  /** `htmlspecialchars($s, ENT_QUOTES)`. */
  function HtmlSpecialChars(s: string): (r: string)
    ensures |r| >= |s|
  {
    if s == [] then ""
    else
      var c := s[0];
      (if c == '&' then "&amp;"
       else if c == '"' then "&quot;"
       else if c == '\'' then "&#039;"
       else if c == '<' then "&lt;"
       else if c == '>' then "&gt;"
       else [c])
      + HtmlSpecialChars(s[1..])
  }

  /** Escaping keeps `empty()` unchanged: only "" and "0" escape to an
      empty string. */
  lemma HtmlSpecialCharsKeepsEmpty(s: string)
    ensures EmptyString(HtmlSpecialChars(s)) <==> EmptyString(s)
  {
    if s != [] && EmptyString(HtmlSpecialChars(s)) {
      assert |s| == 1;
    }
  }

  /** No character that could open a tag or close an attribute value. */
  predicate NoMarkup(s: string)
  {
    forall i :: 0 <= i < |s| ==> s[i] != '<' && s[i] != '>' && s[i] != '"' && s[i] != '\''
  }

  /** Escaped text holds no raw markup character. */
  lemma {:induction false} EscapedHasNoMarkup(s: string)
    ensures NoMarkup(HtmlSpecialChars(s))
  {
    if s != [] {
      EscapedHasNoMarkup(s[1..]);
      var rest := HtmlSpecialChars(s[1..]);
      var head := HtmlSpecialChars(s)[..|HtmlSpecialChars(s)| - |rest|];
      assert HtmlSpecialChars(s) == head + rest;
      assert NoMarkup(head);
    }
  }

  /** `basename($path)`: trailing slashes dropped, then the last segment. */
  function Basename(path: string): (r: string)
    ensures '/' !in r
  {
    var parts := Split(TrimRight(path, {'/'}), '/');
    SplitPiecesFree(TrimRight(path, {'/'}), '/');
    parts[|parts| - 1]
  }

  /** The base name of a path is its last segment. */
  lemma BasenameOfLastSegment(front: string, last: string)
    requires last != [] && '/' !in last
    ensures Basename(front + ['/'] + last) == last
  {
    var path := front + ['/'] + last;
    assert path[|path| - 1] == last[|last| - 1];
    assert TrimRight(path, {'/'}) == path;
    SplitConcat(front, last, '/');
    SplitNoSeparator(last, '/');
  }
}
