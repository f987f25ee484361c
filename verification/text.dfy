/** Character classes and string helpers standing in for the parts of
    Python's str and re behaviour that the classifier uses: str.strip(),
    the \s, \d and \w classes, str.isdigit(), and case-insensitive prefixes.
    The Unicode classes are given as explicit finite character sets. */
module TextUtil {

  /** str.isspace() (and the regex class \s): the characters Python treats as whitespace. */
  predicate IsSpace(c: char)
  {
    c in {' ', '\t', '\n', '\r', '\U{000B}', '\U{000C}',
          '\U{001C}', '\U{001D}', '\U{001E}', '\U{001F}', '\U{0085}', '\U{00A0}',
          '\U{1680}', '\U{2028}', '\U{2029}', '\U{202F}', '\U{205F}', '\U{3000}'} ||
    ('\U{2000}' <= c <= '\U{200A}')
  }

  /** The regex class \d, restricted to the ASCII decimal digits. */
  predicate IsDecimal(c: char)
  {
    '0' <= c <= '9'
  }

  /** str.isdigit() over these ranges: the decimal digits U+0030-U+0039,
      U+0660-U+0669 (Arabic-Indic), U+06F0-U+06F9 (extended Arabic-Indic),
      U+0966-U+096F (Devanagari) and U+FF10-U+FF19 (fullwidth); the
      superscript digits ¹ ² ³ and U+2070, U+2074-U+2079; the subscript
      digits U+2080-U+2089; and the circled digits U+2460-U+2468. */
  predicate IsDigitChar(c: char)
  {
    IsDecimal(c) ||
    c in {'²', '³', '¹', '⁰', '⁴', '⁵', '⁶',
          '⁷', '⁸', '⁹'} ||
    ('₀' <= c <= '₉') ||
    ('\U{0660}' <= c <= '\U{0669}') || ('\U{06F0}' <= c <= '\U{06F9}') ||
    ('\U{0966}' <= c <= '\U{096F}') || ('\U{FF10}' <= c <= '\U{FF19}') ||
    ('\U{2460}' <= c <= '\U{2468}')
  }

  /** str.isalpha() over these ranges: ASCII letters; ª, µ, º and the
      Latin-1 letters U+00C0-U+00FF other than × and ÷; Latin Extended-A
      and B (U+0100-U+024F); the Greek letters U+0370-U+0374, U+0376-U+0377,
      U+037A-U+037D, U+037F, U+0386, U+0388-U+038A, U+038C, U+038E-U+03A1,
      U+03A3-U+03F5 and U+03F7-U+03FF; the Cyrillic letters U+0400-U+0481
      and U+048A-U+04FF; and the CJK ideographs U+3400-U+4DBF and
      U+4E00-U+9FFF. */
  predicate IsLetter(c: char)
  {
    ('a' <= c <= 'z') || ('A' <= c <= 'Z') ||
    c in {'\U{00AA}', '\U{00B5}', '\U{00BA}', '\U{037F}', '\U{0386}', '\U{038C}'} ||
    ('\U{00C0}' <= c <= '\U{00D6}') || ('\U{00D8}' <= c <= '\U{00F6}') || ('\U{00F8}' <= c <= '\U{024F}') ||
    ('\U{0370}' <= c <= '\U{0374}') || ('\U{0376}' <= c <= '\U{0377}') || ('\U{037A}' <= c <= '\U{037D}') ||
    ('\U{0388}' <= c <= '\U{038A}') || ('\U{038E}' <= c <= '\U{03A1}') ||
    ('\U{03A3}' <= c <= '\U{03F5}') || ('\U{03F7}' <= c <= '\U{03FF}') ||
    ('\U{0400}' <= c <= '\U{0481}') || ('\U{048A}' <= c <= '\U{04FF}') ||
    ('\U{3400}' <= c <= '\U{4DBF}') || ('\U{4E00}' <= c <= '\U{9FFF}')
  }

  /** The regex class \w (a character c with c.isalnum(), or '_'): the
      letters and digits above, the numeric characters ¼, ½, ¾ and the
      number forms U+2150-U+2189 (fractions and Roman numerals), and '_'. */
  predicate IsWordChar(c: char)
  {
    IsLetter(c) || IsDigitChar(c) || c in {'\U{00BC}', '\U{00BD}', '\U{00BE}'} ||
    ('\U{2150}' <= c <= '\U{2189}') || c == '_'
  }

  /** Simple lower-casing of Latin and Cyrillic capitals, as str.lower() does for them. */
  function LowerChar(c: char): (r: char)
    ensures 'A' <= c <= 'Z' ==> 'a' <= r <= 'z'
    ensures !('A' <= c <= 'Z') && !('Ѐ' <= c <= 'Я') ==> r == c
  {
    if 'A' <= c <= 'Z' then (c as int + 32) as char
    else if 'А' <= c <= 'Я' then (c as int + 32) as char
    else if 'Ѐ' <= c <= 'Џ' then (c as int + 80) as char
    else c
  }

  /** str.lower() over the characters LowerChar covers. */
  function Lower(s: string): (r: string)
    ensures |r| == |s|
    ensures forall k :: 0 <= k < |s| ==> r[k] == LowerChar(s[k])
  {
    if s == [] then [] else [LowerChar(s[0])] + Lower(s[1..])
  }

  /** Every character of s is whitespace. */
  predicate AllSpace(s: string)
  {
    forall k :: 0 <= k < |s| ==> IsSpace(s[k])
  }

  /** Every character of s is an ASCII decimal digit. */
  predicate AllDecimal(s: string)
  {
    forall k :: 0 <= k < |s| ==> IsDecimal(s[k])
  }

  /** Length of the longest all-whitespace prefix. */
  function LeadingSpaces(s: string): (n: nat)
    ensures n <= |s| && AllSpace(s[..n])
    ensures n < |s| ==> !IsSpace(s[n])
  {
    if s == [] || !IsSpace(s[0]) then 0
    else
      var m := LeadingSpaces(s[1..]);
      assert s[1..][..m] == s[1..m + 1];
      1 + m
  }

  /** Length of the longest all-decimal prefix. */
  function LeadingDecimals(s: string): (n: nat)
    ensures n <= |s| && AllDecimal(s[..n])
    ensures n < |s| ==> !IsDecimal(s[n])
  {
    if s == [] || !IsDecimal(s[0]) then 0
    else
      var m := LeadingDecimals(s[1..]);
      assert s[1..][..m] == s[1..m + 1];
      1 + m
  }

  /** Any whitespace prefix that cannot be extended is the longest one. */
  lemma {:induction false} LeadingSpacesExact(s: string, n: nat)
    requires n <= |s| && AllSpace(s[..n]) && (n < |s| ==> !IsSpace(s[n]))
    ensures LeadingSpaces(s) == n
  {
    if n > 0 {
      assert IsSpace(s[..n][0]);
      assert s[1..][..n - 1] == s[1..n];
      LeadingSpacesExact(s[1..], n - 1);
    }
  }

  /** Any digit prefix that cannot be extended is the longest one. */
  lemma {:induction false} LeadingDecimalsExact(s: string, n: nat)
    requires n <= |s| && AllDecimal(s[..n]) && (n < |s| ==> !IsDecimal(s[n]))
    ensures LeadingDecimals(s) == n
  {
    if n > 0 {
      assert IsDecimal(s[..n][0]);
      assert s[1..][..n - 1] == s[1..n];
      LeadingDecimalsExact(s[1..], n - 1);
    }
  }

  /** Length of s without its longest all-whitespace suffix. */
  function TrailingStart(s: string): (n: nat)
    ensures n <= |s| && AllSpace(s[n..])
    ensures n > 0 ==> !IsSpace(s[n - 1])
  {
    if s == [] || !IsSpace(s[|s| - 1]) then |s|
    else
      var m := TrailingStart(s[..|s| - 1]);
      assert s[m..] == s[..|s| - 1][m..] + [s[|s| - 1]];
      m
  }

  /** What str.strip() promises: r is s with whitespace removed from both
      ends and nothing else. */
  ghost predicate StripOf(s: string, r: string)
  {
    exists i, j :: 0 <= i <= j <= |s| && r == s[i..j] && AllSpace(s[..i]) && AllSpace(s[j..]) &&
      (r == [] || (!IsSpace(r[0]) && !IsSpace(r[|r| - 1])))
  }

  /** str.strip() with no argument. */
  function Strip(s: string): (r: string)
    ensures StripOf(s, r)
    ensures r == [] <==> AllSpace(s)
  {
    var i := LeadingSpaces(s);
    var rest := s[i..];
    var n := TrailingStart(rest);
    assert s[i..i + n] == rest[..n];
    assert s[i + n..] == rest[n..];
    assert s == s[..i] + rest;
    s[i..i + n]
  }

  /** Stripping twice is stripping once. */
  lemma {:induction false} StripIdempotent(s: string)
    ensures Strip(Strip(s)) == Strip(s)
  {
    var r := Strip(s);
    if r != [] {
      assert !IsSpace(r[0]) && !IsSpace(r[|r| - 1]);
      assert LeadingSpaces(r) == 0;
      assert r[0..] == r;
      assert TrailingStart(r) == |r|;
    }
  }

  /** re.match(p, s, re.IGNORECASE) for a literal p: s starts with p up to case. */
  predicate StartsWithIgnoreCase(s: string, p: string)
  {
    |p| <= |s| && forall k :: 0 <= k < |p| ==> LowerChar(s[k]) == LowerChar(p[k])
  }

  /** `needle in s` for strings. */
  predicate ContainsSub(s: string, needle: string)
    decreases |s|
  {
    needle <= s || (s != [] && ContainsSub(s[1..], needle))
  }

  /** re.search over a character class: some character of s is in cs. */
  predicate ContainsAnyOf(s: string, cs: set<char>)
  {
    exists k :: 0 <= k < |s| && s[k] in cs
  }

  /** Decimal representation of a natural number (str(n)). */
  function NatToString(n: nat): (r: string)
    ensures |r| > 0 && AllDecimal(r)
    ensures |r| > 1 ==> r[0] != '0'
    decreases n
  {
    var d := ['0' + (n % 10) as char];
    if n < 10 then d else NatToString(n / 10) + d
  }

  /** The value of a string of decimal digits. */
  function DecimalValue(s: string): nat
    requires AllDecimal(s)
  {
    if s == [] then 0 else 10 * DecimalValue(s[..|s| - 1]) + (s[|s| - 1] - '0') as nat
  }

  /** NatToString is inverted by reading the digits back. */
  lemma {:induction false} NatToStringRoundTrip(n: nat)
    ensures DecimalValue(NatToString(n)) == n
    decreases n
  {
    var r := NatToString(n);
    if n >= 10 {
      NatToStringRoundTrip(n / 10);
      assert r[..|r| - 1] == NatToString(n / 10);
    }
  }
}
