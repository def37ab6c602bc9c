/** The few Python string and path operations the core relies on: `str.isspace`,
    `str.strip`, `str.isalpha`, `str.lower` on file-name suffixes, `str.endswith`,
    `os.path.splitext`, `os.path.join` (POSIX) and `str(n)` for a natural number. */
module PyText {

  /** `str.isspace` for one character, which is also what the regular-expression
      class `\s` matches in a `str` pattern: the Unicode whitespace characters. */
  predicate IsSpace(c: char)
  {
    || c == ' '
    || ('\t' <= c <= '\r')                  // \t \n \v \f \r
    || ('\U{1c}' <= c <= '\U{1f}')          // information separators
    || c == '\U{85}' || c == '\U{a0}' || c == '\U{1680}'
    || ('\U{2000}' <= c <= '\U{200a}')
    || c == '\U{2028}' || c == '\U{2029}' || c == '\U{202f}' || c == '\U{205f}'
    || c == '\U{3000}'
  }

  predicate AllSpace(s: string)
  {
    forall i :: 0 <= i < |s| ==> IsSpace(s[i])
  }

  /** End of the maximal whitespace run that starts at `i`. */
  function SpaceRunEnd(s: string, i: nat): (j: nat)
    requires i <= |s|
    ensures i <= j <= |s|
    ensures forall m :: i <= m < j ==> IsSpace(s[m])
    ensures j == |s| || !IsSpace(s[j])
    decreases |s| - i
  {
    if i < |s| && IsSpace(s[i]) then SpaceRunEnd(s, i + 1) else i
  }

  /** Start of the maximal whitespace run that ends at `j`. */
  function SpaceRunStart(s: string, j: nat): (i: nat)
    requires j <= |s|
    ensures i <= j
    ensures forall m :: i <= m < j ==> IsSpace(s[m])
    ensures i == 0 || !IsSpace(s[i - 1])
  {
    if j > 0 && IsSpace(s[j - 1]) then SpaceRunStart(s, j - 1) else j
  }

  /** Number of leading whitespace characters. */
  function Lead(s: string): nat
  {
    SpaceRunEnd(s, 0)
  }

  /** A slice cut in three. */
  lemma SliceSplit3<T>(s: seq<T>, a: nat, b: nat, c: nat)
    requires a <= b <= c <= |s|
    ensures s[a..] == s[a..b] + s[b..c] + s[c..]
  {
    assert s[a..] == s[a..b] + s[b..];
    assert s[b..] == s[b..c] + s[c..];
  }

  /** A non-empty text that neither starts nor ends with whitespace. */
  predicate Stripped(t: string)
  {
    t != [] && !IsSpace(t[0]) && !IsSpace(t[|t| - 1])
  }

  /** `s.strip()`: the text between the leading and the trailing whitespace. */
  function Strip(s: string): (r: string)
    ensures Lead(s) + |r| <= |s| && r == s[Lead(s)..Lead(s) + |r|]
    ensures r == [] <==> AllSpace(s)
    ensures r != [] ==> Stripped(r)
    ensures AllSpace(s[Lead(s) + |r|..])
  {
    var a := Lead(s);
    if a == |s| then []
    else
      var b := SpaceRunStart(s, |s|);
      assert !IsSpace(s[a]);
      s[a..b]
  }

  /** `t.isalpha()`, given the character class Python calls alphabetic: the
      string is non-empty and every character is a letter. */
  predicate IsAlpha(t: string, isLetter: char -> bool)
  {
    |t| > 0 && forall i :: 0 <= i < |t| ==> isLetter(t[i])
  }

  function AsciiLowerChar(c: char): char
  {
    if 'A' <= c <= 'Z' then (c as int + 32) as char else c
  }

  /** Lower-casing restricted to ASCII letters.  For the checks it is used in
      (a case-insensitive match against ASCII file suffixes) it agrees with
      Python's full `str.lower`. */
  function AsciiLower(s: string): (r: string)
    ensures |r| == |s|
    ensures forall i :: 0 <= i < |s| ==> r[i] == AsciiLowerChar(s[i])
  {
    seq(|s|, i requires 0 <= i < |s| => AsciiLowerChar(s[i]))
  }

  predicate EndsWith(s: string, suffix: string)
  {
    |suffix| <= |s| && forall i :: 0 <= i < |suffix| ==> s[|s| - |suffix| + i] == suffix[i]
  }

  /** The first `n` characters of `suffix` equal the lower-cased characters
      of `s` where `suffix` would sit at its end; the last of them is compared
      first. */
  predicate LowerTail(s: string, suffix: string, n: nat)
    requires n <= |suffix| <= |s|
  {
    n == 0 || (AsciiLowerChar(s[|s| - |suffix| + n - 1]) == suffix[n - 1] && LowerTail(s, suffix, n - 1))
  }

  /** `s.lower().endswith(suffix)`. */
  predicate EndsWithLower(s: string, suffix: string)
  {
    |suffix| <= |s| && LowerTail(s, suffix, |suffix|)
  }

  lemma {:induction false} LowerTailMeans(s: string, suffix: string, n: nat)
    requires n <= |suffix| <= |s|
    ensures LowerTail(s, suffix, n) <==>
      forall i :: 0 <= i < n ==> AsciiLowerChar(s[|s| - |suffix| + i]) == suffix[i]
    decreases n
  {
    if n > 0 {
      LowerTailMeans(s, suffix, n - 1);
    }
  }

  /** The character-wise test is the lower-cased text ending with `suffix`. */
  lemma EndsWithLowerMeans(s: string, suffix: string)
    ensures EndsWithLower(s, suffix) <==> EndsWith(AsciiLower(s), suffix)
  {
    if |suffix| <= |s| {
      LowerTailMeans(s, suffix, |suffix|);
    }
  }

  /** Ending with `suffix` whatever the case, one character at a time. */
  lemma EndsWithLowerByChars(s: string, suffix: string)
    requires |suffix| <= |s|
    requires forall i :: 0 <= i < |suffix| ==> AsciiLowerChar(s[|s| - |suffix| + i]) == suffix[i]
    ensures EndsWithLower(s, suffix)
  {
    LowerTailMeans(s, suffix, |suffix|);
  }

  /** A text whose lower-cased last character differs from the last one of
      `suffix` does not end with it, whatever the case. */
  lemma LastCharDiffers(s: string, suffix: string)
    requires s != [] && suffix != [] && AsciiLowerChar(s[|s| - 1]) != suffix[|suffix| - 1]
    ensures !EndsWithLower(s, suffix)
  {
  }

  /** `s.endswith(tuple(suffixes))`. */
  predicate EndsWithAny(s: string, suffixes: seq<string>)
  {
    exists k :: 0 <= k < |suffixes| && EndsWith(s, suffixes[k])
  }

  /** `s.rfind(c)`: the last index holding `c`, or -1. */
  function RFind(s: string, c: char): (r: int)
    ensures -1 <= r < |s|
    ensures r >= 0 ==> s[r] == c
    ensures forall i :: r < i < |s| ==> s[i] != c
  {
    if |s| == 0 then -1
    else if s[|s| - 1] == c then |s| - 1
    else RFind(s[..|s| - 1], c)
  }

  /** The extension part of `os.path.splitext(p)` on POSIX: from the last dot
      of the final path component, provided that component has a non-dot
      character before that dot; otherwise empty. */
  function SplitExt(p: string): (ext: string)
    ensures ext != [] ==> ext[0] == '.' && EndsWith(p, ext)
    ensures ext != [] ==> forall i :: 0 < i < |ext| ==> ext[i] != '.' && ext[i] != '/'
    ensures ext == [] <==>
      var sep := RFind(p, '/');
      var dot := RFind(p, '.');
      dot <= sep || forall i :: sep < i < dot ==> p[i] == '.'
  {
    var sep := RFind(p, '/');
    var dot := RFind(p, '.');
    if dot > sep && exists i :: sep < i < dot && p[i] != '.' then p[dot..] else []
  }

  /** A final component made of dots and a name, like `.jpg`, has no
      extension; the extension starts at the last dot of the final component. */
  lemma SplitExtExamples()
    ensures SplitExt(".jpg") == []
    ensures SplitExt("a/b.c.png") == ".png"
  {
    var p := ".jpg";
    assert p[0] == '.' && p[1] != '.' && p[2] != '.' && p[3] != '.';
    assert RFind(p, '/') == -1;
    assert RFind(p, '.') == 0;
    var q := "a/b.c.png";
    assert q[1] == '/' && q[5] == '.' && q[6] != '.' && q[7] != '.' && q[8] != '.';
    assert q[2] != '/' && q[3] != '/' && q[4] != '/' && q[6] != '/' && q[7] != '/' && q[8] != '/';
    assert RFind(q, '/') == 1;
    assert RFind(q, '.') == 5;
    assert q[5..] == ".png";
  }

  /** `os.path.join(a, b)` on POSIX for two components. */
  function PathJoin(a: string, b: string): (r: string)
    ensures EndsWith(r, b)
    ensures |b| > 0 && b[0] != '/' && |a| > 0 && a[|a| - 1] != '/' ==> r == a + "/" + b
  {
    if |b| > 0 && b[0] == '/' then b
    else if a == [] || a[|a| - 1] == '/' then a + b
    else a + "/" + b
  }

  function DigitChar(d: nat): char
    requires d < 10
  {
    ('0' as int + d) as char
  }

  /** `str(n)` for a natural number: its decimal digits, most significant first. */
  function Decimal(n: nat): (r: string)
    ensures |r| > 0
    ensures forall i :: 0 <= i < |r| ==> '0' <= r[i] <= '9'
    ensures (n < 10) == (|r| == 1)
  {
    if n < 10 then [DigitChar(n)] else Decimal(n / 10) + [DigitChar(n % 10)]
  }

  /** Distinct numbers have distinct decimal strings. */
  lemma {:induction false} DecimalInjective(m: nat, n: nat)
    requires Decimal(m) == Decimal(n)
    ensures m == n
  {
    var r := Decimal(m);
    if m >= 10 && n >= 10 {
      assert r[..|r| - 1] == Decimal(m / 10) && r[..|r| - 1] == Decimal(n / 10);
      DecimalInjective(m / 10, n / 10);
      assert DigitChar(m % 10) == r[|r| - 1] == DigitChar(n % 10);
    }
  }
}
