/** The Python built-ins the report generator relies on, stated over `string`
    (a sequence of Unicode code points, as a Python `str` is):
    `str.strip`, `str.lower`, `str.upper`, `in` on strings, `str.replace`,
    `str.split(sep)[-1]`, `int(str)` and `f"{n}"` for an integer `n`. */
module PyBuiltins {

  datatype Option<+T> = None | Some(value: T)

  // ---------------------------------------------------------------------------
  // Character classes

  /** `c.isspace()`: the characters `str.strip()` removes. */
  predicate IsSpace(c: char) {
    c == ' ' || ('\t' <= c <= '\r') || ('\U{1c}' <= c <= '\U{1f}') || c == '\U{85}' || c == '\U{a0}'
    || c == '\U{1680}' || ('\U{2000}' <= c <= '\U{200a}') || c == '\U{2028}' || c == '\U{2029}'
    || c == '\U{202f}' || c == '\U{205f}' || c == '\U{3000}'
  }

  /** The whitespace `int()` accepts around its digits: every `isspace()`
      character except the four separators U+001C..U+001F. */
  predicate IsIntSpace(c: char) {
    IsSpace(c) && !('\U{1c}' <= c <= '\U{1f}')
  }

  predicate IsDigit(c: char) {
    '0' <= c <= '9'
  }

  function DigitValue(c: char): (d: nat)
    requires IsDigit(c)
    ensures d < 10
  {
    (c as int) - ('0' as int)
  }

  function DigitChar(d: nat): (c: char)
    requires d < 10
    ensures IsDigit(c) && DigitValue(c) == d
  {
    ((d + '0' as int) as char)
  }

  // ---------------------------------------------------------------------------
  // strip

  /** Which whitespace a trim removes: `str.strip()`'s, or the one `int()` skips. */
  datatype Blanks = StrBlanks | IntBlanks

  predicate IsBlank(b: Blanks, c: char) {
    if b == StrBlanks then IsSpace(c) else IsIntSpace(c)
  }

  /** Drops the leading blanks of `s`. */
  function DropLeading(s: string, b: Blanks): (r: string)
    ensures |r| <= |s| && r == s[|s| - |r|..]
    ensures forall i :: 0 <= i < |s| - |r| ==> IsBlank(b, s[i])
    ensures |r| > 0 ==> !IsBlank(b, r[0])
  {
    if |s| == 0 || !IsBlank(b, s[0]) then s else DropLeading(s[1..], b)
  }

  /** Drops the trailing blanks of `s`. */
  function DropTrailing(s: string, b: Blanks): (r: string)
    ensures |r| <= |s| && r == s[..|r|]
    ensures forall i :: |r| <= i < |s| ==> IsBlank(b, s[i])
    ensures |r| > 0 ==> !IsBlank(b, r[|r| - 1])
  {
    if |s| == 0 || !IsBlank(b, s[|s| - 1]) then s else DropTrailing(s[..|s| - 1], b)
  }

  /** `s.strip()` for StrBlanks; the trimming `int()` does for IntBlanks. */
  function StripBy(s: string, b: Blanks): string {
    DropTrailing(DropLeading(s, b), b)
  }

  function Strip(s: string): string {
    StripBy(s, StrBlanks)
  }

  /** A string whose ends are not blanks is its own strip. */
  lemma StripUnchanged(s: string, b: Blanks)
    requires |s| > 0 ==> !IsBlank(b, s[0]) && !IsBlank(b, s[|s| - 1])
    ensures StripBy(s, b) == s
  {
  }

  // ---------------------------------------------------------------------------
  // Case mapping

  /** `c.lower()` for the ASCII capitals and for the two non-ASCII characters
      (U+0130 and the Kelvin sign U+212A) whose lower case contains an ASCII
      letter; every other character is returned unchanged. Comparing such a
      lowered string with an ASCII target decides equality exactly as Python
      does, because a character left unchanged here lowers in Python to a
      string with no ASCII letter. */
  function LowerChar(c: char): (r: string)
    ensures |r| >= 1
  {
    if 'A' <= c <= 'Z' then [(c as int + 32) as char]
    else if c == '\U{130}' then "i\U{307}"
    else if c == '\U{212a}' then "k"
    else [c]
  }

  function Lower(s: string): string {
    if |s| == 0 then "" else Lower(s[..|s| - 1]) + LowerChar(s[|s| - 1])
  }

  /** `c.upper()` for the ASCII small letters and for the seventeen non-ASCII
      characters whose upper case contains an ASCII letter (the sharp s, the
      dotless i, the long s, the Latin ligatures and a handful of letters with
      marks); every other character is returned unchanged. Searching such an
      upper-cased string for a word of ASCII capitals gives Python's answer. */
  function UpperChar(c: char): (r: string)
    ensures |r| >= 1
  {
    if 'a' <= c <= 'z' then [(c as int - 32) as char]
    else match c
      case '\U{df}' => "SS"
      case '\U{131}' => "I"
      case '\U{149}' => "\U{2bc}N"
      case '\U{17f}' => "S"
      case '\U{1f0}' => "J\U{30c}"
      case '\U{1e96}' => "H\U{331}"
      case '\U{1e97}' => "T\U{308}"
      case '\U{1e98}' => "W\U{30a}"
      case '\U{1e99}' => "Y\U{30a}"
      case '\U{1e9a}' => "A\U{2be}"
      case '\U{fb00}' => "FF"
      case '\U{fb01}' => "FI"
      case '\U{fb02}' => "FL"
      case '\U{fb03}' => "FFI"
      case '\U{fb04}' => "FFL"
      case '\U{fb05}' => "ST"
      case '\U{fb06}' => "ST"
      case _ => [c]
  }

  function Upper(s: string): string {
    if |s| == 0 then "" else Upper(s[..|s| - 1]) + UpperChar(s[|s| - 1])
  }

  /** Lowering keeps a string of ASCII characters ASCII and of the same length,
      character by character. */
  lemma {:induction false} LowerAscii(s: string)
    requires forall i :: 0 <= i < |s| ==> s[i] < '\U{80}'
    ensures |Lower(s)| == |s|
    ensures forall i :: 0 <= i < |s| ==> Lower(s)[i] == LowerChar(s[i])[0]
  {
    if |s| > 0 {
      LowerAscii(s[..|s| - 1]);
    }
  }

  /** Upper-casing keeps a string of ASCII characters ASCII and of the same
      length, character by character. */
  lemma {:induction false} UpperAscii(s: string)
    requires forall i :: 0 <= i < |s| ==> s[i] < '\U{80}'
    ensures |Upper(s)| == |s|
    ensures forall i :: 0 <= i < |s| ==> Upper(s)[i] == UpperChar(s[i])[0]
  {
    if |s| > 0 {
      UpperAscii(s[..|s| - 1]);
    }
  }

  /** Lowering keeps the separators of a namespaced tag: `':'` and `'}'` are
      left alone and no other character lowers to them. */
  lemma {:induction false} LowerKeepsSeparator(s: string, c: char)
    requires c == ':' || c == '}'
    ensures c in s <==> c in Lower(s)
  {
    if |s| > 0 {
      var init := s[..|s| - 1];
      LowerKeepsSeparator(init, c);
      assert s == init + [s[|s| - 1]];
      assert Lower(s) == Lower(init) + LowerChar(s[|s| - 1]);
    }
  }

  /** A string without small letters or any other character `upper()` changes
      is its own upper case. */
  lemma {:induction false} UpperUnchanged(s: string)
    requires forall i :: 0 <= i < |s| ==> UpperChar(s[i]) == [s[i]]
    ensures Upper(s) == s
  {
    if |s| > 0 {
      UpperUnchanged(s[..|s| - 1]);
      assert s == s[..|s| - 1] + [s[|s| - 1]];
    }
  }

  /** `upper()` works character by character, so it distributes over `+`. */
  lemma {:induction false} UpperConcat(a: string, b: string)
    ensures Upper(a + b) == Upper(a) + Upper(b)
    decreases |b|
  {
    if |b| > 0 {
      var init, last := b[..|b| - 1], b[|b| - 1];
      assert b == init + [last];
      assert a + b == (a + init) + [last];
      UpperSnoc(a + init, last);
      UpperSnoc(init, last);
      UpperConcat(a, init);
      AppendAssoc(Upper(a), Upper(init), UpperChar(last));
    } else {
      assert a + b == a;
    }
  }

  lemma AppendAssoc(x: string, y: string, z: string)
    ensures (x + y) + z == x + (y + z)
  {
  }

  lemma UpperSnoc(s: string, c: char)
    ensures Upper(s + [c]) == Upper(s) + UpperChar(c)
  {
    assert (s + [c])[..|s|] == s;
  }

  // ---------------------------------------------------------------------------
  // Substrings

  /** `w in s` for strings. */
  predicate Contains(s: string, w: string) {
    |w| <= |s| && (s[..|w|] == w || Contains(s[1..], w))
  }

  predicate OccursAt(s: string, w: string, i: int) {
    0 <= i && i + |w| <= |s| && s[i..i + |w|] == w
  }

  /** Contains holds exactly when `w` occurs at some offset of `s`. */
  lemma {:induction false} ContainsAt(s: string, w: string)
    ensures Contains(s, w) <==> exists i :: OccursAt(s, w, i)
  {
    if |w| <= |s| && s[..|w|] != w {
      ContainsAt(s[1..], w);
      if exists i :: OccursAt(s, w, i) {
        var i :| OccursAt(s, w, i);
        assert i > 0;
        assert OccursAt(s[1..], w, i - 1) by {
          assert s[1..][i - 1..i - 1 + |w|] == s[i..i + |w|];
        }
      }
      if Contains(s[1..], w) {
        var j :| OccursAt(s[1..], w, j);
        assert OccursAt(s, w, j + 1) by {
          assert s[1..][j..j + |w|] == s[j + 1..j + 1 + |w|];
        }
      }
    } else if |w| <= |s| {
      assert OccursAt(s, w, 0);
    } else {
      assert forall i :: !OccursAt(s, w, i);
    }
  }

  /** A word that occurs in `s` occurs, upper-cased, in `s.upper()`. */
  lemma ContainsUpper(s: string, w: string)
    requires Contains(s, w)
    ensures Contains(Upper(s), Upper(w))
  {
    ContainsAt(s, w);
    var i :| OccursAt(s, w, i);
    var before, after := s[..i], s[i + |w|..];
    assert s == before + w + after;
    UpperConcat(before, w);
    UpperConcat(before + w, after);
    var u := Upper(s);
    assert u == Upper(before) + Upper(w) + Upper(after);
    assert OccursAt(u, Upper(w), |Upper(before)|);
    ContainsAt(u, Upper(w));
  }

  /** A word does not occur when, at every offset where it would fit, either
      its first character or its character `j` disagrees with `s`. */
  lemma WordAbsent(s: string, w: string, j: nat)
    requires j < |w|
    requires forall i :: 0 <= i && i + |w| <= |s| ==> s[i] != w[0] || s[i + j] != w[j]
    ensures !Contains(s, w)
  {
    assert forall i :: OccursAt(s, w, i) ==> s[i..i + |w|][0] == w[0] && s[i..i + |w|][j] == w[j];
    ContainsAt(s, w);
  }


  /** `s.replace(pat, rep)`: every non-overlapping occurrence, scanned from the left. */
  function ReplaceAll(s: string, pat: string, rep: string): string
    requires |pat| > 0
    decreases |s|
  {
    if |s| < |pat| then s
    else if s[..|pat|] == pat then rep + ReplaceAll(s[|pat|..], pat, rep)
    else [s[0]] + ReplaceAll(s[1..], pat, rep)
  }

  /** A string in which `pat` does not occur is left as it is. */
  lemma {:induction false} ReplaceAbsent(s: string, pat: string, rep: string)
    requires |pat| > 0 && !Contains(s, pat)
    ensures ReplaceAll(s, pat, rep) == s
  {
    if |s| >= |pat| {
      ReplaceAbsent(s[1..], pat, rep);
      assert s == [s[0]] + s[1..];
    }
  }

  /** `k.split(sep)[-1]`: the text after the last `sep`, or all of `k` when there is none. */
  function AfterLast(k: string, sep: char): (r: string)
    ensures |r| <= |k| && r == k[|k| - |r|..]
    ensures sep !in r
    ensures |r| < |k| ==> k[|k| - |r| - 1] == sep
  {
    if |k| == 0 then ""
    else if k[|k| - 1] == sep then ""
    else AfterLast(k[..|k| - 1], sep) + [k[|k| - 1]]
  }

  /** Without `sep`, the whole text is the last piece. */
  lemma AfterLastAbsent(k: string, sep: char)
    requires sep !in k
    ensures AfterLast(k, sep) == k
  {
  }

  /** The last piece of `pre + sep + local` is `local` when `local` has no `sep`. */
  lemma AfterLastOf(pre: string, sep: char, local: string)
    requires sep !in local
    ensures AfterLast(pre + [sep] + local, sep) == local
  {
    var k := pre + [sep] + local;
    assert k[|pre|] == sep && k[|pre| + 1..] == local;
  }

  /** `s[:n]`. */
  function Take(s: string, n: nat): (r: string)
    ensures |r| == if |s| < n then |s| else n
    ensures r == s[..|r|]
  {
    if |s| <= n then s else s[..n]
  }

  // ---------------------------------------------------------------------------
  // int(str) and str(int)

  /** The digit part Python's `int()` accepts in base 10: ASCII digits, with
      single underscores allowed between two digits. */
  predicate IsDigitRun(d: string) {
    |d| > 0 && IsDigit(d[0]) && IsDigit(d[|d| - 1]) && forall i :: 0 <= i < |d| ==> RunCharAt(d, i)
  }

  /** Position `i` of `d` holds a digit, or an underscore between two digits. */
  predicate RunCharAt(d: string, i: int)
    requires 0 <= i < |d|
  {
    IsDigit(d[i]) || (d[i] == '_' && 0 < i < |d| - 1 && IsDigit(d[i - 1]) && IsDigit(d[i + 1]))
  }

  /** The value of the digits of `d`, underscores skipped. */
  function RunValue(d: string): nat {
    if |d| == 0 then 0
    else if IsDigit(d[|d| - 1]) then RunValue(d[..|d| - 1]) * 10 + DigitValue(d[|d| - 1])
    else RunValue(d[..|d| - 1])
  }

  /** `int(s)` for a `str` argument: None where Python raises ValueError. */
  function ParseInt(s: string): Option<int> {
    var t := StripBy(s, IntBlanks);
    if |t| > 0 && (t[0] == '+' || t[0] == '-') then
      if IsDigitRun(t[1..]) then
        var v: int := RunValue(t[1..]);
        Some(if t[0] == '-' then -v else v)
      else None
    else if IsDigitRun(t) then Some(RunValue(t))
    else None
  }

  /** Decimal digits of `n`, without leading zeros. */
  function NatToString(n: nat): (r: string)
    ensures |r| > 0 && forall i :: 0 <= i < |r| ==> IsDigit(r[i])
    decreases n
  {
    if n < 10 then [DigitChar(n)] else NatToString(n / 10) + [DigitChar(n % 10)]
  }

  /** `str(n)` (and `f"{n}"`) for an integer. */
  function IntToString(n: int): string {
    if n < 0 then "-" + NatToString(-n) else NatToString(n)
  }

  lemma {:induction false} NatToStringValue(n: nat)
    ensures RunValue(NatToString(n)) == n
    decreases n
  {
    if n >= 10 {
      NatToStringValue(n / 10);
      var r := NatToString(n);
      assert r[..|r| - 1] == NatToString(n / 10);
    }
  }

  lemma DigitsAreRun(d: string)
    requires |d| > 0 && forall i :: 0 <= i < |d| ==> IsDigit(d[i])
    ensures IsDigitRun(d)
  {
  }

  /** A character that is neither a digit nor an underscore spoils a digit run. */
  lemma NotRun(d: string, i: int)
    requires 0 <= i < |d| && !IsDigit(d[i]) && d[i] != '_'
    ensures !IsDigitRun(d)
  {
    assert !RunCharAt(d, i);
  }

  /** `int()` of a run of ASCII digits. */
  lemma ParseIntOfDigits(d: string)
    requires |d| > 0 && forall i :: 0 <= i < |d| ==> IsDigit(d[i])
    ensures ParseInt(d) == Some(RunValue(d))
  {
    DigitsAreRun(d);
    assert !IsBlank(IntBlanks, d[0]) && !IsBlank(IntBlanks, d[|d| - 1]);
    StripUnchanged(d, IntBlanks);
    assert d[0] != '+' && d[0] != '-';
  }

  /** `int()` of a minus sign followed by a run of ASCII digits. */
  lemma ParseIntOfNegativeDigits(d: string)
    requires |d| > 0 && forall i :: 0 <= i < |d| ==> IsDigit(d[i])
    ensures ParseInt("-" + d) == Some(0 - RunValue(d))
  {
    var s := "-" + d;
    assert s[|s| - 1] == d[|d| - 1];
    StripUnchanged(s, IntBlanks);
    assert s[1..] == d;
    DigitsAreRun(d);
    ParseIntSigned(s);
  }

  lemma ParseIntSigned(s: string)
    requires StripBy(s, IntBlanks) == s && |s| > 0 && s[0] == '-' && IsDigitRun(s[1..])
    ensures ParseInt(s) == Some(0 - RunValue(s[1..]))
  {
  }

  /** Python reads back what it prints: `int(str(n)) == n`. */
  lemma ParseIntOfIntToString(n: int)
    ensures ParseInt(IntToString(n)) == Some(n)
  {
    var m: nat := if n < 0 then -n else n;
    NatToStringValue(m);
    if n < 0 {
      ParseIntOfNegativeDigits(NatToString(m));
    } else {
      ParseIntOfDigits(NatToString(m));
    }
  }

  /** Text holding a blank, a dash and a blank (the voided-range key
      `"{ini} - {fin}"`) never parses as an integer. */
  lemma SpacedDashIsNotInt(x: string, y: string)
    ensures ParseInt(x + " - " + y) == None
  {
    var s := x + " - " + y;
    var k := |x| + 1;
    assert s[k] == '-' && s[k + 1] == ' ';
    var j := StripKeeps(s, IntBlanks, k);
    DashSpoilsRun(StripBy(s, IntBlanks), j);
  }

  /** A character that is not a blank survives trimming, shifted left by
      the number of leading blanks; so does the character after it, if the
      trimmed text reaches it. */
  lemma StripKeeps(s: string, b: Blanks, k: nat) returns (j: nat)
    requires k + 1 < |s| && !IsBlank(b, s[k])
    ensures var t := StripBy(s, b);
      && j < |t| && t[j] == s[k]
      && (j + 1 < |t| ==> t[j + 1] == s[k + 1])
  {
    var lead := DropLeading(s, b);
    var a := |s| - |lead|;
    assert lead == s[a..];
    assert a <= k;
    j := k - a;
    assert lead[j] == s[k];
    var t := DropTrailing(lead, b);
    assert t == lead[..|t|];
    assert j < |t|;
    assert t[j] == lead[j];
    if j + 1 < |t| {
      assert t[j + 1] == lead[j + 1] == s[k + 1];
    }
  }

  /** A dash not followed by a digit spoils the text as an integer, signed
      or not. */
  lemma DashSpoilsRun(t: string, j: nat)
    requires j < |t| && t[j] == '-' && (j + 1 < |t| ==> t[j + 1] == ' ')
    ensures !IsDigitRun(t)
    ensures |t| > 0 && (t[0] == '+' || t[0] == '-') ==> !IsDigitRun(t[1..])
  {
    if j == 0 {
      if |t| > 1 { NotRun(t[1..], 0); }
      NotRun(t, 0);
    } else {
      NotRun(t, j);
      if t[0] == '+' || t[0] == '-' { NotRun(t[1..], j - 1); }
    }
  }

  /** Text that starts with something other than a blank, a sign or a digit
      (the sentinels of the classifier) never parses as an integer. */
  lemma NonNumericText(s: string)
    requires |s| > 0 && !IsIntSpace(s[0]) && s[0] != '+' && s[0] != '-' && !IsDigit(s[0]) && s[0] != '_'
    ensures ParseInt(s) == None
  {
    assert !IsBlank(IntBlanks, s[0]);
    assert DropLeading(s, IntBlanks) == s;
    var t := DropTrailing(s, IntBlanks);
    assert t == StripBy(s, IntBlanks);
    assert |t| > 0;
    assert t[0] == s[0];
    NotRun(t, 0);
  }
}
