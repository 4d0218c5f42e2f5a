/** The JavaScript `String.prototype` operations the service applies to file
    names, MIME types, extracted text and model output, on `seq<char>`.
    A JavaScript string is a sequence of UTF-16 code units; here it is a
    sequence of Unicode scalar values, which agrees for every character of the
    Basic Multilingual Plane (all of the service's own text). */
module JsStrings {

  // ---------------------------------------------------------------------------
  // toLowerCase

  /** Lower-casing of one character. Only ASCII `A`-`Z` are mapped; the full
      Unicode case mapping of `toLowerCase` is not modelled. */
  function LowerChar(c: char): char {
    if 'A' <= c <= 'Z' then (c as int - 'A' as int + 'a' as int) as char else c
  }

  /** `s.toLowerCase()` */
  function ToLower(s: string): (r: string)
    ensures |r| == |s|
    ensures forall i :: 0 <= i < |s| ==> r[i] == LowerChar(s[i])
  {
    seq(|s|, i requires 0 <= i < |s| => LowerChar(s[i]))
  }

  /** No character of `s` is an ASCII capital. */
  predicate HasNoCapitals(s: string) {
    forall i :: 0 <= i < |s| ==> !('A' <= s[i] <= 'Z')
  }

  /** Lower-casing changes a string exactly when it holds an ASCII capital. */
  lemma LowerChangesOnlyCapitals(s: string)
    ensures ToLower(s) == s <==> HasNoCapitals(s)
  {
    if ToLower(s) == s {
      forall i | 0 <= i < |s| ensures !('A' <= s[i] <= 'Z') {
        assert ToLower(s)[i] == s[i];
      }
    }
  }

  lemma NoCapitalsJoin(a: string, b: string)
    requires HasNoCapitals(a) && HasNoCapitals(b)
    ensures HasNoCapitals(a + b)
  {
    assert forall i :: |a| <= i < |a + b| ==> (a + b)[i] == b[i - |a|];
  }

  // ---------------------------------------------------------------------------
  // includes / startsWith / endsWith

  /** `t` occurs in `s` starting at index `i`. */
  predicate OccursAt(s: string, t: string, i: int) {
    0 <= i && i + |t| <= |s| && s[i..i + |t|] == t
  }

  /** `s.includes(t)` */
  predicate Contains(s: string, t: string) {
    exists i | 0 <= i <= |s| - |t| :: OccursAt(s, t, i)
  }

  /** `s.startsWith(p)` */
  predicate StartsWith(s: string, p: string) {
    |p| <= |s| && s[..|p|] == p
  }

  /** `s.endsWith(q)` */
  predicate EndsWith(s: string, q: string) {
    |q| <= |s| && s[|s| - |q|..] == q
  }

  /** Inclusion is transitive: an occurrence of `u` inside an occurrence of
      `t` is an occurrence of `u` in `s`. */
  lemma ContainsTransitive(s: string, t: string, u: string)
    requires Contains(s, t) && Contains(t, u)
    ensures Contains(s, u)
  {
    var i :| 0 <= i <= |s| - |t| && OccursAt(s, t, i);
    var j :| 0 <= j <= |t| - |u| && OccursAt(t, u, j);
    assert forall k :: 0 <= k < |u| ==> s[i + j + k] == t[j + k] == u[k];
    assert OccursAt(s, u, i + j);
  }

  /** Lower-casing keeps suffixes: if `s` ends with `q`, the lower-cased `s`
      ends with the lower-cased `q`. */
  lemma ToLowerKeepsSuffix(s: string, q: string)
    requires EndsWith(s, q)
    ensures EndsWith(ToLower(s), ToLower(q))
  {
    var k := |s| - |q|;
    var ls, lq := ToLower(s), ToLower(q);
    forall i | 0 <= i < |q| ensures ls[k..][i] == lq[i] {
      assert s[k..][i] == s[k + i];
    }
    assert ls[k..] == lq;
  }

  // ---------------------------------------------------------------------------
  // trim

  /** The characters `String.prototype.trim` removes: ECMAScript's WhiteSpace
      (tab, vertical tab, form feed, space, no-break space, byte order mark and
      the Unicode space separators) and LineTerminator (line feed, carriage
      return, line and paragraph separators). */
  predicate IsWhitespace(c: char) {
    || c == '\t' || c == '\n' || c == '\U{B}' || c == '\U{C}' || c == '\r'
    || c == ' ' || c == '\U{A0}' || c == '\U{1680}'
    || ('\U{2000}' <= c <= '\U{200A}')
    || c == '\U{2028}' || c == '\U{2029}' || c == '\U{202F}' || c == '\U{205F}'
    || c == '\U{3000}' || c == '\U{FEFF}'
  }

  predicate AllWhitespace(s: string) {
    forall i :: 0 <= i < |s| ==> IsWhitespace(s[i])
  }

  /** Neither end of `s` is whitespace. */
  predicate IsTrimmed(s: string) {
    |s| == 0 || (!IsWhitespace(s[0]) && !IsWhitespace(s[|s| - 1]))
  }

  /** The index of the first non-whitespace character of `s` at or after
      `i`, or `|s|` when there is none. */
  function SkipWhitespace(s: string, i: nat): (j: nat)
    requires i <= |s|
    ensures i <= j <= |s|
    ensures forall k :: i <= k < j ==> IsWhitespace(s[k])
    ensures j == |s| || !IsWhitespace(s[j])
    decreases |s| - i
  {
    if i < |s| && IsWhitespace(s[i]) then SkipWhitespace(s, i + 1) else i
  }

  /** The index just after the last non-whitespace character of `s` before
      `j`, or 0 when there is none. */
  function SkipWhitespaceBack(s: string, j: nat): (i: nat)
    requires j <= |s|
    ensures i <= j
    ensures forall k :: i <= k < j ==> IsWhitespace(s[k])
    ensures i == 0 || !IsWhitespace(s[i - 1])
    decreases j
  {
    if j > 0 && IsWhitespace(s[j - 1]) then SkipWhitespaceBack(s, j - 1) else j
  }

  /** The forward skip is determined by its contract: the first index from
      `i` on that is not whitespace. */
  lemma SkipWhitespaceIs(s: string, i: nat, j: nat)
    requires i <= j <= |s|
    requires forall k :: i <= k < j ==> IsWhitespace(s[k])
    requires j == |s| || !IsWhitespace(s[j])
    ensures SkipWhitespace(s, i) == j
  {
  }

  /** The backward skip is determined by its contract. */
  lemma SkipWhitespaceBackIs(s: string, j: nat, i: nat)
    requires i <= j <= |s|
    requires forall k :: i <= k < j ==> IsWhitespace(s[k])
    requires i == 0 || !IsWhitespace(s[i - 1])
    ensures SkipWhitespaceBack(s, j) == i
  {
  }

  /** `s.trimStart()`: the longest suffix of `s` that does not start with
      whitespace; everything dropped is whitespace. */
  function TrimStart(s: string): (r: string)
    ensures |r| <= |s| && r == s[|s| - |r|..]
    ensures AllWhitespace(s[..|s| - |r|])
    ensures |r| == 0 || !IsWhitespace(r[0])
  {
    var n := SkipWhitespace(s, 0);
    assert forall i :: 0 <= i < n ==> s[..n][i] == s[i];
    s[n..]
  }

  /** `s.trimEnd()`: the longest prefix of `s` that does not end with
      whitespace; everything dropped is whitespace. */
  function TrimEnd(s: string): (r: string)
    ensures |r| <= |s| && r == s[..|r|]
    ensures AllWhitespace(s[|r|..])
    ensures |r| == 0 || !IsWhitespace(r[|r| - 1])
  {
    var n := SkipWhitespaceBack(s, |s|);
    assert forall i :: 0 <= i < |s| - n ==> s[n..][i] == s[n + i];
    s[..n]
  }

  lemma WhitespaceSplit(s: string, k: nat)
    requires k <= |s|
    requires AllWhitespace(s[..k]) && AllWhitespace(s[k..])
    ensures AllWhitespace(s)
  {
    forall i | 0 <= i < |s| ensures IsWhitespace(s[i]) {
      if i < k { assert s[i] == s[..k][i]; } else { assert s[i] == s[k..][i - k]; }
    }
  }

  lemma AllWhitespaceJoin(a: string, b: string)
    requires AllWhitespace(a) && AllWhitespace(b)
    ensures AllWhitespace(a + b)
  {
    assert forall i :: |a| <= i < |a + b| ==> (a + b)[i] == b[i - |a|];
  }

  lemma NotAllWhitespaceJoin(a: string, b: string)
    requires !AllWhitespace(a)
    ensures !AllWhitespace(a + b)
  {
    var i :| 0 <= i < |a| && !IsWhitespace(a[i]);
    assert (a + b)[i] == a[i];
  }

  /** A string that does not end with whitespace is its own `trimEnd`. */
  lemma TrimEndOfTrimmedEnd(s: string)
    requires |s| == 0 || !IsWhitespace(s[|s| - 1])
    ensures TrimEnd(s) == s
  {
  }

  /** A string starts with each of its prefixes. */
  lemma StartsWithJoin(a: string, b: string)
    ensures StartsWith(a + b, a)
  {
    assert (a + b)[..|a|] == a;
  }

  /** `s.trim()`: the middle of `s` between a whitespace prefix and a
      whitespace suffix, with neither of its own ends whitespace. */
  function Trim(s: string): (r: string)
    ensures IsTrimmed(r)
    ensures var k := SkipWhitespace(s, 0);
              k + |r| <= |s| && r == s[k..k + |r|]
              && AllWhitespace(s[..k]) && AllWhitespace(s[k + |r|..])
    ensures |r| == 0 <==> AllWhitespace(s)
  {
    TrimShape(s);
    TrimEnd(TrimStart(s))
  }

  lemma TrimShape(s: string)
    ensures var r := TrimEnd(TrimStart(s));
            var k := SkipWhitespace(s, 0);
            && IsTrimmed(r)
            && k + |r| <= |s| && r == s[k..k + |r|]
            && AllWhitespace(s[..k]) && AllWhitespace(s[k + |r|..])
            && (|r| == 0 <==> AllWhitespace(s))
  {
    var t := TrimStart(s);
    assert t == s[SkipWhitespace(s, 0)..];
    MiddleOfSuffix(s, SkipWhitespace(s, 0), t, TrimEnd(t));
  }

  /** The slice arithmetic behind `TrimShape`, free of the trimming
      functions: a prefix `r` of the suffix `t == s[k..]`. */
  lemma MiddleOfSuffix(s: string, k: nat, t: string, r: string)
    requires k <= |s| && t == s[k..]
    requires AllWhitespace(s[..k]) && (|t| == 0 || !IsWhitespace(t[0]))
    requires |r| <= |t| && r == t[..|r|] && AllWhitespace(t[|r|..])
    requires |r| == 0 || !IsWhitespace(r[|r| - 1])
    ensures && IsTrimmed(r)
            && k + |r| <= |s| && r == s[k..k + |r|]
            && AllWhitespace(s[k + |r|..])
            && (|r| == 0 <==> AllWhitespace(s))
  {
    assert s[k + |r|..] == t[|r|..];
    if |r| == 0 {
      WhitespaceSplit(s, k);
    } else {
      assert r[0] == t[0] == s[k];
    }
  }

  /** `trim` is `trimStart` followed by `trimEnd`. */
  lemma TrimIsBothEnds(s: string)
    ensures Trim(s) == TrimEnd(TrimStart(s))
  {
  }

  /** A whitespace prefix makes no difference to `trimStart`. */
  lemma TrimStartSkipsWhitespace(w: string, s: string)
    requires AllWhitespace(w)
    ensures TrimStart(w + s) == TrimStart(s)
  {
    var n := SkipWhitespace(s, 0);
    var ws := w + s;
    forall k | 0 <= k < |w| + n ensures IsWhitespace(ws[k]) {
      if k < |w| { assert ws[k] == w[k]; } else { assert ws[k] == s[k - |w|]; }
    }
    if n < |s| {
      assert ws[|w| + n] == s[n];
    }
    SkipWhitespaceIs(ws, 0, |w| + n);
    assert ws[|w| + n..] == s[n..];
  }

  /** A whitespace suffix makes no difference to `trimEnd`. */
  lemma TrimEndSkipsWhitespace(s: string, w: string)
    requires AllWhitespace(w)
    ensures TrimEnd(s + w) == TrimEnd(s)
  {
    var n := SkipWhitespaceBack(s, |s|);
    var sw := s + w;
    forall k | n <= k < |sw| ensures IsWhitespace(sw[k]) {
      if k < |s| { assert sw[k] == s[k]; } else { assert sw[k] == w[k - |s|]; }
    }
    if n > 0 {
      assert sw[n - 1] == s[n - 1];
    }
    SkipWhitespaceBackIs(sw, |sw|, n);
    assert sw[..n] == s[..n];
  }

  /** `trimEnd` only looks at the tail: once the tail `b` holds a
      non-whitespace character, the head `a` is kept as it is. */
  lemma TrimEndKeepsHead(a: string, b: string)
    requires !AllWhitespace(b)
    ensures TrimEnd(a + b) == a + TrimEnd(b)
  {
    var n := SkipWhitespaceBack(b, |b|);
    var ab := a + b;
    assert n > 0;
    forall k | |a| + n <= k < |ab| ensures IsWhitespace(ab[k]) {
      assert ab[k] == b[k - |a|];
    }
    assert ab[|a| + n - 1] == b[n - 1];
    SkipWhitespaceBackIs(ab, |ab|, |a| + n);
    assert ab[..|a| + n] == a + b[..n];
  }

  /** A string with neither end whitespace is its own trim. */
  lemma TrimOfTrimmed(s: string)
    requires IsTrimmed(s)
    ensures Trim(s) == s
  {
  }

  /** Trimming is idempotent. */
  lemma TrimIdempotent(s: string)
    ensures Trim(Trim(s)) == Trim(s)
  {
    TrimOfTrimmed(Trim(s));
  }

  // ---------------------------------------------------------------------------
  // slice / substring

  /** `s.slice(0, n)` and `s.substring(0, n)` for `n >= 0`: the first `n`
      characters, or all of `s` when it is shorter. */
  function Prefix(s: string, n: nat): (r: string)
    ensures r <= s
    ensures |r| == if |s| < n then |s| else n
  {
    if |s| <= n then s else s[..n]
  }

  // ---------------------------------------------------------------------------
  // Number-to-string in template literals

  function DigitChar(d: nat): (c: char)
    requires d < 10
    ensures '0' <= c <= '9'
  {
    ('0' as int + d) as char
  }

  predicate IsDigits(s: string) {
    forall i :: 0 <= i < |s| ==> '0' <= s[i] <= '9'
  }

  /** `${n}` for a non-negative integer `n`: its decimal digits, without
      leading zeros. */
  function Decimal(n: nat): (r: string)
    ensures |r| > 0 && IsDigits(r)
    ensures r[0] == '0' ==> n == 0
    decreases n
  {
    if n < 10 then [DigitChar(n)] else Decimal(n / 10) + [DigitChar(n % 10)]
  }

  /** The number a string of decimal digits denotes. */
  function DecimalValue(s: string): nat
    requires IsDigits(s)
  {
    if |s| == 0 then 0
    else DecimalValue(s[..|s| - 1]) * 10 + (s[|s| - 1] as int - '0' as int)
  }

  /** Reading back the digits of `${n}` gives `n`. */
  lemma {:induction false} DecimalRoundTrip(n: nat)
    ensures DecimalValue(Decimal(n)) == n
    decreases n
  {
    if n >= 10 {
      var d := Decimal(n);
      assert d[..|d| - 1] == Decimal(n / 10);
      DecimalRoundTrip(n / 10);
    }
  }
}
