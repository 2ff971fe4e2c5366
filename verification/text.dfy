/** String primitives of the host language the assistant relies on: whitespace
    as its regular expressions and `trim` see it, prefix and substring tests,
    global character removal, and the decimal rendering of a millisecond clock
    reading used in session identifiers. Strings are sequences of characters;
    lengths are counted in characters. */
module Text {

  /** The characters `trim()` strips and `\s` matches: the WhiteSpace and
      LineTerminator code points of ECMAScript (TAB, VT, FF, SP, NBSP, ZWNBSP,
      the Zs space separators, LF, CR, LS, PS). */
  predicate IsSpace(c: char) {
    c == '\t' || c == '\n' || c == '\U{000B}' || c == '\U{000C}' || c == '\r'
    || c == ' ' || c == '\U{00A0}' || c == '\U{1680}'
    || ('\U{2000}' <= c <= '\U{200A}')
    || c == '\U{2028}' || c == '\U{2029}' || c == '\U{202F}' || c == '\U{205F}'
    || c == '\U{3000}' || c == '\U{FEFF}'
  }

  /** The characters at which `^` and `$` match in multi-line mode. */
  predicate IsLineTerminator(c: char) {
    c == '\n' || c == '\r' || c == '\U{2028}' || c == '\U{2029}'
  }

  predicate StartsWith(s: string, p: string) {
    |p| <= |s| && s[..|p|] == p
  }

  /** `p` occurs in `s` starting at position `i`. */
  predicate OccursAt(s: string, p: string, i: int) {
    0 <= i <= |s| - |p| && s[i..i + |p|] == p
  }

  /** The characters `p[j..]` appear in `s` from position `i + j` on. */
  predicate MatchesFrom(s: string, p: string, i: int, j: int)
    decreases |p| - j
  {
    j >= |p| || (0 <= j && 0 <= i + j < |s| && s[i + j] == p[j] && MatchesFrom(s, p, i, j + 1))
  }

  /** Some start position at or after `i` holds an occurrence of `p`:
      the scan `includes` performs. */
  predicate ContainsFrom(s: string, p: string, i: int)
    decreases |s| - i
  {
    0 <= i && i + |p| <= |s| && (MatchesFrom(s, p, i, 0) || ContainsFrom(s, p, i + 1))
  }

  /** `s.includes(p)`. */
  predicate Contains(s: string, p: string) {
    ContainsFrom(s, p, 0)
  }

  lemma {:induction false} MatchesFromIff(s: string, p: string, i: int, j: int)
    requires 0 <= i && i + |p| <= |s| && 0 <= j <= |p|
    ensures MatchesFrom(s, p, i, j) <==> s[i + j..i + |p|] == p[j..]
    decreases |p| - j
  {
    if j < |p| {
      MatchesFromIff(s, p, i, j + 1);
      assert s[i + j..i + |p|] == [s[i + j]] + s[i + j + 1..i + |p|];
      assert p[j..] == [p[j]] + p[j + 1..];
    }
  }

  lemma {:induction false} ContainsFromIff(s: string, p: string, i: int)
    requires 0 <= i
    ensures ContainsFrom(s, p, i) <==> exists k :: i <= k && OccursAt(s, p, k)
    decreases |s| - i
  {
    if i + |p| <= |s| {
      MatchesFromIff(s, p, i, 0);
      assert p[0..] == p;
      ContainsFromIff(s, p, i + 1);
      if MatchesFrom(s, p, i, 0) {
        assert OccursAt(s, p, i);
      }
      if k :| i <= k && OccursAt(s, p, k) {
        if k > i {
          assert i + 1 <= k && OccursAt(s, p, k);
        }
      }
    }
  }

  /** The scan agrees with the positional definition of a substring. */
  lemma ContainsIff(s: string, p: string)
    ensures Contains(s, p) <==> exists i :: OccursAt(s, p, i)
  {
    ContainsFromIff(s, p, 0);
  }

  /** A pattern holding a character the subject lacks never occurs in it. */
  lemma MissingChar(s: string, p: string, c: char)
    requires c in p && c !in s
    ensures !Contains(s, p)
  {
    ContainsIff(s, p);
  }

  /** Occurrences survive extending the subject on either side. */
  lemma {:induction false} ContainsInfix(a: string, s: string, b: string, p: string)
    requires Contains(s, p)
    ensures Contains(a + s + b, p)
  {
    ContainsIff(s, p);
    var i :| OccursAt(s, p, i);
    assert (a + s + b)[|a| + i..|a| + i + |p|] == s[i..i + |p|];
    assert OccursAt(a + s + b, p, |a| + i);
    ContainsIff(a + s + b, p);
  }

  /** An occurrence of an occurrence is an occurrence. */
  lemma ContainsTransitive(s: string, q: string, p: string)
    requires Contains(s, q) && Contains(q, p)
    ensures Contains(s, p)
  {
    ContainsIff(s, q);
    ContainsIff(q, p);
    var i :| OccursAt(s, q, i);
    var j :| OccursAt(q, p, j);
    var w := s[i..i + |q|];
    assert w == q;
    var a, b := s[i + j..i + j + |p|], w[j..j + |p|];
    assert forall k :: 0 <= k < |p| ==> a[k] == b[k];
    assert a == b;
    assert OccursAt(s, p, i + j);
    ContainsIff(s, p);
  }

  /** A prefix is an occurrence. */
  lemma StartsWithContains(s: string, p: string)
    requires StartsWith(s, p)
    ensures Contains(s, p)
  {
    assert OccursAt(s, p, 0);
    ContainsIff(s, p);
  }

  predicate Trimmed(s: string) {
    s == [] || (!IsSpace(s[0]) && !IsSpace(s[|s| - 1]))
  }

  /** Drops leading whitespace: the result is the suffix of `s` that starts
      at its first non-space character. */
  function TrimStart(s: string): (r: string)
    ensures |r| <= |s| && r == s[|s| - |r|..]
    ensures forall k :: 0 <= k < |s| - |r| ==> IsSpace(s[k])
    ensures r == [] || !IsSpace(r[0])
    decreases |s|
  {
    if |s| > 0 && IsSpace(s[0]) then TrimStart(s[1..]) else s
  }

  /** Drops trailing whitespace: the result is the prefix of `s` that ends
      at its last non-space character. */
  function TrimEnd(s: string): (r: string)
    ensures |r| <= |s| && r == s[..|r|]
    ensures forall k :: |r| <= k < |s| ==> IsSpace(s[k])
    ensures r == [] || !IsSpace(r[|r| - 1])
    decreases |s|
  {
    if |s| > 0 && IsSpace(s[|s| - 1]) then TrimEnd(s[..|s| - 1]) else s
  }

  /** `trim()`: the longest infix of `s` with no whitespace at either end,
      found by removing whitespace only. */
  function Trim(s: string): (r: string)
    ensures Trimmed(r)
    ensures OccursAt(s, r, |s| - |TrimStart(s)|)
    ensures forall k :: 0 <= k < |s| - |TrimStart(s)| ==> IsSpace(s[k])
    ensures forall k :: |s| - |TrimStart(s)| + |r| <= k < |s| ==> IsSpace(s[k])
    ensures r == [] ==> forall k :: 0 <= k < |s| ==> IsSpace(s[k])
  {
    var t := TrimStart(s);
    TrimEndTrimmed(t);
    TrimEndOccurs(s, t);
    TrimEndRest(s, t);
    var r := TrimEnd(t);
    if r == [] then BlankBoth(s, t); r else r
  }

  /** What trailing blanks are cut from a suffix are blanks of the text. */
  lemma TrimEndRest(s: string, t: string)
    requires |t| <= |s| && t == s[|s| - |t|..]
    ensures forall k :: |s| - |t| + |TrimEnd(t)| <= k < |s| ==> IsSpace(s[k])
  {
    var i := |s| - |t|;
    assert forall k :: i <= k < |s| ==> s[k] == t[k - i];
  }

  /** Trailing blanks cut from text that does not start with one leave it
      trimmed. */
  lemma TrimEndTrimmed(t: string)
    requires t == [] || !IsSpace(t[0])
    ensures Trimmed(TrimEnd(t))
  {
    var r := TrimEnd(t);
    if r != [] {
      assert r[0] == t[0];
    }
  }

  /** What trailing blanks leave of a suffix sits where the suffix starts. */
  lemma TrimEndOccurs(s: string, t: string)
    requires |t| <= |s| && t == s[|s| - |t|..]
    ensures OccursAt(s, TrimEnd(t), |s| - |t|)
  {
    var r := TrimEnd(t);
    PrefixOfSuffix(s, |s| - |t|, r);
  }

  /** A prefix of the suffix from `i` occurs at `i`. */
  lemma PrefixOfSuffix(s: string, i: nat, r: string)
    requires i <= |s| && |r| <= |s| - i && r == s[i..][..|r|]
    ensures OccursAt(s, r, i)
  {
  }

  /** `r` stands in `s` at `i`, with only whitespace between `n` and it and
      only whitespace after it. */
  predicate Padded(s: string, r: string, n: nat, i: int) {
    && n <= i
    && OccursAt(s, r, i)
    && (forall k :: n <= k < i ==> IsSpace(s[k]))
    && (forall k :: i + |r| <= k < |s| ==> IsSpace(s[k]))
  }

  /** `r` is what is left of `s[n..]` once whitespace is taken off both ends. */
  predicate PaddedAfter(s: string, r: string, n: nat) {
    exists i :: n <= i <= |s| && Padded(s, r, n, i)
  }

  /** Trimming the text after position `n` leaves a piece of `s` with only
      whitespace around it. */
  lemma TrimWithin(s: string, n: nat)
    requires n <= |s|
    ensures PaddedAfter(s, Trim(s[n..]), n)
  {
    var t := s[n..];
    var j := |t| - |TrimStart(t)|;
    PaddedShift(s, t, Trim(t), n, j);
  }

  /** A piece padded with whitespace inside `s[n..]` is padded the same way
      inside `s`, shifted by `n`. */
  lemma PaddedShift(s: string, t: string, r: string, n: nat, j: nat)
    requires n <= |s| && t == s[n..]
    requires OccursAt(t, r, j)
    requires forall k :: 0 <= k < j ==> IsSpace(t[k])
    requires forall k :: j + |r| <= k < |t| ==> IsSpace(t[k])
    ensures PaddedAfter(s, r, n)
  {
    assert s[n + j..n + j + |r|] == t[j..j + |r|];
    assert forall k :: n <= k < n + j ==> s[k] == t[k - n];
    assert forall k :: n + j + |r| <= k < |s| ==> s[k] == t[k - n];
    assert Padded(s, r, n, n + j);
  }

  /** Trimming keeps a last character that is not a blank. */
  lemma TrimKeepsLast(s: string)
    requires s != [] && !IsSpace(s[|s| - 1])
    ensures Trim(s) != [] && Trim(s)[|Trim(s)| - 1] == s[|s| - 1]
  {
    var r := Trim(s);
    var i := |s| - |TrimStart(s)|;
    assert r != [];
    assert i + |r| == |s|;
    assert r[|r| - 1] == s[i + |r| - 1];
  }

  /** Blanks before a suffix and blanks in it make blanks throughout. */
  lemma BlankBoth(s: string, t: string)
    requires |t| <= |s| && t == s[|s| - |t|..]
    requires forall k :: 0 <= k < |s| - |t| ==> IsSpace(s[k])
    requires forall k :: 0 <= k < |t| ==> IsSpace(t[k])
    ensures forall k :: 0 <= k < |s| ==> IsSpace(s[k])
  {
    var i := |s| - |t|;
    assert forall k :: i <= k < |s| ==> s[k] == t[k - i];
  }

  /** Text made of whitespace only trims to nothing. */
  lemma TrimBlank(s: string)
    requires forall k :: 0 <= k < |s| ==> IsSpace(s[k])
    ensures Trim(s) == []
  {
  }

  /** Trimming is the identity on trimmed text. */
  lemma TrimTrimmed(s: string)
    requires Trimmed(s)
    ensures Trim(s) == s
  {
  }

  /** Trimming drops a leading blank in front of trimmed text. */
  lemma TrimSpaceHead(c: char, r: string)
    requires IsSpace(c) && Trimmed(r)
    ensures Trim([c] + r) == r
  {
    assert ([c] + r)[1..] == r;
    assert TrimStart([c] + r) == TrimStart(r);
    TrimTrimmed(r);
  }

  /** Every character of `s` that `keep` accepts, in order: a global regular
      expression replacement of a character class by the empty string. */
  function Filter(s: string, keep: char -> bool): (r: string)
    ensures |r| <= |s|
    ensures forall k :: 0 <= k < |r| ==> keep(r[k])
    ensures (forall k :: 0 <= k < |s| ==> keep(s[k])) ==> r == s
    ensures (forall k :: 0 <= k < |s| ==> !keep(s[k])) ==> r == []
  {
    if s == [] then []
    else if keep(s[0]) then [s[0]] + Filter(s[1..], keep)
    else Filter(s[1..], keep)
  }

  /** Filtering distributes over concatenation. */
  lemma {:induction false} FilterConcat(a: string, b: string, keep: char -> bool)
    ensures Filter(a + b, keep) == Filter(a, keep) + Filter(b, keep)
    decreases |a|
  {
    if a == [] {
      assert a + b == b;
    } else {
      assert (a + b)[0] == a[0] && (a + b)[1..] == a[1..] + b;
      FilterConcat(a[1..], b, keep);
    }
  }

  /** The number of line feeds in `s`. */
  function LineFeeds(s: string): (n: nat)
    ensures n <= |s|
  {
    if s == [] then 0 else (if s[0] == '\n' then 1 else 0) + LineFeeds(s[1..])
  }

  /** Line feeds add up over a concatenation. */
  lemma {:induction false} LineFeedsConcat(a: string, b: string)
    ensures LineFeeds(a + b) == LineFeeds(a) + LineFeeds(b)
    decreases |a|
  {
    if a == [] {
      assert a + b == b;
    } else {
      assert (a + b)[0] == a[0] && (a + b)[1..] == a[1..] + b;
      LineFeedsConcat(a[1..], b);
    }
  }

  /** Text without a line feed counts none. */
  lemma {:induction false} LineFeedsNone(s: string)
    requires forall k :: 0 <= k < |s| ==> s[k] != '\n'
    ensures LineFeeds(s) == 0
    decreases |s|
  {
    if s != [] {
      LineFeedsNone(s[1..]);
    }
  }

  /** The decimal digits of `n`, most significant first, without leading
      zeros: the template interpolation of a number. */
  function Decimal(n: nat): (r: string)
    ensures r != []
    ensures forall k :: 0 <= k < |r| ==> '0' <= r[k] <= '9'
    decreases n
  {
    if n < 10 then [Digit(n)] else Decimal(n / 10) + [Digit(n % 10)]
  }

  function Digit(d: nat): (c: char)
    requires d < 10
    ensures '0' <= c <= '9' && c as int - '0' as int == d
  {
    (d + '0' as int) as char
  }

  /** Reads a string of decimal digits back as a number. */
  function ParseDecimal(s: string): nat
    requires forall k :: 0 <= k < |s| ==> '0' <= s[k] <= '9'
  {
    if s == [] then 0
    else 10 * ParseDecimal(s[..|s| - 1]) + (s[|s| - 1] as int - '0' as int)
  }

  /** Reading the rendering recovers the number. */
  lemma {:induction false} DecimalRoundTrip(n: nat)
    ensures ParseDecimal(Decimal(n)) == n
    decreases n
  {
    if n >= 10 {
      DecimalRoundTrip(n / 10);
      var d := Decimal(n / 10) + [Digit(n % 10)];
      assert d[..|d| - 1] == Decimal(n / 10);
    }
  }

  /** Distinct numbers render as distinct strings. */
  lemma DecimalInjective(a: nat, b: nat)
    ensures Decimal(a) == Decimal(b) <==> a == b
  {
    if Decimal(a) == Decimal(b) {
      DecimalRoundTrip(a);
      DecimalRoundTrip(b);
    }
  }
}
