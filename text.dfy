/** String operations that the backend services (Python `str`) and the
    frontend widgets (JavaScript `String`) rely on.

    Characters are treated as ASCII: only 'A'..'Z' have a lower-case form, and
    whitespace is the six ASCII whitespace characters. */
module Text {
  import opened Filtering

  // ---------------------------------------------------------------------
  // Case
  // ---------------------------------------------------------------------

  predicate IsUpper(c: char) {
    'A' <= c <= 'Z'
  }

  /** Python's `str.lower` on one character. */
  function LowerChar(c: char): (r: char)
    ensures !IsUpper(r)
    ensures !IsUpper(c) ==> r == c
    ensures IsUpper(c) ==> r as int == c as int + 32
  {
    if IsUpper(c) then (c as int + 32) as char else c
  }

  /** No character of `s` is upper case. */
  predicate IsLower(s: string) {
    forall i :: 0 <= i < |s| ==> !IsUpper(s[i])
  }

  /** Python's `str.lower`: same length, each character lowered. */
  function Lower(s: string): (r: string)
    ensures |r| == |s|
    ensures forall i :: 0 <= i < |s| ==> r[i] == LowerChar(s[i])
    ensures IsLower(r)
  {
    seq(|s|, i requires 0 <= i < |s| => LowerChar(s[i]))
  }

  /** Lower-casing text that is already lower case changes nothing. */
  lemma LowerOfLower(s: string)
    requires IsLower(s)
    ensures Lower(s) == s
  {
  }

  /** Lower-casing twice is lower-casing once. */
  lemma LowerIdempotent(s: string)
    ensures Lower(Lower(s)) == Lower(s)
  {
    LowerOfLower(Lower(s));
  }

  // ---------------------------------------------------------------------
  // Substrings
  // ---------------------------------------------------------------------

  /** `k` occurs in `s` as a contiguous run: Python's `k in s` and
      JavaScript's `s.includes(k)`. The empty string occurs in every string. */
  predicate Contains(s: string, k: string)
    decreases |s|
  {
    k <= s || (s != [] && Contains(s[1..], k))
  }

  /** An occurrence at a known offset is an occurrence. */
  lemma {:induction false} ContainsAt(s: string, k: string, i: nat)
    requires i + |k| <= |s| && s[i..i + |k|] == k
    ensures Contains(s, k)
    decreases i
  {
    if i == 0 {
      assert k <= s;
    } else {
      assert s[1..][i - 1..i - 1 + |k|] == k;
      ContainsAt(s[1..], k, i - 1);
    }
  }

  /** Text that lower-casing leaves unchanged still occurs after `s` is lower-cased. */
  lemma {:induction false} ContainsLower(s: string, k: string)
    requires Contains(s, k) && Lower(k) == k
    ensures Contains(Lower(s), k)
    decreases |s|
  {
    if k <= s {
      assert Lower(s)[..|k|] == Lower(k);
    } else {
      assert Lower(s)[1..] == Lower(s[1..]);
      ContainsLower(s[1..], k);
    }
  }

  /** Whatever occurs in a prefix of `s` occurs in `s`. */
  lemma {:induction false} ContainsInPrefix(p: string, s: string, k: string)
    requires p <= s && Contains(p, k)
    ensures Contains(s, k)
    decreases |p|
  {
    if k <= p {
      assert k <= s;
    } else {
      assert p[1..] <= s[1..];
      ContainsInPrefix(p[1..], s[1..], k);
    }
  }

  /** Occurrence is transitive: if `k` occurs in `s` and `j` in `k`, then `j` occurs in `s`. */
  lemma {:induction false} ContainsTransitive(s: string, k: string, j: string)
    requires Contains(s, k) && Contains(k, j)
    ensures Contains(s, j)
    decreases |s|
  {
    if k <= s {
      ContainsInPrefix(k, s, j);
    } else {
      ContainsTransitive(s[1..], k, j);
    }
  }

  // ---------------------------------------------------------------------
  // Whitespace, trimming and splitting
  // ---------------------------------------------------------------------

  predicate IsSpace(c: char) {
    c == ' ' || c == '\t' || c == '\n' || c == '\r' || c == '\U{000B}' || c == '\U{000C}'
  }

  predicate AllSpace(s: string) {
    forall i :: 0 <= i < |s| ==> IsSpace(s[i])
  }

  predicate NoSpace(s: string) {
    forall i :: 0 <= i < |s| ==> !IsSpace(s[i])
  }

  /** Neither end of `s` is whitespace. */
  predicate IsTrimmed(s: string) {
    s == [] || (!IsSpace(s[0]) && !IsSpace(s[|s| - 1]))
  }

  /** `s` without its leading whitespace: a suffix of `s` whose dropped front is all whitespace. */
  function TrimStart(s: string): (r: string)
    ensures |r| <= |s| && r == s[|s| - |r|..]
    ensures AllSpace(s[..|s| - |r|])
    ensures r != [] ==> !IsSpace(r[0])
    decreases |s|
  {
    if s != [] && IsSpace(s[0]) then TrimStart(s[1..]) else s
  }

  /** `s` without its trailing whitespace: a prefix of `s` whose dropped end is all whitespace. */
  function TrimEnd(s: string): (r: string)
    ensures |r| <= |s| && r == s[..|r|]
    ensures AllSpace(s[|r|..])
    ensures r != [] ==> !IsSpace(r[|r| - 1])
    decreases |s|
  {
    if s != [] && IsSpace(s[|s| - 1]) then TrimEnd(s[..|s| - 1]) else s
  }

  /** `r` is `s[k..k + |r|]`, and everything of `s` before and after it is whitespace. */
  predicate CutAt(s: string, r: string, k: int) {
    0 <= k <= |s| - |r| && r == s[k..k + |r|] && AllSpace(s[..k]) && AllSpace(s[k + |r|..])
  }

  /** JavaScript's `String.prototype.trim`. The result has no whitespace at
      either end, is empty exactly when `s` is all whitespace, and is what is
      left of `s` once a whitespace-only front and end are cut off. */
  function Trim(s: string): (r: string)
    ensures IsTrimmed(r)
    ensures r == [] <==> AllSpace(s)
    ensures Contains(s, r)
    ensures exists k :: CutAt(s, r, k)
  {
    var t := TrimStart(s);
    var r := TrimEnd(t);
    TrimIsTrimmed(s, t, r);
    TrimEmpty(s, t, r);
    TrimOccurs(s, t, r);
    r
  }

  lemma TrimIsTrimmed(s: string, t: string, r: string)
    requires t == TrimStart(s) && r == TrimEnd(t)
    ensures IsTrimmed(r)
  {
    if r != [] {
      assert r[0] == t[0];
    }
  }

  lemma TrimEmpty(s: string, t: string, r: string)
    requires t == TrimStart(s) && r == TrimEnd(t)
    ensures r == [] <==> AllSpace(s)
  {
    var k := |s| - |t|;
    if r == [] {
      assert AllSpace(t) by {
        assert t[|r|..] == t;
      }
      assert s[..k] == s;
    } else {
      assert r[0] == t[0] == s[k];
    }
  }

  /** A prefix of a suffix of `s` occurs in `s`; when the cut-off front and
      end are whitespace, `r` is `s` between two whitespace-only pieces. */
  lemma TrimOccurs(s: string, t: string, r: string)
    requires |t| <= |s| && t == s[|s| - |t|..] && AllSpace(s[..|s| - |t|])
    requires |r| <= |t| && r == t[..|r|] && AllSpace(t[|r|..])
    ensures Contains(s, r)
    ensures exists k :: CutAt(s, r, k)
  {
    var k := |s| - |t|;
    assert r == s[k..k + |r|] by {
      forall i | 0 <= i < |r|
        ensures r[i] == s[k + i]
      {
        assert r[i] == t[i];
      }
    }
    assert s[k + |r|..] == t[|r|..];
    assert CutAt(s, r, k);
    ContainsAt(s, r, k);
  }

  /** Trimming is idempotent. */
  lemma TrimTrimmed(s: string)
    requires IsTrimmed(s)
    ensures Trim(s) == s
  {
  }

  /** Length of the run of non-whitespace characters at the front of `s`. */
  function WordEnd(s: string): (n: nat)
    ensures n <= |s|
    ensures NoSpace(s[..n])
    ensures n < |s| ==> IsSpace(s[n])
    decreases |s|
  {
    if s == [] || IsSpace(s[0]) then 0 else 1 + WordEnd(s[1..])
  }

  /** The characters of `s` that are not whitespace, in order. */
  function RemoveSpace(s: string): string
    decreases |s|
  {
    if s == [] then [] else (if IsSpace(s[0]) then [] else [s[0]]) + RemoveSpace(s[1..])
  }

  /** The concatenation of `parts`. */
  function Concat(parts: seq<string>): string
    decreases |parts|
  {
    if parts == [] then [] else parts[0] + Concat(parts[1..])
  }

  /** Python's `s.split()` without arguments, with whitespace limited to the
      six ASCII whitespace characters: the maximal runs of non-whitespace
      characters, in order, each non-empty. */
  function Words(s: string): (ws: seq<string>)
    ensures forall w :: w in ws ==> w != [] && NoSpace(w)
    ensures forall w, c :: w in ws && c in w ==> c in s
    decreases |s|
  {
    if s == [] then []
    else if IsSpace(s[0]) then Words(s[1..])
    else
      var n := WordEnd(s);
      assert s == s[..n] + s[n..];
      [s[..n]] + Words(s[n..])
  }

  /** The run of non-whitespace characters at the front of `a + b` is `a`
      when `a` has no whitespace and `b` is empty or starts with whitespace. */
  lemma {:induction false} WordEndOfRun(a: string, b: string)
    requires NoSpace(a) && (b == [] || IsSpace(b[0]))
    ensures WordEnd(a + b) == |a|
    decreases |a|
  {
    if a == [] {
      assert a + b == b;
    } else {
      assert (a + b)[1..] == a[1..] + b;
      WordEndOfRun(a[1..], b);
    }
  }

  /** `split()` cuts only at whitespace: a maximal run of non-whitespace
      characters at the front, followed by whitespace or the end, is one
      word, and leading whitespace produces no word. With `Words("") == []`
      these two equations determine `Words` on every string. */
  lemma WordsSplitOnlyAtSpace(a: string, b: string, c: char)
    requires a != [] && NoSpace(a) && (b == [] || IsSpace(b[0]))
    requires IsSpace(c)
    ensures Words(a + b) == [a] + Words(b)
    ensures Words([c] + b) == Words(b)
  {
    WordEndOfRun(a, b);
    assert (a + b)[..|a|] == a && (a + b)[|a|..] == b;
    assert ([c] + b)[1..] == b;
  }

  lemma {:induction false} RemoveSpaceAppend(a: string, b: string)
    ensures RemoveSpace(a + b) == RemoveSpace(a) + RemoveSpace(b)
    decreases |a|
  {
    if a == [] {
      assert a + b == b;
    } else {
      assert (a + b)[1..] == a[1..] + b;
      RemoveSpaceAppend(a[1..], b);
    }
  }

  lemma {:induction false} RemoveSpaceOfWord(w: string)
    requires NoSpace(w)
    ensures RemoveSpace(w) == w
    decreases |w|
  {
    if w != [] {
      RemoveSpaceOfWord(w[1..]);
    }
  }

  /** Splitting loses only whitespace: the words, concatenated, are the
      non-whitespace characters of `s` in their original order. */
  lemma {:induction false} WordsKeepEveryOtherCharacter(s: string)
    ensures Concat(Words(s)) == RemoveSpace(s)
    decreases |s|
  {
    if s == [] {
    } else if IsSpace(s[0]) {
      WordsKeepEveryOtherCharacter(s[1..]);
    } else {
      var n := WordEnd(s);
      assert s == s[..n] + s[n..];
      WordsKeepEveryOtherCharacter(s[n..]);
      RemoveSpaceAppend(s[..n], s[n..]);
      RemoveSpaceOfWord(s[..n]);
      assert Words(s)[1..] == Words(s[n..]);
    }
  }

  /** `s` without any character of `drop` (Python's chained
      `str.replace(c, '')`): every other character is kept, as often as it
      occurs and in its order in `s`. */
  function Without(s: string, drop: set<char>): (r: string)
    ensures |r| <= |s|
    ensures forall c :: c in r <==> c in s && c !in drop
    decreases |s|
  {
    if s == [] then []
    else (if s[0] in drop then [] else [s[0]]) + Without(s[1..], drop)
  }

  /** `Without` keeps every character outside `drop` as often as it occurs
      in `s`, in its order in `s`, and no character of `drop`. */
  lemma {:induction false} WithoutKeepsTheRest(s: string, drop: set<char>)
    ensures forall c :: multiset(Without(s, drop))[c] == if c in drop then 0 else multiset(s)[c]
    ensures IsSubsequence(Without(s, drop), s)
    decreases |s|
  {
    if s != [] {
      var rest := Without(s[1..], drop);
      WithoutKeepsTheRest(s[1..], drop);
      assert s == [s[0]] + s[1..];
      if s[0] in drop {
        assert Without(s, drop) == rest;
      } else {
        assert Without(s, drop) == [s[0]] + rest;
        assert ([s[0]] + rest)[1..] == rest;
      }
    }
  }

  // ---------------------------------------------------------------------
  // Joining
  // ---------------------------------------------------------------------

  /** Python's `sep.join(parts)` and JavaScript's `parts.join(sep)`. */
  function Join(parts: seq<string>, sep: string): string
    decreases |parts|
  {
    if |parts| == 0 then ""
    else if |parts| == 1 then parts[0]
    else parts[0] + sep + Join(parts[1..], sep)
  }

  /** Every part occurs in the joined text. */
  lemma {:induction false} JoinContainsPart(parts: seq<string>, sep: string, i: nat)
    requires i < |parts|
    ensures Contains(Join(parts, sep), parts[i])
    decreases i
  {
    var j := Join(parts, sep);
    if i == 0 {
      assert parts[0] <= j;
    } else {
      var rest := Join(parts[1..], sep);
      JoinContainsPart(parts[1..], sep, i - 1);
      assert j == (parts[0] + sep) + rest;
      JoinContainsSuffix(parts[0] + sep, rest, parts[i]);
    }
  }

  lemma {:induction false} JoinContainsSuffix(a: string, b: string, k: string)
    requires Contains(b, k)
    ensures Contains(a + b, k)
    decreases |a|
  {
    if a == [] {
      assert a + b == b;
    } else {
      assert (a + b)[1..] == a[1..] + b;
      JoinContainsSuffix(a[1..], b, k);
    }
  }

  /** Joining yields the empty text only when every part is empty. */
  lemma {:induction false} JoinEmpty(parts: seq<string>, sep: string)
    requires exists i :: 0 <= i < |parts| && parts[i] != []
    ensures Join(parts, sep) != []
    decreases |parts|
  {
    var i :| 0 <= i < |parts| && parts[i] != [];
    if |parts| > 1 && parts[0] == [] {
      assert parts[1..][i - 1] != [];
      JoinEmpty(parts[1..], sep);
    }
  }

  // ---------------------------------------------------------------------
  // Decimal numerals
  // ---------------------------------------------------------------------

  predicate IsDigit(c: char) {
    '0' <= c <= '9'
  }

  predicate AllDigits(s: string) {
    forall i :: 0 <= i < |s| ==> IsDigit(s[i])
  }

  function DigitChar(d: nat): (c: char)
    requires d < 10
    ensures IsDigit(c)
  {
    ('0' as int + d) as char
  }

  function DigitValue(c: char): (d: nat)
    requires IsDigit(c)
    ensures d < 10
  {
    c as int - '0' as int
  }

  /** The decimal numeral of `n` (Python's `str(n)`, JavaScript's
      `${n}` on a non-negative integer): digits only, no leading zero. */
  function NatToString(n: nat): (r: string)
    ensures r != [] && AllDigits(r)
    ensures r[0] == '0' ==> n == 0
    decreases n
  {
    if n < 10 then [DigitChar(n)] else NatToString(n / 10) + [DigitChar(n % 10)]
  }

  /** The value of a numeral. */
  function ParseNat(s: string): nat
    requires AllDigits(s)
    decreases |s|
  {
    if s == [] then 0 else 10 * ParseNat(s[..|s| - 1]) + DigitValue(s[|s| - 1])
  }

  /** Reading back a printed number gives the number. */
  lemma {:induction false} ParseNatToString(n: nat)
    ensures ParseNat(NatToString(n)) == n
    decreases n
  {
    var r := NatToString(n);
    if n >= 10 {
      ParseNatToString(n / 10);
      assert r[..|r| - 1] == NatToString(n / 10);
    }
  }

  /** Printing is injective: different numbers have different numerals. */
  lemma NatToStringInjective(m: nat, n: nat)
    requires NatToString(m) == NatToString(n)
    ensures m == n
  {
    ParseNatToString(m);
    ParseNatToString(n);
  }

  /** JavaScript's `${n}` on an integer. */
  function IntToString(n: int): (r: string)
    ensures r != []
    ensures r[0] == '-' <==> n < 0
  {
    if n < 0 then "-" + NatToString(-n) else NatToString(n)
  }
}
