/**
  Python 3 string operations that the two QASM components rely on: the
  whitespace class of `str.isspace`, `str.strip` and `str.rstrip`,
  `str.split` with a fixed separator, `re.split` on a character class
  (with and without `+`), `str.startswith`, and decimal rendering and
  parsing of non-negative integers (`f"{i}"` and `int(...)`).

  Only the ASCII digits and letters are modelled for the regex classes
  `\d`, `\w` and `[a-zA-Z]`; the whitespace class is Python's exactly.
*/
module Text {

  /** Python's `str.isspace()`, which is also what `str.strip()` removes and what `\s` matches. */
  predicate IsSpace(c: char) {
    ('\t' <= c <= '\r') || ('\U{1C}' <= c <= '\U{1F}') || c == ' '
    || c == '\U{85}' || c == '\U{A0}' || c == '\U{1680}'
    || ('\U{2000}' <= c <= '\U{200A}') || c == '\U{2028}' || c == '\U{2029}'
    || c == '\U{202F}' || c == '\U{205F}' || c == '\U{3000}'
  }

  predicate IsAsciiDigit(c: char) { '0' <= c <= '9' }

  predicate IsAsciiLetter(c: char) { ('a' <= c <= 'z') || ('A' <= c <= 'Z') }

  /** The regex class `\w`, restricted to ASCII. */
  predicate IsWordChar(c: char) { IsAsciiLetter(c) || IsAsciiDigit(c) || c == '_' }

  predicate IsNewline(c: char) { c == '\n' }

  /** The regex class `[()]`. */
  predicate IsParen(c: char) { c == '(' || c == ')' }

  /** The regex class `[,\s]`. */
  predicate IsCommaOrSpace(c: char) { c == ',' || IsSpace(c) }

  predicate IsSemicolon(c: char) { c == ';' }

  predicate AllOf(s: string, p: char -> bool) { forall i :: 0 <= i < |s| ==> p(s[i]) }

  predicate NoneOf(s: string, p: char -> bool) { forall i :: 0 <= i < |s| ==> !p(s[i]) }

  predicate AllDigits(s: string) { forall i :: 0 <= i < |s| ==> IsAsciiDigit(s[i]) }

  /** `s.startswith(pre)` */
  predicate StartsWith(s: string, pre: string) { |pre| <= |s| && s[..|pre|] == pre }

  /** Length of the longest prefix of `s` whose characters all satisfy `p` (`RunLenSpec`). */
  function RunLen(s: string, p: char -> bool): (n: nat)
    ensures n <= |s|
  {
    if |s| == 0 || !p(s[0]) then 0 else 1 + RunLen(s[1..], p)
  }

  lemma {:induction false} RunLenSpec(s: string, p: char -> bool)
    ensures forall i :: 0 <= i < RunLen(s, p) ==> p(s[i])
    ensures RunLen(s, p) < |s| ==> !p(s[RunLen(s, p)])
  {
    if |s| > 0 && p(s[0]) {
      RunLenSpec(s[1..], p);
    }
  }

  /** A run of `p`-characters followed by a character that is not one is measured exactly. */
  lemma {:induction false} RunLenExact(s: string, t: string, p: char -> bool)
    requires AllOf(s, p) && (t == [] || !p(t[0]))
    ensures RunLen(s + t, p) == |s|
  {
    if s == [] {
      assert s + t == t;
    } else {
      assert (s + t)[0] == s[0];
      assert (s + t)[1..] == s[1..] + t;
      RunLenExact(s[1..], t, p);
    }
  }

  /** Index of the first character of `s` satisfying `p`, or `|s|` when there is none (`FirstWhereSpec`). */
  function FirstWhere(s: string, p: char -> bool): (k: nat)
    ensures k <= |s|
  {
    if |s| == 0 || p(s[0]) then 0 else 1 + FirstWhere(s[1..], p)
  }

  lemma {:induction false} FirstWhereSpec(s: string, p: char -> bool)
    ensures forall i :: 0 <= i < FirstWhere(s, p) ==> !p(s[i])
    ensures FirstWhere(s, p) < |s| ==> p(s[FirstWhere(s, p)])
  {
    if |s| > 0 && !p(s[0]) {
      FirstWhereSpec(s[1..], p);
    }
  }

  /** The characters of `s` that satisfy `p`, in order. */
  function Filter(s: string, p: char -> bool): string
  {
    if |s| == 0 then [] else (if p(s[0]) then [s[0]] else []) + Filter(s[1..], p)
  }

  /** The characters of `s` that do not satisfy `p`, in order. */
  function Remove(s: string, p: char -> bool): string
  {
    if |s| == 0 then [] else (if p(s[0]) then [] else [s[0]]) + Remove(s[1..], p)
  }

  /** `Filter` keeps only `p`-characters and `Remove` only the others. */
  lemma {:induction false} FilterSpec(s: string, p: char -> bool)
    ensures AllOf(Filter(s, p), p) && NoneOf(Remove(s, p), p)
  {
    if |s| > 0 {
      FilterSpec(s[1..], p);
    }
  }

  lemma {:induction false} FilterAppend(a: string, b: string, p: char -> bool)
    ensures Filter(a + b, p) == Filter(a, p) + Filter(b, p)
    ensures Remove(a + b, p) == Remove(a, p) + Remove(b, p)
  {
    if |a| > 0 {
      assert (a + b)[1..] == a[1..] + b;
      FilterAppend(a[1..], b, p);
    } else {
      assert a + b == b;
    }
  }

  lemma {:induction false} FilterNoneOf(s: string, p: char -> bool)
    requires NoneOf(s, p)
    ensures Filter(s, p) == [] && Remove(s, p) == s
  {
    if |s| > 0 {
      FilterNoneOf(s[1..], p);
    }
  }

  lemma {:induction false} FilterAllOf(s: string, p: char -> bool)
    requires AllOf(s, p)
    ensures Filter(s, p) == s && Remove(s, p) == []
  {
    if |s| > 0 {
      FilterAllOf(s[1..], p);
    }
  }

  /** `parts[0] + seps[0] + parts[1] + ... + seps[n-1] + parts[n]` */
  function JoinWithSeps(parts: seq<string>, seps: string): string
    requires |parts| == |seps| + 1
    decreases |seps|
  {
    if |seps| == 0 then parts[0] else parts[0] + [seps[0]] + JoinWithSeps(parts[1..], seps[1..])
  }

  function Concat(parts: seq<string>): string
  {
    if |parts| == 0 then [] else parts[0] + Concat(parts[1..])
  }

  /**
    Splitting at every single character that satisfies `p`: `s.split(c)` when `p`
    holds of `c` alone, and `re.split(r'[...]', s)` for a one-character class
    (`SplitWhereSpec`, `SplitJoinRoundTrip`).
  */
  function SplitWhere(s: string, p: char -> bool): seq<string>
    decreases |s|
  {
    var k := FirstWhere(s, p);
    if k == |s| then [s] else [s[..k]] + SplitWhere(s[k + 1..], p)
  }

  /**
    There is one piece more than there are separators, no piece holds a
    separator, and the pieces rejoined with the separators give back `s`.
  */
  lemma {:induction false} SplitWhereSpec(s: string, p: char -> bool)
    ensures |SplitWhere(s, p)| == |Filter(s, p)| + 1
    ensures forall j :: 0 <= j < |SplitWhere(s, p)| ==> NoneOf(SplitWhere(s, p)[j], p)
    ensures JoinWithSeps(SplitWhere(s, p), Filter(s, p)) == s
    decreases |s|
  {
    var k := FirstWhere(s, p);
    FirstWhereSpec(s, p);
    if k == |s| {
      FilterNoneOf(s, p);
    } else {
      var rest := s[k + 1..];
      SplitWhereSpec(rest, p);
      FilterAtSeparator(s, k, p);
      var parts := SplitWhere(s, p);
      assert parts[1..] == SplitWhere(rest, p);
    }
  }

  /** Cutting `s` at its first separator `s[k]`. */
  lemma FilterAtSeparator(s: string, k: nat, p: char -> bool)
    requires k < |s| && NoneOf(s[..k], p) && p(s[k])
    ensures s == s[..k] + [s[k]] + s[k + 1..]
    ensures Filter(s, p) == [s[k]] + Filter(s[k + 1..], p)
  {
    var a, b := s[..k], s[k + 1..];
    assert s == a + [s[k]] + b;
    assert Filter(a + [s[k]], p) == [s[k]] by {
      FilterAppend(a, [s[k]], p);
      FilterNoneOf(a, p);
    }
    FilterAppend(a + [s[k]], b, p);
  }

  /** The converse round trip: splitting a join of separator-free pieces gives the pieces back. */
  lemma {:induction false} SplitJoinRoundTrip(parts: seq<string>, seps: string, p: char -> bool)
    requires |parts| == |seps| + 1
    requires forall j :: 0 <= j < |parts| ==> NoneOf(parts[j], p)
    requires AllOf(seps, p)
    ensures SplitWhere(JoinWithSeps(parts, seps), p) == parts
    decreases |seps|
  {
    if |seps| == 0 {
      SplitWhereNone(parts[0], p);
    } else {
      var rest := JoinWithSeps(parts[1..], seps[1..]);
      SplitWhereCons(parts[0], seps[0], rest, p);
      SplitJoinRoundTrip(parts[1..], seps[1..], p);
      assert parts == [parts[0]] + parts[1..];
    }
  }

  /** A text with no separator splits into itself alone. */
  lemma SplitWhereNone(s: string, p: char -> bool)
    requires NoneOf(s, p)
    ensures SplitWhere(s, p) == [s]
  {
    FirstWhereSpec(s, p);
  }

  /** Splitting stops at the first separator and goes on after it. */
  lemma SplitWhereCons(a: string, c: char, b: string, p: char -> bool)
    requires NoneOf(a, p) && p(c)
    ensures SplitWhere(a + [c] + b, p) == [a] + SplitWhere(b, p)
  {
    var s := a + [c] + b;
    assert FirstWhere(s, p) == |a| by {
      FirstWhereSpec(s, p);
      assert forall i :: 0 <= i < |a| ==> s[i] == a[i];
      assert s[|a|] == c;
    }
    assert s[..|a|] == a && s[|a| + 1..] == b;
  }

  /**
    `re.split(r'[...]+', s)`: splitting at every maximal run of separator
    characters (`SplitRunsSpec`).
  */
  function SplitRuns(s: string, p: char -> bool): (parts: seq<string>)
    ensures |parts| >= 1
    decreases |s|
  {
    var k := FirstWhere(s, p);
    if k == |s| then [s]
    else
      var e := k + RunLen(s[k..], p);
      [s[..k]] + SplitRuns(s[e..], p)
  }

  /**
    No piece holds a separator, only the first and the last piece can be
    empty, and the pieces together hold exactly the non-separator characters
    of `s`, in order.
  */
  lemma {:induction false} SplitRunsSpec(s: string, p: char -> bool)
    ensures SplitRuns(s, p)[0] == s[..FirstWhere(s, p)]
    ensures forall j :: 0 <= j < |SplitRuns(s, p)| ==> NoneOf(SplitRuns(s, p)[j], p)
    ensures forall j :: 0 < j < |SplitRuns(s, p)| - 1 ==> SplitRuns(s, p)[j] != []
    ensures Concat(SplitRuns(s, p)) == Remove(s, p)
    decreases |s|
  {
    var k := FirstWhere(s, p);
    FirstWhereSpec(s, p);
    if k == |s| {
      FilterNoneOf(s, p);
      assert Concat([s]) == s + Concat([]);
    } else {
      RunLenSpec(s[k..], p);
      var e := k + RunLen(s[k..], p);
      var rest := SplitRuns(s[e..], p);
      SplitRunsSpec(s[e..], p);
      RemoveAroundRun(s, k, e, p);
      assert e < |s| ==> rest[0] != [] by {
        if e < |s| {
          FirstWhereSpec(s[e..], p);
          assert !p(s[e..][0]);
        }
      }
      var parts := SplitRuns(s, p);
      assert parts == [s[..k]] + rest;
      assert parts[1..] == rest;
    }
  }

  lemma NoneOfAppend(a: string, b: string, p: char -> bool)
    requires NoneOf(a, p) && NoneOf(b, p)
    ensures NoneOf(a + b, p)
  {
    assert forall i :: 0 <= i < |a + b| ==> (a + b)[i] == if i < |a| then a[i] else b[i - |a|];
  }

  /** A piece, a run of separators, and a rest that starts with no separator: the piece comes off first. */
  lemma SplitRunsCons(a: string, sep: string, b: string, p: char -> bool)
    requires NoneOf(a, p) && sep != [] && AllOf(sep, p) && (b == [] || !p(b[0]))
    ensures SplitRuns(a + sep + b, p) == [a] + SplitRuns(b, p)
  {
    var s := a + sep + b;
    assert FirstWhere(s, p) == |a| by {
      FirstWhereSpec(s, p);
      assert s[|a|] == sep[0];
    }
    assert RunLen(s[|a|..], p) == |sep| by {
      assert s[|a|..] == sep + b;
      RunLenExact(sep, b, p);
    }
    assert s[..|a|] == a && s[|a| + |sep|..] == b;
  }

  /** A string with no separator is a single piece. */
  lemma SplitRunsNone(s: string, p: char -> bool)
    requires NoneOf(s, p)
    ensures SplitRuns(s, p) == [s]
  {
    FirstWhereSpec(s, p);
  }

  lemma RemoveAroundRun(s: string, k: nat, e: nat, p: char -> bool)
    requires k <= e <= |s|
    requires NoneOf(s[..k], p) && AllOf(s[k..e], p)
    ensures Remove(s, p) == s[..k] + Remove(s[e..], p)
  {
    assert s == s[..k] + s[k..e] + s[e..];
    FilterAppend(s[..k] + s[k..e], s[e..], p);
    FilterAppend(s[..k], s[k..e], p);
    FilterNoneOf(s[..k], p);
    FilterAllOf(s[k..e], p);
  }

  /** Leading characters satisfying `p` removed: `lstrip`. */
  function TrimStart(s: string, p: char -> bool): string
  {
    s[RunLen(s, p)..]
  }

  /** Trailing characters satisfying `p` removed: `rstrip`. */
  function TrimEnd(s: string, p: char -> bool): string
    decreases |s|
  {
    if |s| > 0 && p(s[|s| - 1]) then TrimEnd(s[..|s| - 1], p) else s
  }

  /** `TrimStart` drops a prefix of `p`-characters and stops at one that is not. */
  lemma TrimStartSpec(s: string, p: char -> bool)
    ensures |TrimStart(s, p)| <= |s| && TrimStart(s, p) == s[|s| - |TrimStart(s, p)|..]
    ensures forall i :: 0 <= i < |s| - |TrimStart(s, p)| ==> p(s[i])
    ensures TrimStart(s, p) != [] ==> !p(TrimStart(s, p)[0])
  {
    RunLenSpec(s, p);
  }

  /** `TrimEnd` drops a suffix of `p`-characters and stops at one that is not. */
  lemma {:induction false} TrimEndSpec(s: string, p: char -> bool)
    ensures |TrimEnd(s, p)| <= |s| && TrimEnd(s, p) == s[..|TrimEnd(s, p)|]
    ensures forall i :: |TrimEnd(s, p)| <= i < |s| ==> p(s[i])
    ensures TrimEnd(s, p) != [] ==> !p(TrimEnd(s, p)[|TrimEnd(s, p)| - 1])
    decreases |s|
  {
    if |s| > 0 && p(s[|s| - 1]) {
      TrimEndSpec(s[..|s| - 1], p);
    }
  }

  /** `s.strip()` */
  function Strip(s: string): string
  {
    TrimEnd(TrimStart(s, IsSpace), IsSpace)
  }

  /**
    `Strip` is the slice of `s` between a whitespace prefix and a whitespace
    suffix; it is empty exactly when `s` is all whitespace, and otherwise
    neither starts nor ends with whitespace.
  */
  lemma StripSpec(s: string)
    ensures |Strip(s)| <= |s|
    ensures exists a, b :: 0 <= a <= b <= |s| && Strip(s) == s[a..b] && AllOf(s[..a], IsSpace) && AllOf(s[b..], IsSpace)
    ensures Strip(s) == [] <==> AllOf(s, IsSpace)
    ensures Strip(s) != [] ==> !IsSpace(Strip(s)[0]) && !IsSpace(Strip(s)[|Strip(s)| - 1])
  {
    var t := TrimStart(s, IsSpace);
    TrimStartSpec(s, IsSpace);
    TrimEndSpec(t, IsSpace);
    var r := TrimEnd(t, IsSpace);
    assert r == [] ==> t == [];
    assert AllOf(s, IsSpace) ==> t == [];
    var a := |s| - |t|;
    var b := a + |r|;
    assert Strip(s) == s[a..b] by {
      assert t == s[a..] && r == t[..|r|];
    }
    assert AllOf(s[b..], IsSpace) by {
      assert s[b..] == t[|r|..];
    }
  }

  predicate OccursAt(s: string, pat: string, k: nat) {
    k + |pat| <= |s| && s[k..k + |pat|] == pat
  }

  /** The first position at or after `k` where `pat` occurs in `s`, or `|s|` when there is none (`IndexOfSubSpec`). */
  function IndexOfSub(s: string, pat: string, k: nat): (r: nat)
    requires k <= |s|
    ensures k <= r <= |s|
    decreases |s| - k
  {
    if k == |s| then |s| else if OccursAt(s, pat, k) then k else IndexOfSub(s, pat, k + 1)
  }

  lemma {:induction false} IndexOfSubSpec(s: string, pat: string, k: nat)
    requires k <= |s|
    ensures forall j :: k <= j < IndexOfSub(s, pat, k) ==> !OccursAt(s, pat, j)
    ensures IndexOfSub(s, pat, k) < |s| ==> OccursAt(s, pat, IndexOfSub(s, pat, k))
    decreases |s| - k
  {
    if k < |s| && !OccursAt(s, pat, k) {
      IndexOfSubSpec(s, pat, k + 1);
    }
  }

  /** `s.split(pat)[0]` (`BeforeFirstSpec`). */
  function BeforeFirst(s: string, pat: string): string
  {
    s[..IndexOfSub(s, pat, 0)]
  }

  /** The longest prefix of `s` in which `pat` does not start: `s` itself, or `pat` starts right after it. */
  lemma BeforeFirstSpec(s: string, pat: string)
    ensures |BeforeFirst(s, pat)| <= |s| && BeforeFirst(s, pat) == s[..|BeforeFirst(s, pat)|]
    ensures forall j :: 0 <= j < |BeforeFirst(s, pat)| ==> !OccursAt(s, pat, j)
    ensures |BeforeFirst(s, pat)| < |s| ==> OccursAt(s, pat, |BeforeFirst(s, pat)|)
  {
    IndexOfSubSpec(s, pat, 0);
  }

  function DigitChar(d: nat): (c: char)
    requires d < 10
    ensures IsAsciiDigit(c)
  {
    ('0' as int + d) as char
  }

  function DigitValue(c: char): (d: nat)
    requires IsAsciiDigit(c)
    ensures d < 10
  {
    c as int - '0' as int
  }

  /** `f"{n}"` for a non-negative integer: its decimal digits. */
  function NatToString(n: nat): string
    decreases n
  {
    if n < 10 then [DigitChar(n)] else NatToString(n / 10) + [DigitChar(n % 10)]
  }

  lemma {:induction false} NatToStringDigits(n: nat)
    ensures NatToString(n) != [] && AllDigits(NatToString(n))
    decreases n
  {
    if n >= 10 {
      NatToStringDigits(n / 10);
    }
  }

  /** `int(d)` for a string of decimal digits. */
  function DigitsValue(d: string): nat
    requires AllDigits(d)
    decreases |d|
  {
    if |d| == 0 then 0 else 10 * DigitsValue(d[..|d| - 1]) + DigitValue(d[|d| - 1])
  }

  /** Parsing the rendering of a number gives the number back. */
  lemma {:induction false} DigitsRoundTrip(n: nat)
    ensures AllDigits(NatToString(n)) && DigitsValue(NatToString(n)) == n
    decreases n
  {
    NatToStringDigits(n);
    if n >= 10 {
      DigitsRoundTrip(n / 10);
      var s := NatToString(n);
      assert s[..|s| - 1] == NatToString(n / 10);
    }
  }

  /** Distinct numbers render differently, also behind a common prefix. */
  lemma NatToStringInjective(pre: string, a: nat, b: nat)
    ensures pre + NatToString(a) == pre + NatToString(b) ==> a == b
  {
    if pre + NatToString(a) == pre + NatToString(b) {
      assert NatToString(a) == (pre + NatToString(a))[|pre|..];
      assert NatToString(b) == (pre + NatToString(b))[|pre|..];
      DigitsRoundTrip(a);
      DigitsRoundTrip(b);
    }
  }
}
