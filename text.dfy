/**
 * The pieces of Python's `str` behaviour the backend relies on: whitespace,
 * `strip`, `split`, `replace`, `join`, `in`, `lower`, `int(...)`, decimal
 * formatting, the code-point order used by `sorted`, and the few regular
 * expressions that appear in the core.
 */
module Text {
  import opened Wrappers

  /** Characters for which Python's `str.isspace()` holds; `split()`, `strip()` and `\s` use this set. */
  predicate IsSpace(c: char) {
    c == ' ' || '\t' <= c <= '\r' || '\U{1c}' <= c <= '\U{1f}' || c == '\U{85}' || c == '\U{a0}'
    || c == '\U{1680}' || '\U{2000}' <= c <= '\U{200a}' || c == '\U{2028}' || c == '\U{2029}'
    || c == '\U{202f}' || c == '\U{205f}' || c == '\U{3000}'
  }

  /** An ASCII decimal digit (`\d` restricted to ASCII). */
  predicate IsDigit(c: char) {
    '0' <= c <= '9'
  }

  /** An ASCII word character (`\w` restricted to ASCII). */
  predicate IsWordChar(c: char) {
    'a' <= c <= 'z' || 'A' <= c <= 'Z' || IsDigit(c) || c == '_'
  }

  /** Python truthiness of an optional string (`if x:`): present and non-empty. */
  predicate Truthy(s: Option<string>) {
    s.Some? && s.value != ""
  }

  function DigitValue(c: char): nat
    requires IsDigit(c)
  {
    (c as int - '0' as int) as nat
  }

  // ---------------------------------------------------------------- strip

  function TrimLeft(s: string): (r: string)
    ensures |r| <= |s| && r == s[|s| - |r|..]
    ensures r == [] || !IsSpace(r[0])
    ensures forall i :: 0 <= i < |s| - |r| ==> IsSpace(s[i])
  {
    if s != [] && IsSpace(s[0]) then TrimLeft(s[1..]) else s
  }

  function TrimRight(s: string): (r: string)
    ensures |r| <= |s| && r == s[..|r|]
    ensures r == [] || !IsSpace(r[|r| - 1])
    ensures forall i :: |r| <= i < |s| ==> IsSpace(s[i])
  {
    if s != [] && IsSpace(s[|s| - 1]) then TrimRight(s[..|s| - 1]) else s
  }

  /** `s.strip()` */
  function Strip(s: string): string {
    TrimRight(TrimLeft(s))
  }

  /** True of `s` iff `s.strip() == ""`. */
  predicate IsBlank(s: string) {
    Strip(s) == []
  }

  // ---------------------------------------------------------------- split()

  /** A non-empty run of non-whitespace characters. */
  predicate IsToken(w: string) {
    |w| > 0 && forall i :: 0 <= i < |w| ==> !IsSpace(w[i])
  }

  /** Length of the longest whitespace-free prefix of `s`. */
  function TokenLen(s: string): (n: nat)
    ensures n <= |s|
    ensures forall i :: 0 <= i < n ==> !IsSpace(s[i])
    ensures n < |s| ==> IsSpace(s[n])
  {
    if s == [] || IsSpace(s[0]) then 0 else 1 + TokenLen(s[1..])
  }

  /** The length of the token that starts a string with no leading whitespace. */
  function LeadingTokenLen(t: string): (n: nat)
    requires t != [] && !IsSpace(t[0])
    ensures 0 < n <= |t| && IsToken(t[..n])
  {
    TokenLen(t)
  }

  /** `s.split()`: the maximal whitespace-free runs of `s`, in order. */
  function Words(s: string): (ws: seq<string>)
    ensures forall k :: 0 <= k < |ws| ==> IsToken(ws[k])
    decreases |s|
  {
    var t := TrimLeft(s);
    if t == [] then []
    else
      var n := LeadingTokenLen(t);
      ConsTokens(t[..n], Words(t[n..]))
  }

  /** A token in front of a list of tokens. */
  function ConsTokens(w: string, ws: seq<string>): (r: seq<string>)
    requires IsToken(w) && forall k :: 0 <= k < |ws| ==> IsToken(ws[k])
    ensures |r| == |ws| + 1 && r[0] == w && r[1..] == ws
    ensures forall k :: 0 <= k < |r| ==> IsToken(r[k])
  {
    [w] + ws
  }

  // ---------------------------------------------------------------- split(sep) / join

  /** `s.split(sep)` for a one-character separator. */
  function SplitOn(s: string, sep: char): (parts: seq<string>)
    ensures |parts| >= 1
    decreases |s|
  {
    if s == [] then [[]]
    else
      var rest := SplitOn(s[1..], sep);
      if s[0] == sep then [[]] + rest else [[s[0]] + rest[0]] + rest[1..]
  }

  /** `sep.join(parts)` */
  function Join(parts: seq<string>, sep: string): string {
    if |parts| == 0 then ""
    else if |parts| == 1 then parts[0]
    else parts[0] + sep + Join(parts[1..], sep)
  }

  /** Splitting on a separator and joining with it again gives back the text. */
  lemma {:induction false} JoinSplitOn(s: string, sep: char)
    ensures Join(SplitOn(s, sep), [sep]) == s
    ensures forall k, i :: 0 <= k < |SplitOn(s, sep)| && 0 <= i < |SplitOn(s, sep)[k]| ==> SplitOn(s, sep)[k][i] != sep
    decreases |s|
  {
    if s != [] {
      var rest := SplitOn(s[1..], sep);
      JoinSplitOn(s[1..], sep);
      if s[0] == sep {
        assert SplitOn(s, sep) == [[]] + rest;
        assert ([[]] + rest)[1..] == rest;
      } else {
        var parts := [[s[0]] + rest[0]] + rest[1..];
        assert SplitOn(s, sep) == parts;
        if |rest| == 1 {
          assert Join(parts, [sep]) == [s[0]] + rest[0];
          assert Join(rest, [sep]) == rest[0];
        } else {
          assert parts[1..] == rest[1..];
          assert Join(rest, [sep]) == rest[0] + [sep] + Join(rest[1..], [sep]);
        }
        forall k, i | 0 <= k < |parts| && 0 <= i < |parts[k]| ensures parts[k][i] != sep {
          if k == 0 && i > 0 {
            assert parts[0][i] == rest[0][i - 1];
          } else if k > 0 {
            assert parts[k] == rest[k];
          }
        }
      }
    }
  }

  /** Splitting a text whose first field holds no separator peels that field off. */
  lemma {:induction false} SplitOnField(a: string, sep: char, b: string)
    requires forall i :: 0 <= i < |a| ==> a[i] != sep
    ensures SplitOn(a + [sep] + b, sep) == [a] + SplitOn(b, sep)
    decreases |a|
  {
    if a == [] {
      assert a + [sep] + b == [sep] + b;
      assert ([sep] + b)[1..] == b;
    } else {
      SplitOnField(a[1..], sep, b);
      assert (a + [sep] + b)[1..] == a[1..] + [sep] + b;
      assert [a[0]] + a[1..] == a;
    }
  }

  // ---------------------------------------------------------------- in / replace / lower

  /** `sub in s` */
  predicate Contains(s: string, sub: string)
    decreases |s|
  {
    if |s| < |sub| then false else sub <= s || Contains(s[1..], sub)
  }

  /** `sub` occurring at any index of `s` is enough for `sub in s`. */
  lemma {:induction false} ContainsAt(s: string, sub: string, i: nat)
    requires i + |sub| <= |s| && sub <= s[i..]
    ensures Contains(s, sub)
    decreases i
  {
    if i == 0 {
      assert s[0..] == s;
    } else {
      assert s[1..][i - 1..] == s[i..];
      ContainsAt(s[1..], sub, i - 1);
    }
  }

  /** `s.replace(pat, rep)`: every non-overlapping occurrence, scanning left to right. */
  function Replace(s: string, pat: string, rep: string): string
    requires |pat| > 0
    decreases |s|
  {
    if s == [] then []
    else if pat <= s then rep + Replace(s[|pat|..], pat, rep)
    else [s[0]] + Replace(s[1..], pat, rep)
  }

  /** After replacing a one-character pattern by nothing, that character no longer occurs. */
  lemma {:induction false} ReplaceRemovesChar(s: string, c: char)
    ensures forall i :: 0 <= i < |Replace(s, [c], "")| ==> Replace(s, [c], "")[i] != c
    decreases |s|
  {
    if s != [] {
      ReplaceRemovesChar(s[1..], c);
      if [c] <= s {
        assert Replace(s, [c], "") == Replace(s[1..], [c], "");
      } else {
        var r := Replace(s[1..], [c], "");
        assert Replace(s, [c], "") == [s[0]] + r;
        forall i | 0 <= i < |[s[0]] + r| ensures ([s[0]] + r)[i] != c {
          if i > 0 { assert ([s[0]] + r)[i] == r[i - 1]; }
        }
      }
    }
  }

  /** Replacing a pattern that does not occur changes nothing. */
  lemma {:induction false} ReplaceAbsent(s: string, pat: string, rep: string)
    requires |pat| > 0 && !Contains(s, pat)
    ensures Replace(s, pat, rep) == s
    decreases |s|
  {
    if s != [] {
      assert !(pat <= s);
      if |s| >= |pat| {
        ReplaceAbsent(s[1..], pat, rep);
      } else {
        assert !Contains(s[1..], pat);
        ReplaceAbsent(s[1..], pat, rep);
      }
    }
  }

  function LowerChar(c: char): char {
    if 'A' <= c <= 'Z' then (c as int + 32) as char else c
  }

  /** `s.lower()` (ASCII letters only). */
  function Lower(s: string): (r: string)
    ensures |r| == |s|
  {
    seq(|s|, i requires 0 <= i < |s| => LowerChar(s[i]))
  }

  // ---------------------------------------------------------------- regular expressions

  /** Length of the longest prefix of `s` made of digits. */
  function DigitRunLen(s: string): (n: nat)
    ensures n <= |s|
    ensures forall i :: 0 <= i < n ==> IsDigit(s[i])
    ensures n < |s| ==> !IsDigit(s[n])
  {
    if s == [] || !IsDigit(s[0]) then 0 else 1 + DigitRunLen(s[1..])
  }

  /** `re.search(r'\d+', s).group()`, or None when `s` holds no digit. */
  function FirstDigitRun(s: string): Option<string> {
    if s == [] then None
    else if IsDigit(s[0]) then Some(s[..DigitRunLen(s)])
    else FirstDigitRun(s[1..])
  }

  predicate HasDigit(s: string) {
    exists i :: 0 <= i < |s| && IsDigit(s[i])
  }

  /** The first digit run exists exactly when the text holds a digit, and it is a non-empty run of digits. */
  lemma {:induction false} FirstDigitRunSpec(s: string)
    ensures FirstDigitRun(s).Some? <==> HasDigit(s)
    ensures FirstDigitRun(s).Some? ==> |FirstDigitRun(s).value| > 0
    ensures FirstDigitRun(s).Some? ==> forall i :: 0 <= i < |FirstDigitRun(s).value| ==> IsDigit(FirstDigitRun(s).value[i])
    decreases |s|
  {
    if s != [] && !IsDigit(s[0]) {
      FirstDigitRunSpec(s[1..]);
      if HasDigit(s) {
        var i :| 0 <= i < |s| && IsDigit(s[i]);
        assert IsDigit(s[1..][i - 1]);
      }
      if HasDigit(s[1..]) {
        var i :| 0 <= i < |s[1..]| && IsDigit(s[1..][i]);
        assert IsDigit(s[i + 1]);
      }
    }
  }

  // ---------------------------------------------------------------- numbers

  function DigitChar(d: nat): char
    requires d < 10
  {
    ('0' as int + d) as char
  }

  /** `str(n)` for a natural number. */
  function NatToString(n: nat): (r: string)
    ensures |r| > 0
    ensures forall i :: 0 <= i < |r| ==> IsDigit(r[i])
  {
    if n < 10 then [DigitChar(n)] else NatToString(n / 10) + [DigitChar(n % 10)]
  }

  /** `str(n)` for any integer. */
  function IntToString(n: int): string {
    if n < 0 then "-" + NatToString(-n) else NatToString(n)
  }

  /** The body accepted by Python's `int()` after the sign: digits, single underscores between digits. */
  predicate IsDigitBody(s: string) {
    && |s| > 0 && IsDigit(s[0]) && IsDigit(s[|s| - 1])
    && forall i :: 0 <= i < |s| ==> IsDigit(s[i]) || (s[i] == '_' && i + 1 < |s| && IsDigit(s[i + 1]))
  }

  /** The value of a digit body, underscores ignored. */
  function BodyValue(s: string): nat {
    if s == [] then 0
    else if s[|s| - 1] == '_' then BodyValue(s[..|s| - 1])
    else if IsDigit(s[|s| - 1]) then 10 * BodyValue(s[..|s| - 1]) + DigitValue(s[|s| - 1])
    else 0
  }

  /** `int(s)` in base 10: surrounding whitespace, an optional sign, then a digit body; None where Python raises ValueError. */
  function ParseInt(s: string): Option<int> {
    ParseSigned(Strip(s))
  }

  /** `int(t)` for a string with no surrounding whitespace. */
  function ParseSigned(t: string): Option<int> {
    if |t| > 0 && (t[0] == '+' || t[0] == '-') then
      if IsDigitBody(t[1..]) then Some(if t[0] == '-' then 0 - BodyValue(t[1..]) as int else BodyValue(t[1..])) else None
    else if IsDigitBody(t) then Some(BodyValue(t))
    else None
  }

  lemma {:induction false} BodyValueOfNat(n: nat)
    ensures BodyValue(NatToString(n)) == n
  {
    if n >= 10 {
      BodyValueOfNat(n / 10);
      var r := NatToString(n);
      assert r[..|r| - 1] == NatToString(n / 10);
    }
  }

  /** Python's `int(str(n)) == n`: decimal formatting and parsing are inverse. */
  lemma ParseIntOfNat(n: nat)
    ensures ParseInt(NatToString(n)) == Some(n as int)
  {
    SignedOfNat(n);
    StripDigits(NatToString(n));
  }

  lemma SignedOfNat(n: nat)
    ensures ParseSigned(NatToString(n)) == Some(n as int)
  {
    DigitsParse(NatToString(n));
    BodyValueOfNat(n);
  }

  /** A run of digits parses to its value. */
  lemma DigitsParse(r: string)
    requires |r| > 0 && forall i :: 0 <= i < |r| ==> IsDigit(r[i])
    ensures ParseSigned(r) == Some(BodyValue(r) as int)
  {
    assert IsDigit(r[0]);
    assert IsDigitBody(r);
  }

  /** Stripping leaves a run of digits alone. */
  lemma StripDigits(r: string)
    requires |r| > 0 && forall i :: 0 <= i < |r| ==> IsDigit(r[i])
    ensures Strip(r) == r
  {
    assert !IsSpace(r[0]) by { assert IsDigit(r[0]); }
    assert !IsSpace(r[|r| - 1]) by { assert IsDigit(r[|r| - 1]); }
    assert TrimLeft(r) == r;
    assert TrimRight(r) == r;
  }

  // ---------------------------------------------------------------- sorted()

  /** Python's `<` on `str`: lexicographic by code point. */
  predicate Less(a: string, b: string)
    decreases |a|
  {
    if |a| == 0 then |b| > 0
    else if |b| == 0 then false
    else if a[0] != b[0] then a[0] < b[0]
    else Less(a[1..], b[1..])
  }

  lemma {:induction false} LessIrreflexive(a: string)
    ensures !Less(a, a)
    decreases |a|
  {
    if |a| > 0 { LessIrreflexive(a[1..]); }
  }

  lemma {:induction false} LessTransitive(a: string, b: string, c: string)
    requires Less(a, b) && Less(b, c)
    ensures Less(a, c)
    decreases |a|
  {
    if |a| > 0 && a[0] == b[0] && b[0] == c[0] {
      LessTransitive(a[1..], b[1..], c[1..]);
    }
  }

  lemma {:induction false} LessTotal(a: string, b: string)
    requires a != b
    ensures Less(a, b) || Less(b, a)
    decreases |a|
  {
    if |a| > 0 && |b| > 0 && a[0] == b[0] {
      assert a == [a[0]] + a[1..] && b == [b[0]] + b[1..];
      LessTotal(a[1..], b[1..]);
    }
  }

  /** Strictly ascending under Python's string order (hence also free of duplicates). */
  predicate StrictlySorted(r: seq<string>) {
    forall i, j :: 0 <= i < j < |r| ==> Less(r[i], r[j])
  }

  /** `r` lists exactly the members of `s`, ascending: what `sorted(list(s))` returns. */
  ghost predicate SortedListOf(r: seq<string>, s: set<string>) {
    StrictlySorted(r) && forall x :: x in r <==> x in s
  }

  method InsertSorted(r: seq<string>, x: string) returns (r': seq<string>)
    requires StrictlySorted(r) && x !in r
    ensures StrictlySorted(r')
    ensures forall y :: y in r' <==> y in r || y == x
  {
    var i := 0;
    while i < |r| && Less(r[i], x)
      invariant 0 <= i <= |r|
      invariant forall j :: 0 <= j < i ==> Less(r[j], x)
    {
      i := i + 1;
    }
    if i < |r| {
      assert r[i] != x;
      LessTotal(r[i], x);
      forall j | i <= j < |r| ensures Less(x, r[j]) {
        if j > i { LessTransitive(x, r[i], r[j]); }
      }
    }
    r' := r[..i] + [x] + r[i..];
    forall a, b | 0 <= a < b < |r'| ensures Less(r'[a], r'[b]) {
      if a < i && b == i {
      } else if a < i && b > i {
        assert r'[b] == r[b - 1];
      } else if a == i {
        assert r'[b] == r[b - 1];
      } else if a > i {
        assert r'[a] == r[a - 1] && r'[b] == r[b - 1];
      }
    }
    assert forall y :: y in r' <==> y in r[..i] || y == x || y in r[i..];
    assert r == r[..i] + r[i..];
  }

  /** `sorted(list(s))` */
  method SortedNames(s: set<string>) returns (r: seq<string>)
    ensures SortedListOf(r, s)
  {
    r := [];
    var rest := s;
    while rest != {}
      invariant rest <= s
      invariant StrictlySorted(r)
      invariant forall x :: x in r <==> x in s && x !in rest
      decreases |rest|
    {
      var x :| x in rest;
      r := InsertSorted(r, x);
      rest := rest - {x};
    }
  }

  lemma LessAsymmetric(a: string, b: string)
    requires Less(a, b)
    ensures !Less(b, a)
  {
    if Less(b, a) {
      LessTransitive(a, b, a);
      LessIrreflexive(a);
    }
  }

  /** A sorted listing has as many entries as the set has members. */
  lemma {:induction false} SortedListSize(r: seq<string>, s: set<string>)
    requires SortedListOf(r, s)
    ensures |r| == |s|
    decreases |r|
  {
    if r == [] {
      assert s == {};
    } else {
      var s' := s - {r[0]};
      LessIrreflexive(r[0]);
      forall x ensures x in r[1..] <==> x in s' {
        if x in r[1..] {
          var k :| 1 <= k < |r| && r[k] == x;
          assert Less(r[0], r[k]);
        }
        if x in s' {
          var k :| 0 <= k < |r| && r[k] == x;
          assert k != 0;
          assert r[1..][k - 1] == x;
        }
      }
      SortedListSize(r[1..], s');
    }
  }

  /** The head of a sorted listing precedes every other member of the set. */
  lemma SortedHeadIsLeast(r: seq<string>, s: set<string>, x: string)
    requires SortedListOf(r, s) && r != [] && x in s && x != r[0]
    ensures Less(r[0], x)
  {
    var k :| 0 <= k < |r| && r[k] == x;
  }

  /** A sorted listing of a set is unique: `sorted` is deterministic. */
  lemma {:induction false} SortedListUnique(r1: seq<string>, r2: seq<string>, s: set<string>)
    requires SortedListOf(r1, s) && SortedListOf(r2, s)
    ensures r1 == r2
    decreases |r1|
  {
    SortedListSize(r1, s);
    SortedListSize(r2, s);
    if r1 != [] {
      if r1[0] != r2[0] {
        SortedHeadIsLeast(r1, s, r2[0]);
        SortedHeadIsLeast(r2, s, r1[0]);
        LessAsymmetric(r1[0], r2[0]);
      }
      var s' := s - {r1[0]};
      LessIrreflexive(r1[0]);
      forall x ensures x in r1[1..] <==> x in s' {
        if x in r1[1..] {
          var k :| 1 <= k < |r1| && r1[k] == x;
          assert Less(r1[0], r1[k]);
        }
        if x in s' {
          var k :| 0 <= k < |r1| && r1[k] == x;
          assert k != 0;
          assert r1[1..][k - 1] == x;
        }
      }
      forall x ensures x in r2[1..] <==> x in s' {
        if x in r2[1..] {
          var k :| 1 <= k < |r2| && r2[k] == x;
          assert Less(r2[0], r2[k]);
        }
        if x in s' {
          var k :| 0 <= k < |r2| && r2[k] == x;
          assert k != 0;
          assert r2[1..][k - 1] == x;
        }
      }
      SortedListUnique(r1[1..], r2[1..], s');
    }
  }
}
