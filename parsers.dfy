/**
 * Line parsers for router command output: the class statistics printed by
 * `tc -s class show` and the established TCP connections printed by `ss -tn`,
 * plus the interface-to-client lookup. The regular expressions of the source
 * are written out as functions over positions, with Python's greedy,
 * backtracking semantics made explicit.
 */
module Parsers {
  import opened Wrappers
  import opened Text

  // ---------------------------------------------------------------- positions

  /** `p` occurs in `s` starting at index `i`. */
  predicate At(s: string, i: nat, p: string) {
    i <= |s| && p <= s[i..]
  }

  /** Which characters a greedy run takes: `\S+`, `\d+`, `\w+` or `[\d:]+`. */
  datatype RunKind = NonSpace | Digits | Word | ClassIdChars

  predicate InRun(kind: RunKind, c: char) {
    match kind
    case NonSpace => !IsSpace(c)
    case Digits => IsDigit(c)
    case Word => IsWordChar(c)
    case ClassIdChars => IsDigit(c) || c == ':'
  }

  /** Length of the longest prefix of `s` made of run characters. */
  function RunLen(s: string, kind: RunKind): (n: nat)
    ensures n <= |s|
  {
    if s == [] || !InRun(kind, s[0]) then 0 else 1 + RunLen(s[1..], kind)
  }

  /** The prefix `RunLen` measures is made of run characters and stops at the first other one. */
  lemma {:induction false} RunLenMaximal(s: string, kind: RunKind)
    ensures forall i :: 0 <= i < RunLen(s, kind) ==> InRun(kind, s[i])
    ensures RunLen(s, kind) < |s| ==> !InRun(kind, s[RunLen(s, kind)])
  {
    if s != [] && InRun(kind, s[0]) {
      RunLenMaximal(s[1..], kind);
      assert forall i :: 1 <= i < RunLen(s, kind) ==> s[i] == s[1..][i - 1];
    }
  }

  /** The greedy run starting at `i`, or None when it would be empty. */
  function RunAt(s: string, i: nat, kind: RunKind): (r: Option<string>)
    ensures r.Some? ==> 0 < |r.value| && i + |r.value| <= |s|
  {
    if i < |s| && InRun(kind, s[i]) then Some(s[i..i + RunLen(s[i..], kind)]) else None
  }

  /** The run is the maximal stretch of run characters starting at `i`. */
  lemma RunAtSpec(s: string, i: nat, kind: RunKind)
    ensures var r := RunAt(s, i, kind);
      && (r.None? <==> !(i < |s| && InRun(kind, s[i])))
      && (r.Some? ==> r.value == s[i..i + |r.value|] && forall k :: 0 <= k < |r.value| ==> InRun(kind, r.value[k]))
      && (r.Some? && i + |r.value| < |s| ==> !InRun(kind, s[i + |r.value|]))
  {
    if i < |s| && InRun(kind, s[i]) {
      var n := RunLen(s[i..], kind);
      RunLenMaximal(s[i..], kind);
      assert forall k :: 0 <= k < n ==> s[i..i + n][k] == s[i..][k];
    }
  }

  /** A run followed by a character outside the run has exactly the run's length. */
  lemma {:induction false} RunLenOf(body: string, rest: string, kind: RunKind)
    requires forall i :: 0 <= i < |body| ==> InRun(kind, body[i])
    requires rest == [] || !InRun(kind, rest[0])
    ensures RunLen(body + rest, kind) == |body|
  {
    if body != [] {
      assert (body + rest)[1..] == body[1..] + rest;
      RunLenOf(body[1..], rest, kind);
    }
  }

  /** `kw` followed by a non-empty run occurs at `p`. */
  predicate KeywordRunAt(s: string, kw: string, p: nat, kind: RunKind) {
    At(s, p, kw) && RunAt(s, p + |kw|, kind).Some?
  }

  /** Where `kw` followed by a non-empty run occurs: one mark per position `0..|s|`. */
  function KeywordMarks(s: string, kw: string, kind: RunKind): (marks: seq<bool>)
    ensures |marks| == |s| + 1
  {
    seq(|s| + 1, p requires 0 <= p <= |s| => KeywordRunAt(s, kw, p, kind))
  }

  /** The greatest marked position in `[lo, q]`. */
  function LastMarked(marks: seq<bool>, lo: nat, q: int): (r: Option<nat>)
    requires q < |marks|
    ensures r.Some? ==> lo <= r.value <= q && marks[r.value]
    decreases q
  {
    if q < lo then None
    else if marks[q] then Some(q)
    else LastMarked(marks, lo, q - 1)
  }

  /** Greedy choice: every marked position in range is at or before the one chosen, and None means none is marked. */
  lemma {:induction false} LastMarkedGreatest(marks: seq<bool>, lo: nat, q: int)
    requires q < |marks|
    ensures var r := LastMarked(marks, lo, q);
      forall p: nat :: lo <= p <= q && marks[p] ==> r.Some? && p <= r.value
    decreases q
  {
    if q >= lo && !marks[q] {
      LastMarkedGreatest(marks, lo, q - 1);
    }
  }

  /** The search settles on `p` when `p` is marked and nothing after it up to `q` is. */
  lemma {:induction false} LastMarkedIs(marks: seq<bool>, lo: nat, p: nat, q: int)
    requires lo <= p <= q < |marks| && marks[p]
    requires forall i :: p < i <= q ==> !marks[i]
    ensures LastMarked(marks, lo, q) == Some(p)
    decreases q
  {
    if q > p {
      LastMarkedIs(marks, lo, p, q - 1);
    }
  }

  /**
   * What a greedy `.*` followed by `kw` and a run finds from `lo`: the
   * greatest position where `kw` and a non-empty run occur.
   */
  function LastKeyword(s: string, kw: string, kind: RunKind, lo: nat): (r: Option<nat>)
    ensures r.Some? ==> lo <= r.value <= |s| && KeywordRunAt(s, kw, r.value, kind)
  {
    LastMarked(KeywordMarks(s, kw, kind), lo, |s|)
  }

  /** The run after the last occurrence of `kw` at or after `lo` that has one. */
  function RunAfterLast(s: string, kw: string, kind: RunKind, lo: nat): Option<string> {
    match LastKeyword(s, kw, kind, lo)
    case Some(p) => RunAt(s, p + |kw|, kind)
    case None => None
  }

  // ---------------------------------------------------------------- tc -s class show

  /** The fields `re.match(r'class (\w+) ([\d:]+) .* rate (\S+)(?: ceil (\S+))?', line)` captures. */
  datatype ClassHeader = ClassHeader(kind: string, classId: string, rate: string, ceil: string)

  /** The four counters of a `Sent` line. */
  datatype Counters = Counters(bytes: nat, packets: nat, drops: nat, overlimits: nat)

  /** One parsed class: its header and its counters, which start at zero. */
  datatype ClassStats = ClassStats(header: ClassHeader, counters: Counters)

  const NoCounters := Counters(0, 0, 0, 0)

  /** The class-header pattern, anchored at the start of the line: the kind and id, then the rate and ceil after them. */
  function ParseClassHeader(line: string): Option<ClassHeader> {
    match HeaderIds(line)
    case None => None
    case Some((kind, classId, lo)) =>
      match RateAndCeil(line, lo)
      case None => None
      case Some((rate, ceil)) => Some(ClassHeader(kind, classId, rate, ceil))
  }

  /**
   * `class (\w+) ([\d:]+) ` at the start of the line, with the position
   * after it. Both runs are maximal: a shorter run would leave a run
   * character where the following space must be.
   */
  function HeaderIds(line: string): Option<(string, string, nat)> {
    if !At(line, 0, "class ") then None
    else
      var k := RunLen(line[6..], Word);
      if k == 0 || !At(line, 6 + k, " ") then None
      else
        var c := 7 + k;
        var m := RunLen(line[c..], ClassIdChars);
        if m == 0 || !At(line, c + m, " ") then None
        else Some((line[6..6 + k], line[c..c + m], c + m + 1))
  }

  /**
   * `.* rate (\S+)(?: ceil (\S+))?` from `lo`: `.*` is greedy, so the rate is
   * the token after the LAST " rate " that has one; the optional ceil group
   * is tried right after that token, and when it is absent the ceil is the
   * rate (`group(4) or group(3)`).
   */
  function RateAndCeil(line: string, lo: nat): Option<(string, string)> {
    match LastKeyword(line, " rate ", NonSpace, lo)
    case None => None
    case Some(q) =>
      match RunAt(line, q + 6, NonSpace)
      case None => None
      case Some(rate) =>
        var e := q + 6 + |rate|;
        var ceil := if At(line, e, " ceil ") then RunAt(line, e + 6, NonSpace) else None;
        Some((rate, ceil.GetOr(rate)))
  }

  /** The header prefix: kind and id are the maximal runs after "class ", and the pattern goes on right after them. */
  lemma HeaderPrefix(kind: string, classId: string, rest: string)
    requires |kind| > 0 && forall i :: 0 <= i < |kind| ==> InRun(Word, kind[i])
    requires |classId| > 0 && forall i :: 0 <= i < |classId| ==> InRun(ClassIdChars, classId[i])
    ensures HeaderIds("class " + kind + (" " + classId + (" " + rest))) == Some((kind, classId, |kind| + |classId| + 8))
  {
    var line := "class " + kind + (" " + classId + (" " + rest));
    var k, m := |kind|, |classId|;
    HeaderKind(kind, " " + classId + (" " + rest));
    HeaderClassId(line, 7 + k, classId, rest);
    HeaderIdsAt(line, k, m);
  }

  /** Where the class id and a space start at `p`, the id is the maximal run of digits and colons there. */
  lemma HeaderClassId(line: string, p: nat, classId: string, rest: string)
    requires |classId| > 0 && forall i :: 0 <= i < |classId| ==> InRun(ClassIdChars, classId[i])
    requires p <= |line| && line[p..] == classId + (" " + rest)
    ensures RunLen(line[p..], ClassIdChars) == |classId| && At(line, p + |classId|, " ")
    ensures line[p..p + |classId|] == classId
  {
    var t, m := line[p..], |classId|;
    RunLenOf(classId, " " + rest, ClassIdChars);
    assert t[..m] == classId && t[m] == ' ';
    assert line[p..p + m] == t[..m];
    assert line[p + m] == t[m];
  }

  /** After "class ", the kind is the maximal word run, followed by a space and then the rest of `tail`. */
  lemma HeaderKind(kind: string, tail: string)
    requires |kind| > 0 && forall i :: 0 <= i < |kind| ==> InRun(Word, kind[i])
    requires |tail| > 0 && tail[0] == ' '
    ensures var line := "class " + kind + tail;
      && At(line, 0, "class ") && RunLen(line[6..], Word) == |kind| && At(line, 6 + |kind|, " ")
      && line[6..6 + |kind|] == kind && line[7 + |kind|..] == tail[1..]
  {
    var line := "class " + kind + tail;
    assert line[6..] == kind + tail;
    RunLenOf(kind, tail, Word);
    assert line[6 + |kind|..] == tail;
  }

  /** Where both runs and their spaces are in place, the header reads them. */
  lemma HeaderIdsAt(line: string, k: nat, m: nat)
    requires At(line, 0, "class ") && 6 + k <= |line| && RunLen(line[6..], Word) == k > 0 && At(line, 6 + k, " ")
    requires 7 + k <= |line| && RunLen(line[7 + k..], ClassIdChars) == m > 0 && At(line, 7 + k + m, " ")
    ensures HeaderIds(line) == Some((line[6..6 + k], line[7 + k..7 + k + m], 8 + k + m))
  {
  }

  /** A token followed by whitespace or the end of the line is the greedy `\S+` run there. */
  lemma TokenRunAt(line: string, i: nat, tok: string, rest: string)
    requires IsToken(tok) && i <= |line| && line[i..] == tok + rest
    requires rest == [] || IsSpace(rest[0])
    ensures RunAt(line, i, NonSpace) == Some(tok)
  {
    RunIs(line, i, tok, rest, NonSpace);
  }

  /** A non-empty run followed by a character outside the run, or by the end, is the greedy run there. */
  lemma RunIs(line: string, i: nat, run: string, rest: string, kind: RunKind)
    requires i <= |line| && line[i..] == run + rest
    requires |run| > 0 && forall k :: 0 <= k < |run| ==> InRun(kind, run[k])
    requires rest == [] || !InRun(kind, rest[0])
    ensures RunAt(line, i, kind) == Some(run)
  {
    RunLenOf(run, rest, kind);
    assert line[i..i + |run|] == (run + rest)[..|run|] == run;
  }

  /** The greedy search for " rate " and a token settles on `q` when none occurs after it. */
  lemma LastRateAt(line: string, lo: nat, q: nat, rate: string, rest: string)
    requires IsToken(rate) && lo <= q <= |line|
    requires line[q..] == " rate " + rate + rest
    requires rest == [] || IsSpace(rest[0])
    requires forall p :: q < p <= |line| ==> !KeywordRunAt(line, " rate ", p, NonSpace)
    ensures LastKeyword(line, " rate ", NonSpace, lo) == Some(q)
    ensures RunAt(line, q + 6, NonSpace) == Some(rate)
  {
    assert line[q + 6..] == rate + rest;
    TokenRunAt(line, q + 6, rate, rest);
    assert At(line, q, " rate ");
    var marks := KeywordMarks(line, " rate ", NonSpace);
    assert marks[q];
    LastMarkedIs(marks, lo, q, |line|);
  }

  /**
   * A header whose last " rate " with a token is at `q`, and whose token is
   * not followed by " ceil " and a token, yields that token as both rate and
   * ceil, whatever fields (such as " burst 1600b") come after it.
   */
  lemma RateWithoutCeil(line: string, lo: nat, q: nat, rate: string, rest: string)
    requires IsToken(rate) && lo <= q <= |line|
    requires line[q..] == " rate " + rate + rest
    requires rest == [] || IsSpace(rest[0])
    requires !(At(rest, 0, " ceil ") && RunAt(rest, 6, NonSpace).Some?)
    requires forall p :: q < p <= |line| ==> !KeywordRunAt(line, " rate ", p, NonSpace)
    ensures RateAndCeil(line, lo) == Some((rate, rate))
  {
    LastRateAt(line, lo, q, rate, rest);
    var e := q + 6 + |rate|;
    assert line[e..] == rest;
    if At(line, e, " ceil ") {
      assert At(rest, 0, " ceil ");
      assert line[e + 6..] == rest[6..];
      assert RunAt(line, e + 6, NonSpace) == RunAt(rest, 6, NonSpace) by {
        if e + 6 < |line| {
          assert line[e + 6] == rest[6];
        }
      }
    }
  }

  /** Where `a + b` occurs at `i`, `a` occurs at `i` and `b` right after it. */
  lemma AtThen(s: string, i: nat, a: string, b: string)
    requires i <= |s| && s[i..] == a + b
    ensures At(s, i, a) && i + |a| <= |s| && s[i + |a|..] == b
  {
    assert s[i..][..|a|] == a;
    assert s[i + |a|..] == s[i..][|a|..];
  }

  /** A header whose last " rate " token is followed by " ceil " and a token yields both tokens. */
  lemma RateWithCeil(line: string, lo: nat, q: nat, rate: string, ceil: string, rest: string)
    requires IsToken(rate) && IsToken(ceil) && lo <= q <= |line|
    requires line[q..] == " rate " + rate + (" ceil " + (ceil + rest))
    requires rest == [] || IsSpace(rest[0])
    requires forall p :: q < p <= |line| ==> !KeywordRunAt(line, " rate ", p, NonSpace)
    ensures RateAndCeil(line, lo) == Some((rate, ceil))
  {
    var after := " ceil " + (ceil + rest);
    assert after[0] == ' ';
    LastRateAt(line, lo, q, rate, after);
    CeilAfterRate(line, q, rate, ceil, rest);
    CeilFound(line, lo, q, rate, ceil);
  }

  /** " ceil " and a token right after the rate token: the optional group matches that token. */
  lemma CeilAfterRate(line: string, q: nat, rate: string, ceil: string, rest: string)
    requires IsToken(ceil) && q <= |line|
    requires line[q..] == " rate " + rate + (" ceil " + (ceil + rest))
    requires rest == [] || IsSpace(rest[0])
    ensures At(line, q + 6 + |rate|, " ceil ") && RunAt(line, q + 12 + |rate|, NonSpace) == Some(ceil)
  {
    var e := q + 6 + |rate|;
    AtThen(line, q, " rate " + rate, " ceil " + (ceil + rest));
    AtThen(line, e, " ceil ", ceil + rest);
    TokenRunAt(line, e + 6, ceil, rest);
  }

  /** The pattern's groups once the search, the rate token and the ceil token are located. */
  lemma CeilFound(line: string, lo: nat, q: nat, rate: string, ceil: string)
    requires LastKeyword(line, " rate ", NonSpace, lo) == Some(q)
    requires RunAt(line, q + 6, NonSpace) == Some(rate)
    requires At(line, q + 6 + |rate|, " ceil ") && RunAt(line, q + 12 + |rate|, NonSpace) == Some(ceil)
    ensures RateAndCeil(line, lo) == Some((rate, ceil))
  {
  }

  /**
   * `re.search(r'Sent (\d+) bytes (\d+) pkt.*dropped (\d+).*overlimits (\d+)', line)`:
   * the pattern tried at every start position; the first start that matches
   * wins.
   */
  function ParseSent(line: string): Option<Counters> {
    FirstSome(seq(|line|, j requires 0 <= j < |line| => SentAt(line, j)), 0)
  }

  /** The statistics pattern anchored at `i`: "Sent " and the byte count. */
  function SentAt(line: string, i: nat): Option<Counters> {
    if !At(line, i, "Sent ") then None
    else
      match RunAt(line, i + 5, Digits)
      case None => None
      case Some(bytes) => SentAfterBytes(line, i + 5 + |bytes|, bytes)
  }

  /** The rest of the pattern after the byte count at `j`: " bytes " and the packet count. */
  function SentAfterBytes(line: string, j: nat, bytes: string): Option<Counters> {
    if !At(line, j, " bytes ") then None
    else
      match RunAt(line, j + 7, Digits)
      case None => None
      case Some(packets) => SentAfterPackets(line, j + 7 + |packets|, bytes, packets)
  }

  /** The rest of the pattern after the packet count at `k`: " pkt", then the drops and overlimits. */
  function SentAfterPackets(line: string, k: nat, bytes: string, packets: string): Option<Counters> {
    if !At(line, k, " pkt") then None
    else
      match LastDropped(line, k + 4, |line|)
      case None => None
      case Some((drops, overlimits)) =>
        Some(Counters(BodyValue(bytes), BodyValue(packets), BodyValue(drops), BodyValue(overlimits)))
  }

  /**
   * `.*dropped (\d+).*overlimits (\d+)` from `lo`: the greedy `.*` takes the
   * last "dropped " with digits that still has an "overlimits " with digits
   * after it, and the second `.*` the last such "overlimits ".
   */
  function LastDropped(line: string, lo: nat, q: int): (r: Option<(string, string)>)
    decreases q
  {
    if q < lo then None
    else if !At(line, q, "dropped ") then LastDropped(line, lo, q - 1)
    else
      match RunAt(line, q + 8, Digits)
      case Some(drops) =>
        (match RunAfterLast(line, "overlimits ", Digits, q + 8 + |drops|)
         case Some(overlimits) => Some((drops, overlimits))
         case None => LastDropped(line, lo, q - 1))
      case None => LastDropped(line, lo, q - 1)
  }

  /** A non-empty run of ASCII digits: what `(\d+)` captures. */
  predicate DigitRun(s: string) {
    |s| > 0 && forall k :: 0 <= k < |s| ==> IsDigit(s[k])
  }

  /** No `kw` followed by a non-empty run occurs anywhere in `s`. */
  predicate NoKeywordRun(s: string, kw: string, kind: RunKind) {
    forall p :: 0 <= p <= |s| ==> !KeywordRunAt(s, kw, p, kind)
  }

  /** `Sent <b> bytes <p> pkt (dropped <d>, overlimits <o>` followed by `rest`, as `tc -s class show` prints it. */
  function SentLine(b: string, p: string, d: string, o: string, rest: string): string {
    "Sent " + (b + (" bytes " + (p + (" pkt" + (" (" + DropsTail(d, o, rest))))))
  }

  /** The end of a `Sent` line from "dropped ": `dropped <d>, overlimits <o>` followed by `rest`. */
  function DropsTail(d: string, o: string, rest: string): string {
    "dropped " + (d + (", " + ("overlimits " + (o + rest))))
  }

  /** `kw` cannot occur at `i` when the character at `i + t` differs from `kw[t]`. */
  lemma NotAt(s: string, i: nat, kw: string, t: nat)
    requires t < |kw| && i + t < |s| && s[i + t] != kw[t]
    ensures !At(s, i, kw)
  {
    assert s[i..][t] == s[i + t];
  }

  /** Whether `kw` and a run occur at `r0 + t` is decided by the suffix from `r0` alone. */
  lemma KeywordRunShift(line: string, r0: nat, rest: string, kw: string, kind: RunKind, t: nat)
    requires r0 <= |line| && line[r0..] == rest && t <= |rest|
    ensures KeywordRunAt(line, kw, r0 + t, kind) == KeywordRunAt(rest, kw, t, kind)
  {
    assert line[r0 + t..] == rest[t..];
    if At(rest, t, kw) {
      var x := r0 + t + |kw|;
      assert line[x..] == rest[t + |kw|..];
      if x < |line| {
        assert line[x] == rest[t + |kw|];
        var n := RunLen(line[x..], kind);
        assert line[x..x + n] == rest[t + |kw|..t + |kw| + n];
      }
    }
  }

  /**
   * After "overlimits " and its digits at `qo`, with no "overlimits " and
   * digits in `rest`, the second greedy `.*` settles on `qo`.
   */
  lemma OverlimitsAt(line: string, lo: nat, qo: nat, o: string, rest: string)
    requires lo <= qo <= |line| && line[qo..] == "overlimits " + (o + rest)
    requires DigitRun(o) && (rest == [] || !IsDigit(rest[0]))
    requires NoKeywordRun(rest, "overlimits ", Digits)
    ensures RunAfterLast(line, "overlimits ", Digits, lo) == Some(o)
  {
    AtThen(line, qo, "overlimits ", o + rest);
    RunIs(line, qo + 11, o, rest, Digits);
    AtThen(line, qo + 11, o, rest);
    var r0 := qo + 11 + |o|;
    var marks := KeywordMarks(line, "overlimits ", Digits);
    assert marks[qo];
    forall p | qo < p <= |line|
      ensures !marks[p]
    {
      if p >= r0 {
        KeywordRunShift(line, r0, rest, "overlimits ", Digits, p - r0);
      } else {
        var s := line[qo..];
        assert line[p] == s[p - qo];
        if p - qo < 11 {
          assert s[p - qo] == "overlimits "[p - qo];
        } else {
          assert s[p - qo] == o[p - qo - 11];
        }
        NotAt(line, p, "overlimits ", 0);
      }
    }
    LastMarkedIs(marks, lo, qo, |line|);
  }

  /** After "dropped " and its digits at `qd`, no later "dropped " with digits occurs when `rest` has none. */
  lemma DroppedLast(line: string, qd: nat, d: string, o: string, rest: string)
    requires qd <= |line| && line[qd..] == DropsTail(d, o, rest)
    requires DigitRun(d) && DigitRun(o)
    requires NoKeywordRun(rest, "dropped ", Digits)
    ensures forall p :: qd < p <= |line| ==> !KeywordRunAt(line, "dropped ", p, Digits)
  {
    var s := line[qd..];
    var r0 := |line| - |rest|;
    assert line[r0..] == rest;
    forall p | qd < p <= |line|
      ensures !KeywordRunAt(line, "dropped ", p, Digits)
    {
      if p >= r0 {
        KeywordRunShift(line, r0, rest, "dropped ", Digits, p - r0);
      } else {
        var i := p - qd;
        assert line[p] == s[i];
        if i == 6 {
          assert line[p + 1] == s[7] == ' ';
          NotAt(line, p, "dropped ", 1);
        } else {
          DropsTailLetters(s, d, o, rest, i);
          NotAt(line, p, "dropped ", 0);
        }
      }
    }
  }

  /** Before `rest`, the end of a `Sent` line has a `d` only where its "dropped " starts and ends. */
  lemma DropsTailLetters(s: string, d: string, o: string, rest: string, i: nat)
    requires s == DropsTail(d, o, rest) && DigitRun(d) && DigitRun(o)
    requires 0 < i < |s| - |rest| && i != 6
    ensures s[i] != 'd'
  {
    var e := 8 + |d|;
    assert |s| == e + 13 + |o| + |rest|;
    if i < 8 {
      if i == 1 {
        assert s[1] == 'r';
      } else if i == 2 {
        assert s[2] == 'o';
      } else if i == 3 {
        assert s[3] == 'p';
      } else if i == 4 {
        assert s[4] == 'p';
      } else if i == 5 {
        assert s[5] == 'e';
      } else {
        assert s[7] == ' ';
      }
    } else if i < e {
      assert s[i] == d[i - 8] && IsDigit(d[i - 8]);
    } else if i < e + 2 {
      assert s[i] == ", "[i - e];
      CharNotIn(", ", 'd', i - e);
    } else if i < e + 13 {
      assert s[i] == "overlimits "[i - e - 2];
      CharNotIn("overlimits ", 'd', i - e - 2);
    } else {
      assert s[i] == o[i - e - 13] && IsDigit(o[i - e - 13]);
    }
  }

  /** The first greedy `.*` settles on the last "dropped " with digits that has an "overlimits " with digits after it. */
  lemma {:induction false} LastDroppedIs(line: string, lo: nat, qd: nat, q: int, d: string, o: string)
    requires lo <= qd <= q
    requires At(line, qd, "dropped ") && RunAt(line, qd + 8, Digits) == Some(d)
    requires RunAfterLast(line, "overlimits ", Digits, qd + 8 + |d|) == Some(o)
    requires forall p :: qd < p <= q ==> !KeywordRunAt(line, "dropped ", p, Digits)
    ensures LastDropped(line, lo, q) == Some((d, o))
    decreases q
  {
    if q > qd {
      assert !KeywordRunAt(line, "dropped ", q, Digits);
      LastDroppedIs(line, lo, qd, q - 1, d, o);
    }
  }

  /** From "dropped " at `qd`, `.*dropped (\d+).*overlimits (\d+)` searched from `lo` reads `d` and `o`. */
  lemma DroppedTail(line: string, lo: nat, qd: nat, d: string, o: string, rest: string)
    requires lo <= qd <= |line| && line[qd..] == DropsTail(d, o, rest)
    requires DigitRun(d) && DigitRun(o) && (rest == [] || !IsDigit(rest[0]))
    requires NoKeywordRun(rest, "dropped ", Digits) && NoKeywordRun(rest, "overlimits ", Digits)
    ensures LastDropped(line, lo, |line|) == Some((d, o))
  {
    DroppedLocated(line, qd, d, o, rest);
    DroppedLast(line, qd, d, o, rest);
    LastDroppedIs(line, lo, qd, |line|, d, o);
  }

  /** A character that does not occur in `s` is at no index of it. */
  lemma CharNotIn(s: string, c: char, t: nat)
    requires t < |s| && c !in s
    ensures s[t] != c
  {
  }

  /** At `qd` stand "dropped " and the drop count, and the last "overlimits " after them reads `o`. */
  lemma DroppedLocated(line: string, qd: nat, d: string, o: string, rest: string)
    requires qd <= |line| && line[qd..] == DropsTail(d, o, rest)
    requires DigitRun(d) && DigitRun(o) && (rest == [] || !IsDigit(rest[0]))
    requires NoKeywordRun(rest, "overlimits ", Digits)
    ensures At(line, qd, "dropped ") && RunAt(line, qd + 8, Digits) == Some(d)
    ensures RunAfterLast(line, "overlimits ", Digits, qd + 8 + |d|) == Some(o)
  {
    var x := ", " + ("overlimits " + (o + rest));
    AtThen(line, qd, "dropped ", d + x);
    RunIs(line, qd + 8, d, x, Digits);
    OverlimitsAfterDrops(line, qd, d, o, rest);
  }

  /** The last "overlimits " with digits after the drop count reads `o`. */
  lemma OverlimitsAfterDrops(line: string, qd: nat, d: string, o: string, rest: string)
    requires qd <= |line| && line[qd..] == DropsTail(d, o, rest)
    requires DigitRun(o) && (rest == [] || !IsDigit(rest[0]))
    requires NoKeywordRun(rest, "overlimits ", Digits)
    ensures RunAfterLast(line, "overlimits ", Digits, qd + 8 + |d|) == Some(o)
  {
    OverlimitsSlice(line, qd, d, o, rest);
    OverlimitsAt(line, qd + 8 + |d|, qd + 10 + |d|, o, rest);
  }

  /** Where the end of a `Sent` line starts at `qd`, "overlimits " starts `10 + |d|` after it. */
  lemma OverlimitsSlice(line: string, qd: nat, d: string, o: string, rest: string)
    requires qd <= |line| && line[qd..] == DropsTail(d, o, rest)
    ensures qd + 10 + |d| <= |line| && line[qd + 10 + |d|..] == "overlimits " + (o + rest)
  {
    var x := ", " + ("overlimits " + (o + rest));
    AtThen(line, qd, "dropped ", d + x);
    AtThen(line, qd + 8, d, x);
    AtThen(line, qd + 8 + |d|, ", ", "overlimits " + (o + rest));
  }

  /** From " pkt" at `k`, the rest of a `Sent` line holds the drops and overlimits. */
  lemma PacketsTail(line: string, k: nat, d: string, o: string, rest: string)
    requires k <= |line| && line[k..] == " pkt" + (" (" + DropsTail(d, o, rest))
    requires DigitRun(d) && DigitRun(o) && (rest == [] || !IsDigit(rest[0]))
    requires NoKeywordRun(rest, "dropped ", Digits) && NoKeywordRun(rest, "overlimits ", Digits)
    ensures At(line, k, " pkt") && LastDropped(line, k + 4, |line|) == Some((d, o))
  {
    var x := DropsTail(d, o, rest);
    AtThen(line, k, " pkt", " (" + x);
    AtThen(line, k + 4, " (", x);
    DroppedTail(line, k + 4, k + 6, d, o, rest);
  }

  /**
   * "Sent " and the byte count stand at `i`, " bytes " and the packet count
   * at `j`, and `x` follows them at `k`.
   */
  lemma SentHead(line: string, i: nat, j: nat, k: nat, b: string, p: string, x: string)
    requires i <= |line| && line[i..] == "Sent " + (b + (" bytes " + (p + x)))
    requires j == i + 5 + |b| && k == j + 7 + |p|
    requires DigitRun(b) && DigitRun(p) && |x| > 0 && !IsDigit(x[0])
    ensures At(line, i, "Sent ") && RunAt(line, i + 5, Digits) == Some(b)
    ensures At(line, j, " bytes ") && RunAt(line, j + 7, Digits) == Some(p)
    ensures k <= |line| && line[k..] == x
  {
    KeywordThenDigits(line, i, "Sent ", 5, b, " bytes " + (p + x));
    assert line[j..] == " bytes " + (p + x);
    KeywordThenDigits(line, j, " bytes ", 7, p, x);
  }

  /** `kw` (of length `n`) at `i`, then the digit run `run`, then `x`. */
  lemma KeywordThenDigits(line: string, i: nat, kw: string, n: nat, run: string, x: string)
    requires i <= |line| && line[i..] == kw + (run + x) && n == |kw|
    requires DigitRun(run) && |x| > 0 && !IsDigit(x[0])
    ensures At(line, i, kw) && RunAt(line, i + n, Digits) == Some(run)
    ensures i + n + |run| <= |line| && line[i + n + |run|..] == x
  {
    AtThen(line, i, kw, run + x);
    RunIs(line, i + n, run, x, Digits);
    AtThen(line, i + n, run, x);
  }

  /** The stages of the pattern found one after another at `i`, `j` and `k` give the counters. */
  lemma SentAssembled(line: string, i: nat, j: nat, k: nat, b: string, p: string, d: string, o: string)
    requires j == i + 5 + |b| && k == j + 7 + |p|
    requires At(line, i, "Sent ") && RunAt(line, i + 5, Digits) == Some(b)
    requires At(line, j, " bytes ") && RunAt(line, j + 7, Digits) == Some(p)
    requires At(line, k, " pkt") && LastDropped(line, k + 4, |line|) == Some((d, o))
    ensures SentAt(line, i) == Some(Counters(BodyValue(b), BodyValue(p), BodyValue(d), BodyValue(o)))
  {
    var c := Counters(BodyValue(b), BodyValue(p), BodyValue(d), BodyValue(o));
    PacketsFound(line, k, b, p, d, o);
    BytesFound(line, j, b, p, c);
    SentStart(line, i, b, c);
  }

  /** After the packet count, " pkt" and the drops and overlimits complete the counters. */
  lemma PacketsFound(line: string, k: nat, b: string, p: string, d: string, o: string)
    requires At(line, k, " pkt")
    requires LastDropped(line, k + 4, |line|) == Some((d, o))
    ensures SentAfterPackets(line, k, b, p) == Some(Counters(BodyValue(b), BodyValue(p), BodyValue(d), BodyValue(o)))
  {
  }

  /** After the byte count, " bytes " and the packet count lead on to the rest of the pattern. */
  lemma BytesFound(line: string, j: nat, b: string, p: string, c: Counters)
    requires At(line, j, " bytes ") && RunAt(line, j + 7, Digits) == Some(p)
    requires SentAfterPackets(line, j + 7 + |p|, b, p) == Some(c)
    ensures SentAfterBytes(line, j, b) == Some(c)
  {
  }

  /** "Sent " and the byte count lead on to the rest of the pattern. */
  lemma SentStart(line: string, i: nat, b: string, c: Counters)
    requires At(line, i, "Sent ") && RunAt(line, i + 5, Digits) == Some(b)
    requires SentAfterBytes(line, i + 5 + |b|, b) == Some(c)
    ensures SentAt(line, i) == Some(c)
  {
  }

  /**
   * The statistics pattern anchored at `i` on a `Sent` line reads the four
   * numbers printed there, provided nothing after them repeats "dropped " or
   * "overlimits " with digits (the greedy `.*` would move on to those).
   */
  lemma SentAtLine(line: string, i: nat, b: string, p: string, d: string, o: string, rest: string)
    requires i <= |line| && line[i..] == SentLine(b, p, d, o, rest)
    requires DigitRun(b) && DigitRun(p) && DigitRun(d) && DigitRun(o)
    requires rest == [] || !IsDigit(rest[0])
    requires NoKeywordRun(rest, "dropped ", Digits) && NoKeywordRun(rest, "overlimits ", Digits)
    ensures SentAt(line, i) == Some(Counters(BodyValue(b), BodyValue(p), BodyValue(d), BodyValue(o)))
  {
    var x := " pkt" + (" (" + DropsTail(d, o, rest));
    var j := i + 5 + |b|;
    var k := j + 7 + |p|;
    SentHead(line, i, j, k, b, p, x);
    PacketsTail(line, k, d, o, rest);
    SentAssembled(line, i, j, k, b, p, d, o);
  }

  /**
   * `re.search` finds the statistics at the first "Sent " of the line: the
   * counters are the numbers printed there.
   */
  lemma ParseSentLine(line: string, i: nat, b: string, p: string, d: string, o: string, rest: string)
    requires i <= |line| && line[i..] == SentLine(b, p, d, o, rest)
    requires forall j :: 0 <= j < i ==> SentAt(line, j).None?
    requires DigitRun(b) && DigitRun(p) && DigitRun(d) && DigitRun(o)
    requires rest == [] || !IsDigit(rest[0])
    requires NoKeywordRun(rest, "dropped ", Digits) && NoKeywordRun(rest, "overlimits ", Digits)
    ensures ParseSent(line) == Some(Counters(BodyValue(b), BodyValue(p), BodyValue(d), BodyValue(o)))
  {
    SentAtLine(line, i, b, p, d, o, rest);
    var ms := seq(|line|, j requires 0 <= j < |line| => SentAt(line, j));
    assert forall j :: 0 <= j < i ==> ms[j].None?;
    FirstSomeAt(ms, 0, i);
  }

  /** Printing the four counters in decimal and parsing the line gives them back. */
  lemma ParseSentRoundTrip(bytes: nat, packets: nat, drops: nat, overlimits: nat, rest: string)
    requires rest == [] || !IsDigit(rest[0])
    requires NoKeywordRun(rest, "dropped ", Digits) && NoKeywordRun(rest, "overlimits ", Digits)
    ensures ParseSent(SentLine(NatToString(bytes), NatToString(packets), NatToString(drops), NatToString(overlimits), rest))
      == Some(Counters(bytes, packets, drops, overlimits))
  {
    var line := SentLine(NatToString(bytes), NatToString(packets), NatToString(drops), NatToString(overlimits), rest);
    assert line[0..] == line;
    ParseSentLine(line, 0, NatToString(bytes), NatToString(packets), NatToString(drops), NatToString(overlimits), rest);
    BodyValueOfNat(bytes);
    BodyValueOfNat(packets);
    BodyValueOfNat(drops);
    BodyValueOfNat(overlimits);
  }

  /** A line without "Sent " followed by digits has no statistics. */
  lemma ParseSentNone(line: string)
    requires forall j :: 0 <= j <= |line| ==> !KeywordRunAt(line, "Sent ", j, Digits)
    ensures ParseSent(line) == None
  {
    var ms := seq(|line|, j requires 0 <= j < |line| => SentAt(line, j));
    forall j | 0 <= j < |line|
      ensures ms[j].None?
    {
      assert !KeywordRunAt(line, "Sent ", j, Digits);
    }
    FirstSomeLeftmost(ms, 0);
  }

  /** The scan of one more line is one more step. */
  lemma ScanSnoc(lines: seq<string>, i: nat)
    requires i < |lines|
    ensures ScanClasses(lines[..i + 1]) == ScanStep(ScanClasses(lines[..i]), lines[i])
  {
    assert lines[..i + 1][..i] == lines[..i];
  }

  /** `'Sent' in line` */
  predicate MentionsSent(line: string) {
    Contains(line, "Sent")
  }

  /**
   * One line of the scan, given what the line's patterns found: a class
   * header appends a fresh class; then, when some class is open and the line
   * mentions "Sent", matching statistics overwrite the counters of the most
   * recently opened class (the one the source keeps as `current_class`,
   * always the last one appended).
   */
  function ApplyLine(classes: seq<ClassStats>, header: Option<ClassHeader>, sent: bool, stats: Option<Counters>): seq<ClassStats> {
    var grown := if header.Some? then classes + [ClassStats(header.value, NoCounters)] else classes;
    if |grown| > 0 && sent && stats.Some? then grown[..|grown| - 1] + [grown[|grown| - 1].(counters := stats.value)]
    else grown
  }

  function ScanStep(classes: seq<ClassStats>, line: string): seq<ClassStats> {
    ApplyLine(classes, ParseClassHeader(line), MentionsSent(line), ParseSent(line))
  }

  /**
   * A `Sent` line that is not a class header sets the counters of the class
   * opened last to the four numbers printed on it, and nothing else changes.
   */
  lemma ScanSentLine(classes: seq<ClassStats>, line: string, i: nat, b: string, p: string, d: string, o: string, rest: string)
    requires classes != [] && !At(line, 0, "class ")
    requires i <= |line| && line[i..] == SentLine(b, p, d, o, rest)
    requires forall j :: 0 <= j < i ==> SentAt(line, j).None?
    requires DigitRun(b) && DigitRun(p) && DigitRun(d) && DigitRun(o)
    requires rest == [] || !IsDigit(rest[0])
    requires NoKeywordRun(rest, "dropped ", Digits) && NoKeywordRun(rest, "overlimits ", Digits)
    ensures ScanStep(classes, line)
      == classes[..|classes| - 1] + [classes[|classes| - 1].(counters := Counters(BodyValue(b), BodyValue(p), BodyValue(d), BodyValue(o)))]
  {
    ParseSentLine(line, i, b, p, d, o, rest);
    assert MentionsSent(line) by {
      assert line[i..][..4] == "Sent";
      ContainsAt(line, "Sent", i);
    }
    assert ParseClassHeader(line) == None;
  }

  /** The classes after scanning `lines` in order. */
  function ScanClasses(lines: seq<string>): seq<ClassStats> {
    if lines == [] then [] else ScanStep(ScanClasses(lines[..|lines| - 1]), lines[|lines| - 1])
  }

  /** The output split into lines the way the source does: `strip()` then `split('\n')`. */
  function OutputLines(output: string): (lines: seq<string>)
    ensures |lines| >= 1
  {
    SplitOn(Strip(output), '\n')
  }

  /** Parses `tc -s class show` output into one record per class header, in order. */
  method ParseTcClassStats(output: string) returns (classes: seq<ClassStats>)
    ensures classes == ScanClasses(OutputLines(output))
  {
    classes := ScanTcLines(OutputLines(output));
  }

  /** One line of `tc -s class show`: a header opens a class, a `Sent` line fills the current one. */
  method ScanTcLine(classes: seq<ClassStats>, current: bool, line: string) returns (next: seq<ClassStats>, current': bool)
    requires current <==> |classes| > 0
    ensures next == ScanStep(classes, line)
    ensures current' <==> |next| > 0
  {
    next := classes;
    current' := current;
    var header := ParseClassHeader(line);
    if header.Some? {
      next := next + [ClassStats(header.value, NoCounters)];
      current' := true;
    }
    var sent := MentionsSent(line);
    if current' && sent {
      var stats := ParseSent(line);
      if stats.Some? {
        next := next[..|next| - 1] + [next[|next| - 1].(counters := stats.value)];
      }
    }
  }

  /** The scan loop of `ParseTcClassStats` over the split lines. */
  method ScanTcLines(lines: seq<string>) returns (classes: seq<ClassStats>)
    ensures classes == ScanClasses(lines)
  {
    classes := [];
    var current := false;
    for i := 0 to |lines|
      invariant classes == ScanClasses(lines[..i])
      invariant current <==> |classes| > 0
    {
      ScanSnoc(lines, i);
      classes, current := ScanTcLine(classes, current, lines[i]);
    }
    assert lines[..|lines|] == lines;
  }

  /** The headers of the lines that are class headers, in order: an independent reference for the scan. */
  function Headers(lines: seq<string>): seq<ClassHeader> {
    if lines == [] then []
    else
      var last := ParseClassHeader(lines[|lines| - 1]);
      Headers(lines[..|lines| - 1]) + (if last.Some? then [last.value] else [])
  }

  /** Statistics never add or reorder classes: the scan has exactly one class per header line, in order. */
  lemma {:induction false} ScanHeaders(lines: seq<string>)
    ensures |ScanClasses(lines)| == |Headers(lines)|
    ensures forall k :: 0 <= k < |Headers(lines)| ==> ScanClasses(lines)[k].header == Headers(lines)[k]
  {
    if lines != [] {
      var init := lines[..|lines| - 1];
      ScanHeaders(init);
      var line := lines[|lines| - 1];
      StepHeaders(ScanClasses(init), ParseClassHeader(line), MentionsSent(line), ParseSent(line));
    }
  }

  /** One step keeps every header and appends the line's own header, if any. */
  lemma StepHeaders(prev: seq<ClassStats>, h: Option<ClassHeader>, sent: bool, stats: Option<Counters>)
    ensures var next := ApplyLine(prev, h, sent, stats);
      && |next| == |prev| + (if h.Some? then 1 else 0)
      && (forall k :: 0 <= k < |prev| ==> next[k].header == prev[k].header)
      && (h.Some? ==> next[|prev|].header == h.value)
  {
    var grown := if h.Some? then prev + [ClassStats(h.value, NoCounters)] else prev;
    assert forall k :: 0 <= k < |grown| ==> ApplyLine(prev, h, sent, stats)[k].header == grown[k].header;
  }

  /**
   * A line touches at most the last class: a header line appends one class
   * whose counters are zero unless the same line carries statistics; any
   * other line leaves every class but the last alone, and before the first
   * header it leaves the scan empty.
   */
  lemma ApplyLineLocal(classes: seq<ClassStats>, h: Option<ClassHeader>, sent: bool, stats: Option<Counters>)
    ensures var next := ApplyLine(classes, h, sent, stats);
      var counted := sent && stats.Some?;
      && (h.Some? ==>
            |next| == |classes| + 1 && next[..|classes|] == classes && next[|classes|].header == h.value
            && next[|classes|].counters == (if counted then stats.value else NoCounters))
      && (h.None? && classes != [] ==>
            |next| == |classes| && next[..|classes| - 1] == classes[..|classes| - 1]
            && next[|classes| - 1] == (if counted then classes[|classes| - 1].(counters := stats.value) else classes[|classes| - 1]))
      && (h.None? && classes == [] ==> next == [])
  {
    var grown := if h.Some? then classes + [ClassStats(h.value, NoCounters)] else classes;
    assert grown[..|classes|] == classes;
  }

  // ---------------------------------------------------------------- ss -tn

  /** One established TCP connection. */
  datatype Connection = Connection(protocol: string, state: string, local: string, remote: string)

  /** An address token with the IPv4-mapped prefix and closing brackets removed. */
  function CleanAddress(token: string): (r: string)
    ensures forall i :: 0 <= i < |r| ==> r[i] != ']'
  {
    ReplaceRemovesChar(Replace(token, "[::ffff:", ""), ']');
    Replace(Replace(token, "[::ffff:", ""), "]", "")
  }

  /** The record for a line of at least four tokens: the third and fourth tokens are the endpoints. */
  function ConnectionOf(parts: seq<string>): Connection
    requires |parts| >= 4
  {
    Connection(Tcp, Established, CleanAddress(parts[2]), CleanAddress(parts[3]))
  }

  /** Every record reports the same protocol and state. */
  const Tcp := "TCP"
  const Established := "ESTABLISHED"

  predicate HasEndpoints(line: string) {
    |Words(line)| >= 4
  }

  /** The records of `lines`, in order; lines with fewer than four tokens give none. */
  function ConnectionsOf(lines: seq<string>): seq<Connection> {
    if lines == [] then []
    else
      var line := lines[|lines| - 1];
      ConnectionsOf(lines[..|lines| - 1]) + (if HasEndpoints(line) then [ConnectionOf(Words(line))] else [])
  }

  /** Parses `ss -tn` output: one record per line with at least four tokens; blank output gives none. */
  method ParseConnections(output: string) returns (conns: seq<Connection>)
    ensures IsBlank(output) ==> conns == []
    ensures !IsBlank(output) ==> conns == ConnectionsOf(OutputLines(output))
  {
    if output == "" || IsBlank(output) {
      return [];
    }
    conns := ConnectionLines(OutputLines(output));
  }

  /** The loop of `ParseConnections` over the split lines. */
  method ConnectionLines(lines: seq<string>) returns (conns: seq<Connection>)
    ensures conns == ConnectionsOf(lines)
  {
    conns := [];
    for i := 0 to |lines|
      invariant conns == ConnectionsOf(lines[..i])
    {
      assert lines[..i + 1][..i] == lines[..i];
      var parts := Words(lines[i]);
      if |parts| >= 4 {
        conns := conns + [ConnectionOf(parts)];
      }
    }
    assert lines[..|lines|] == lines;
  }

  /** The lines that carry a connection, in order. */
  function EndpointLines(lines: seq<string>): (r: seq<string>)
    ensures |r| <= |lines|
    ensures forall k :: 0 <= k < |r| ==> HasEndpoints(r[k])
  {
    if lines == [] then []
    else
      var line := lines[|lines| - 1];
      EndpointLines(lines[..|lines| - 1]) + (if HasEndpoints(line) then [line] else [])
  }

  /**
   * The records are exactly one per qualifying line, in input order, each
   * taken from that line's third and fourth tokens; protocol and state are
   * constant.
   */
  lemma {:induction false} ConnectionsPerLine(lines: seq<string>)
    ensures var q := EndpointLines(lines);
      |ConnectionsOf(lines)| == |q| <= |lines|
      && forall k :: 0 <= k < |q| ==> ConnectionsOf(lines)[k] == ConnectionOf(Words(q[k]))
  {
    if lines != [] {
      var init, line := lines[..|lines| - 1], lines[|lines| - 1];
      ConnectionsPerLine(init);
      if HasEndpoints(line) {
        assert EndpointLines(lines) == EndpointLines(init) + [line];
        assert ConnectionsOf(lines) == ConnectionsOf(init) + [ConnectionOf(Words(line))];
      } else {
        assert EndpointLines(lines) == EndpointLines(init);
        assert ConnectionsOf(lines) == ConnectionsOf(init);
      }
    }
  }

  /** Every record is a TCP connection in state ESTABLISHED with no bracket left in either endpoint. */
  lemma {:induction false} ConnectionsClean(lines: seq<string>)
    ensures forall c :: c in ConnectionsOf(lines) ==>
      c.protocol == Tcp && c.state == Established && ']' !in c.local && ']' !in c.remote
  {
    if lines != [] {
      ConnectionsClean(lines[..|lines| - 1]);
    }
  }

  // ---------------------------------------------------------------- interface lookup

  /** The client attached to a router interface, given the detected mapping; `"unknown"` when unmapped. */
  function ClientOfInterface(mapping: map<string, string>, iface: string): (r: string)
    ensures iface in mapping ==> r == mapping[iface]
    ensures iface !in mapping ==> r == "unknown"
  {
    if iface in mapping then mapping[iface] else "unknown"
  }
}
