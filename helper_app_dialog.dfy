// The download-destination naming of the helper application dialog: the
// leaf name is cleaned up and then made unique among the files that
// already exist, "(2)", "(3)", ... being inserted the way the desktop
// content-area utilities do it.

module HelperAppDialog {
  import opened Wrappers

  // ---------------------------------------------------------------------
  // Decimal counters

  predicate IsDigit(c: char)
  {
    '0' <= c <= '9'
  }

  predicate AllDigits(s: string)
  {
    forall i | 0 <= i < |s| :: IsDigit(s[i])
  }

  function DigitChar(d: nat): (c: char)
    requires d < 10
    ensures IsDigit(c) && c as int - '0' as int == d
  {
    ('0' as int + d) as char
  }

  /** The decimal text of `n`, as `"" + n` gives it for a whole number. */
  function Digits(n: nat): (r: string)
    ensures |r| >= 1 && AllDigits(r)
    decreases n
  {
    if n < 10 then [DigitChar(n)] else Digits(n / 10) + [DigitChar(n % 10)]
  }

  /** The number a run of decimal digits denotes. */
  function Parse(s: string): nat
    requires AllDigits(s)
  {
    if |s| == 0 then 0 else Parse(s[..|s| - 1]) * 10 + (s[|s| - 1] as int - '0' as int)
  }

  lemma {:induction false} ParseDigits(n: nat)
    ensures Parse(Digits(n)) == n
    decreases n
  {
    if n >= 10 {
      var d := Digits(n);
      assert d[..|d| - 1] == Digits(n / 10);
      ParseDigits(n / 10);
    }
  }

  /** Different counters are written differently. */
  lemma DigitsInjective(a: nat, b: nat)
    requires Digits(a) == Digits(b)
    ensures a == b
  {
    ParseDigits(a);
    ParseDigits(b);
  }

  // ---------------------------------------------------------------------
  // The "(n)" counter that `/^(.*\()\d+\)/` finds

  /** The end of the run of digits that starts at `i`. */
  function DigitRunEnd(s: string, i: nat): (e: nat)
    requires i <= |s|
    ensures i <= e <= |s| && AllDigits(s[i..e]) && (e < |s| ==> !IsDigit(s[e]))
    decreases |s| - i
  {
    if i < |s| && IsDigit(s[i]) then
      var e := DigitRunEnd(s, i + 1);
      assert s[i..e] == [s[i]] + s[i + 1..e];
      e
    else i
  }

  /** A "(", one or more digits and a ")" start at `j`. */
  predicate IsCounterAt(s: string, j: nat)
  {
    j + 1 < |s| && s[j] == '(' &&
    var e := DigitRunEnd(s, j + 1); e > j + 1 && e < |s| && s[e] == ')'
  }

  /** The greedy `.*\(` picks the rightmost counter before `i`. */
  function LastCounterBefore(s: string, i: nat): (r: Option<nat>)
    requires i <= |s|
    ensures r.Some? ==> r.value < i && IsCounterAt(s, r.value)
  {
    if i == 0 then None
    else if IsCounterAt(s, i - 1) then Some(i - 1)
    else LastCounterBefore(s, i - 1)
  }

  /** The counter LastCounterBefore finds is the rightmost one before `i`,
      and it finds none exactly when there is none. */
  lemma {:induction false} LastCounterIsRightmost(s: string, i: nat)
    requires i <= |s|
    ensures var r := LastCounterBefore(s, i);
      (r.Some? ==> forall p | r.value < p < i :: !IsCounterAt(s, p)) &&
      (r.None? ==> forall p | 0 <= p < i :: !IsCounterAt(s, p))
  {
    if i > 0 && !IsCounterAt(s, i - 1) {
      LastCounterIsRightmost(s, i - 1);
    }
  }

  /** A counter at `j` with none after it before `i` is the one found. */
  lemma {:induction false} LastCounterIsFound(s: string, i: nat, j: nat)
    requires j < i <= |s| && IsCounterAt(s, j)
    requires forall p | j < p < i :: !IsCounterAt(s, p)
    ensures LastCounterBefore(s, i) == Some(j)
  {
    if j < i - 1 {
      LastCounterIsFound(s, i - 1, j);
    }
  }

  predicate NoCounter(s: string)
  {
    forall p | 0 <= p < |s| :: !IsCounterAt(s, p)
  }

  /** "Replace the last (n) in the filename with (n+1)", as the source's
      comment says: the rightmost counter is rewritten to `n`, keeping what
      precedes it; a name without a counter is left as it is. This is
      `name.replace(/^(.*\()\d+\)/, "$1" + n + ")")` for a name without a
      line terminator (see ReplaceLastCounterAsWritten). */
  function ReplaceLastCounter(s: string, n: nat): string
  {
    RewriteCounter(s, LastCounterBefore(s, |s|), n)
  }

  /** `s` with the counter `found` at, if any, rewritten to `n`: what the
      replacement "$1" + n + ")" makes of a match. */
  function RewriteCounter(s: string, found: Option<nat>, n: nat): string
    requires found.Some? ==> IsCounterAt(s, found.value)
  {
    match found
    case None => s
    case Some(j) => s[..j + 1] + Digits(n) + ")" + s[DigitRunEnd(s, j + 1) + 1..]
  }

  /** A name without a counter is kept; otherwise everything up to the "("
      of the last counter is kept, and the digits after it are `n`'s. */
  lemma ReplaceLastCounterEffect(s: string, n: nat)
    ensures LastCounterBefore(s, |s|).None? ==> ReplaceLastCounter(s, n) == s
    ensures LastCounterBefore(s, |s|).Some? ==>
      var j := LastCounterBefore(s, |s|).value;
      var r := ReplaceLastCounter(s, n);
      |r| > j + |Digits(n)| && r[..j + 1] == s[..j + 1] && r[j + 1..j + 1 + |Digits(n)|] == Digits(n)
  {
  }

  // ---------------------------------------------------------------------
  // The counter rewrite as written

  /** The characters `.` in a regular expression without the `s` flag does
      not match: line feed, carriage return, and the line and paragraph
      separators. */
  predicate IsLineTerminator(c: char)
  {
    c == '\n' || c == '\r' || c == '\U{2028}' || c == '\U{2029}'
  }

  /** Where the first line of `s` ends: its first line terminator, or its end. */
  function FirstLineEnd(s: string): (e: nat)
    ensures e <= |s| && (e < |s| ==> IsLineTerminator(s[e]))
    ensures forall k | 0 <= k < e :: !IsLineTerminator(s[k])
  {
    LineEndFrom(s, 0)
  }

  /** The first line terminator at or after `i`, or the end of `s`. */
  function LineEndFrom(s: string, i: nat): (e: nat)
    requires i <= |s|
    ensures i <= e <= |s| && (e < |s| ==> IsLineTerminator(s[e]))
    ensures forall k | i <= k < e :: !IsLineTerminator(s[k])
    decreases |s| - i
  {
    if i == |s| || IsLineTerminator(s[i]) then i else LineEndFrom(s, i + 1)
  }

  /** `name.replace(/^(.*\()\d+\)/, "$1" + n + ")")` as written: `^` anchors
      at the start and `.*` stops at the first line terminator, so only the
      rightmost counter of the first line is rewritten. */
  function ReplaceLastCounterAsWritten(s: string, n: nat): (r: string)
    ensures LastCounterBefore(s, FirstLineEnd(s)).None? ==> r == s
  {
    RewriteCounter(s, LastCounterBefore(s, FirstLineEnd(s)), n)
  }

  /** On a name of one line the rewrite as written is the intended one. */
  lemma AsWrittenAgreesOnOneLine(s: string, n: nat)
    requires FirstLineEnd(s) == |s|
    ensures ReplaceLastCounterAsWritten(s, n) == ReplaceLastCounter(s, n)
  {
  }

  /** The names makeFileUnique tries, as written. */
  function NameAfterAsWritten(name: string, collisions: nat): string
  {
    if collisions == 0 then name
    else if collisions == 1 then FirstRename(name)
    else ReplaceLastCounterAsWritten(NameAfterAsWritten(name, collisions - 1), collisions + 1)
  }

  /** A leaf "a\nb" is renamed "a\nb(2)" on the first collision and then
      never again: its counter is not in the first line. With both names
      taken, the source's loop never ends. */
  lemma {:induction false} AsWrittenLoopNeverEnds(c: nat)
    requires c >= 1
    ensures NameAfterAsWritten("a\nb", c) == "a\nb(2)"
  {
    if c == 1 {
      FirstRenameOfTwoLines();
    } else {
      AsWrittenLoopNeverEnds(c - 1);
      AsWrittenKeepsSecondLine(c + 1);
    }
  }

  lemma FirstRenameOfTwoLines()
    ensures FirstRename("a\nb") == "a\nb(2)"
  {
    assert LastDotBefore("a\nb", 3) == None;
  }

  /** The counter of "a\nb(2)" is past the first line, out of reach. */
  lemma AsWrittenKeepsSecondLine(n: nat)
    ensures ReplaceLastCounterAsWritten("a\nb(2)", n) == "a\nb(2)"
  {
    assert FirstLineEnd("a\nb(2)") == 1;
    assert !IsCounterAt("a\nb(2)", 0);
  }

  /** As written, "x(3)\ny(2)" has the counter of its first line
      rewritten, "(3)", where the last counter of the name, "(2)", was meant. */
  lemma AsWrittenRewritesFirstLine()
    ensures ReplaceLastCounterAsWritten("x(3)\ny(2)", 4) == "x(4)\ny(2)"
  {
    var s := "x(3)\ny(2)";
    assert FirstLineEnd(s) == 4;
    assert DigitRunEnd(s, 2) == 3 && IsCounterAt(s, 1);
    assert !IsCounterAt(s, 2) && !IsCounterAt(s, 3);
    assert LastCounterBefore(s, 4) == Some(1);
  }

  /** The intended rewrite of "x(3)\ny(2)" changes its last counter. */
  lemma IntendedRewritesLastCounter()
    ensures ReplaceLastCounter("x(3)\ny(2)", 4) == "x(3)\ny(4)"
  {
    var s := "x(3)\ny(2)";
    assert DigitRunEnd(s, 7) == 8 && IsCounterAt(s, 6);
    assert !IsCounterAt(s, 7) && !IsCounterAt(s, 8) && !IsCounterAt(s, 9);
    assert LastCounterBefore(s, |s|) == Some(6);
  }

  lemma DigitRunEndOfConcat(a: string, b: string, i: nat)
    requires i <= |b|
    ensures DigitRunEnd(a + b, |a| + i) == |a| + DigitRunEnd(b, i)
    decreases |b| - i
  {
    if i < |b| && IsDigit(b[i]) {
      DigitRunEndOfConcat(a, b, i + 1);
    }
  }

  /** Whether a counter starts at a position depends only on what follows it. */
  lemma CounterIsLocal(a: string, b: string, q: nat)
    requires q < |b|
    ensures IsCounterAt(a + b, |a| + q) <==> IsCounterAt(b, q)
  {
    if q + 1 < |b| {
      DigitRunEndOfConcat(a, b, q + 1);
    }
  }

  /** The digit run after the "(" of `p + "(" + d + ")" + r` is `d`. */
  lemma {:induction false} DigitRunOfCounter(p: string, d: string, r: string, k: nat)
    requires |d| >= 1 && AllDigits(d) && k <= |d|
    ensures DigitRunEnd(p + "(" + d + ")" + r, |p| + 1 + k) == |p| + 1 + |d|
    decreases |d| - k
  {
    var s := p + "(" + d + ")" + r;
    if k < |d| {
      assert s[|p| + 1 + k] == d[k];
      DigitRunOfCounter(p, d, r, k + 1);
    } else {
      assert s[|p| + 1 + |d|] == ')';
    }
  }

  /** In `p + "(" + d + ")" + r` with no counter in `r`, the rightmost
      counter is the one after `p`. */
  lemma LastCounterOfShape(p: string, d: string, r: string)
    requires |d| >= 1 && AllDigits(d) && NoCounter(r)
    ensures var s := p + "(" + d + ")" + r;
      LastCounterBefore(s, |s|) == Some(|p|) && DigitRunEnd(s, |p| + 1) == |p| + 1 + |d|
  {
    var s := p + "(" + d + ")" + r;
    var head := p + "(" + d + ")";
    assert s == head + r;
    DigitRunOfCounter(p, d, r, 0);
    assert IsCounterAt(s, |p|);
    forall q | |p| < q < |s|
      ensures !IsCounterAt(s, q)
    {
      if q < |head| {
        assert s[q] == head[q];
        assert q <= |p| + |d| ==> s[q] == d[q - |p| - 1];
      } else {
        CounterIsLocal(head, r, q - |head|);
      }
    }
    LastCounterIsFound(s, |s|, |p|);
  }

  /** Rewriting the counter of `p + "(" + d + ")" + r` to `n`. */
  lemma ReplaceCounterOfShape(p: string, d: string, r: string, n: nat)
    requires |d| >= 1 && AllDigits(d) && NoCounter(r)
    ensures ReplaceLastCounter(p + "(" + d + ")" + r, n) == p + "(" + Digits(n) + ")" + r
  {
    var s := p + "(" + d + ")" + r;
    LastCounterOfShape(p, d, r);
    assert s[..|p| + 1] == p + "(";
    assert s[|p| + 1 + |d| + 1..] == r;
  }

  // ---------------------------------------------------------------------
  // The first collision: "(2)" before the extension

  /** A dot at `p` where `.x.ext` ends the name: `x` is 1 to 3 characters
      other than '.', `ext` the `L`-character gz, bz2 or Z in any case. */
  predicate CompoundSuffixWith(s: string, p: nat, L: nat)
  {
    |s| >= L + 1 && ExtensionAt(s, L) &&
    var d := |s| - L - 1;
    p < d && s[p] == '.' && s[d] == '.' && 1 <= d - p - 1 <= 3 &&
    forall i | p < i < d :: s[i] != '.'
  }

  /** `/\.[^\.]{1,3}\.(gz|bz2|Z)$/i` matches from `p`. */
  predicate CompoundSuffixAt(s: string, p: nat)
  {
    CompoundSuffixWith(s, p, 1) || CompoundSuffixWith(s, p, 2) || CompoundSuffixWith(s, p, 3)
  }

  function Lower(c: char): char
  {
    if 'A' <= c <= 'Z' then (c as int + 32) as char else c
  }

  /** The last `L` characters are "z", "gz" or "bz2" without regard to case. */
  predicate ExtensionAt(s: string, L: nat)
  {
    |s| >= L &&
    ((L == 1 && Lower(s[|s| - 1]) == 'z')
     || (L == 2 && Lower(s[|s| - 2]) == 'g' && Lower(s[|s| - 1]) == 'z')
     || (L == 3 && Lower(s[|s| - 3]) == 'b' && Lower(s[|s| - 2]) == 'z' && s[|s| - 1] == '2'))
  }

  /** The last '.' before `i`. */
  function LastDotBefore(s: string, i: nat): (r: Option<nat>)
    requires i <= |s|
    ensures r.Some? ==> r.value < i && s[r.value] == '.' && forall k | r.value < k < i :: s[k] != '.'
    ensures r.None? ==> forall k | 0 <= k < i :: s[k] != '.'
  {
    if i == 0 then None
    else if s[i - 1] == '.' then Some(i - 1)
    else LastDotBefore(s, i - 1)
  }

  function CompoundSuffixFor(s: string, L: nat): (r: Option<nat>)
    ensures r.Some? ==> CompoundSuffixWith(s, r.value, L)
    ensures r.None? ==> forall p :: !CompoundSuffixWith(s, p, L)
  {
    if |s| >= L + 1 && ExtensionAt(s, L) && s[|s| - L - 1] == '.' then
      var d := |s| - L - 1;
      match LastDotBefore(s, d)
      case Some(p) => if 1 <= d - p - 1 <= 3 then Some(p) else None
      case None => None
    else None
  }

  /** Where the compound-suffix pattern matches, if it does. */
  function CompoundSuffixStart(s: string): (r: Option<nat>)
    ensures r.Some? ==> CompoundSuffixAt(s, r.value)
    ensures r.None? <==> forall p :: !CompoundSuffixAt(s, p)
  {
    match CompoundSuffixFor(s, 1)
    case Some(p) => assert CompoundSuffixAt(s, p); Some(p)
    case None =>
      match CompoundSuffixFor(s, 2)
      case Some(p) => assert CompoundSuffixAt(s, p); Some(p)
      case None =>
        match CompoundSuffixFor(s, 3)
        case Some(p) => assert CompoundSuffixAt(s, p); Some(p)
        case None => None
  }

  /** Only one of gz, bz2 and Z can end a name behind a dot. */
  lemma SameExtension(s: string, p: nat, q: nat, L: nat, M: nat)
    requires CompoundSuffixWith(s, p, L) && CompoundSuffixWith(s, q, M)
    ensures L == M
  {
    assert Lower('.') == '.';
  }

  /** The compound suffix, when there is one, is one place. */
  lemma CompoundSuffixIsUnique(s: string, p: nat, q: nat)
    requires CompoundSuffixAt(s, p) && CompoundSuffixAt(s, q)
    ensures p == q
  {
    var L: nat := if CompoundSuffixWith(s, p, 1) then 1 else if CompoundSuffixWith(s, p, 2) then 2 else 3;
    var M: nat := if CompoundSuffixWith(s, q, 1) then 1 else if CompoundSuffixWith(s, q, 2) then 2 else 3;
    SameExtension(s, p, q, L, M);
  }

  /** Where `/(\.[^\.]*)?$/` matches: the last '.', or the end. */
  function ExtensionStart(s: string): (r: nat)
    ensures r <= |s| && (r < |s| ==> s[r] == '.')
    ensures forall k | r < k < |s| :: s[k] != '.'
    ensures r == |s| ==> forall k | 0 <= k < |s| :: s[k] != '.'
  {
    match LastDotBefore(s, |s|)
    case Some(p) => p
    case None => |s|
  }

  /** Where the first collision puts "(2)". */
  function FirstCounterPosition(s: string): (r: nat)
    ensures r <= |s|
    ensures CompoundSuffixStart(s).Some? ==> r == CompoundSuffixStart(s).value
    ensures CompoundSuffixStart(s).None? ==> r == ExtensionStart(s)
  {
    match CompoundSuffixStart(s)
    case Some(p) => p
    case None => ExtensionStart(s)
  }

  /** The name after the first collision. */
  function FirstRename(s: string): (r: string)
    ensures var p := FirstCounterPosition(s); r == s[..p] + "(2)" + s[p..]
  {
    var p := FirstCounterPosition(s);
    s[..p] + "(2)" + s[p..]
  }

  /** The name makeFileUnique tries after `collisions` collisions: the
      leaf, then the first rename, then the first rename with its rightmost
      counter written as collisions + 1 (RewriteStep shows the loop's rewrite
      produces exactly these). */
  function NameAfter(name: string, collisions: nat): string
  {
    if collisions == 0 then name
    else if collisions == 1 then FirstRename(name)
    else WithCounter(FirstRename(name), collisions + 1)
  }

  /** `s` with its rightmost counter written as `n`. */
  function WithCounter(s: string, n: nat): string
  {
    CounterPrefix(s) + "(" + Digits(n) + ")" + CounterSuffix(s)
  }

  /** What precedes the rightmost counter (all of a name without one). */
  function CounterPrefix(s: string): string
  {
    match LastCounterBefore(s, |s|)
    case None => s
    case Some(j) => s[..j]
  }

  /** What follows the rightmost counter (nothing for a name without one). */
  function CounterSuffix(s: string): string
  {
    match LastCounterBefore(s, |s|)
    case None => []
    case Some(j) => s[DigitRunEnd(s, j + 1) + 1..]
  }

  /** A name with a counter is its prefix, the counter and a suffix that
      holds no counter. */
  lemma CounterSplit(s: string) returns (digits: string)
    requires LastCounterBefore(s, |s|).Some?
    ensures |digits| >= 1 && AllDigits(digits) && NoCounter(CounterSuffix(s))
    ensures s == CounterPrefix(s) + "(" + digits + ")" + CounterSuffix(s)
  {
    var j := LastCounterBefore(s, |s|).value;
    LastCounterIsRightmost(s, |s|);
    var e := DigitRunEnd(s, j + 1);
    digits := s[j + 1..e];
    var rest := s[e + 1..];
    assert s == s[..j] + "(" + digits + ")" + rest;
    forall q | 0 <= q < |rest|
      ensures !IsCounterAt(rest, q)
    {
      assert s == s[..e + 1] + rest;
      CounterIsLocal(s[..e + 1], rest, q);
    }
  }

  /** The first rename always leaves a counter: the "(2)" it inserts. */
  lemma FirstRenameHasCounter(name: string)
    ensures LastCounterBefore(FirstRename(name), |FirstRename(name)|).Some?
  {
    var first := FirstRename(name);
    var p := FirstCounterPosition(name);
    assert first == name[..p] + "(" + "2" + ")" + name[p..];
    DigitRunOfCounter(name[..p], "2", name[p..], 0);
    assert IsCounterAt(first, p);
    LastCounterIsRightmost(first, |first|);
  }

  /** The loop's rewrite of the last counter to collisions + 1 takes each
      name tried to the next: the rightmost counter of the first rename is
      the one rewritten each time, and what surrounds it stays the same.
      That is the inserted "(2)" unless the name already has a counter
      behind it: "a.txt(7)" is renamed "a(2).txt(7)", then "a(2).txt(3)". */
  lemma RewriteStep(name: string, c: nat)
    requires c >= 1
    ensures ReplaceLastCounter(NameAfter(name, c), c + 2) == NameAfter(name, c + 1)
  {
    var first := FirstRename(name);
    FirstRenameHasCounter(name);
    if c == 1 {
      RewriteOfCountered(first, 3);
    } else {
      RewriteOfWithCounter(first, c + 1, c + 2);
    }
  }

  /** Rewriting the rightmost counter of a name that has one. */
  lemma RewriteOfCountered(s: string, n: nat)
    requires LastCounterBefore(s, |s|).Some?
    ensures ReplaceLastCounter(s, n) == WithCounter(s, n)
  {
    var digits := CounterSplit(s);
    ReplaceCounterOfShape(CounterPrefix(s), digits, CounterSuffix(s), n);
  }

  /** Rewriting a counter already rewritten once. */
  lemma RewriteOfWithCounter(s: string, m: nat, n: nat)
    requires LastCounterBefore(s, |s|).Some?
    ensures ReplaceLastCounter(WithCounter(s, m), n) == WithCounter(s, n)
  {
    var _ := CounterSplit(s);
    ReplaceCounterOfShape(CounterPrefix(s), Digits(m), CounterSuffix(s), n);
  }

  lemma CounterShapeInjective(p: string, a: string, b: string, r: string)
    requires p + "(" + a + ")" + r == p + "(" + b + ")" + r
    ensures a == b
  {
    var x, y := p + "(" + a + ")" + r, p + "(" + b + ")" + r;
    assert |a| == |b|;
    assert x[|p| + 1..|p| + 1 + |a|] == a;
    assert y[|p| + 1..|p| + 1 + |b|] == b;
  }

  /** No name comes back after the second rename. */
  lemma LaterNamesDistinct(name: string, a: nat, b: nat)
    requires 2 <= a && 2 <= b && a != b
    ensures NameAfter(name, a) != NameAfter(name, b)
  {
    var first := FirstRename(name);
    if NameAfter(name, a) == NameAfter(name, b) {
      CounterShapeInjective(CounterPrefix(first), Digits(a + 1), Digits(b + 1), CounterSuffix(first));
      DigitsInjective(a + 1, b + 1);
    }
  }

  /** The later names tried, from the second to the one before `c`, in
      the order they are tried. */
  ghost function LaterNamesInOrder(name: string, c: nat): (r: seq<string>)
    ensures |r| == if c < 2 then 0 else c - 2
  {
    if c < 2 then [] else seq(c - 2, i requires 0 <= i => NameAfter(name, i + 2))
  }

  ghost function LaterNames(name: string, c: nat): set<string>
  {
    Elements(LaterNamesInOrder(name, c))
  }

  ghost function Elements(s: seq<string>): set<string>
  {
    set i | 0 <= i < |s| :: s[i]
  }

  /** A sequence without repetitions has as many elements as entries. */
  lemma {:induction false} DistinctElementsCount(s: seq<string>)
    requires forall a, b | 0 <= a < b < |s| :: s[a] != s[b]
    ensures |Elements(s)| == |s|
  {
    if s != [] {
      var init := s[..|s| - 1];
      DistinctElementsCount(init);
      assert Elements(s) == Elements(init) + {s[|s| - 1]};
    } else {
      assert Elements(s) == {};
    }
  }

  lemma LaterNamesCount(name: string, c: nat)
    requires c >= 2
    ensures |LaterNames(name, c)| == c - 2
  {
    var names := LaterNamesInOrder(name, c);
    forall a, b | 0 <= a < b < |names|
      ensures names[a] != names[b]
    {
      LaterNamesDistinct(name, a + 2, b + 2);
    }
    DistinctElementsCount(names);
  }

  /** makeFileUnique over the names `existing` in the directory: rename
      until the name is free. It returns the free name and the number of
      collisions; every name tried before it exists. */
  method MakeFileUnique(name: string, existing: set<string>) returns (unique: string, collisions: nat)
    ensures unique !in existing
    ensures unique == NameAfter(name, collisions)
    ensures forall i | 0 <= i < collisions :: NameAfter(name, i) in existing
  {
    unique, collisions := name, 0;
    while unique in existing
      invariant unique == NameAfter(name, collisions)
      invariant forall i | 0 <= i < collisions :: NameAfter(name, i) in existing
      invariant collisions <= |existing| + 2
      decreases |existing| + 2 - collisions
    {
      TakenStep(name, existing, collisions);
      collisions := collisions + 1;
      if collisions == 1 {
        unique := FirstRename(unique);
      } else {
        unique := ReplaceLastCounter(unique, collisions + 1);
      }
    }
  }

  /** One round of makeFileUnique's loop: with the names tried after 0 to
      `c` collisions all taken, there is room for one more in `existing`,
      and the rename gives the name tried after c + 1. */
  lemma TakenStep(name: string, existing: set<string>, c: nat)
    requires forall i | 0 <= i <= c :: NameAfter(name, i) in existing
    ensures c + 1 <= |existing| + 2
    ensures c == 0 ==> FirstRename(NameAfter(name, c)) == NameAfter(name, 1)
    ensures c >= 1 ==> ReplaceLastCounter(NameAfter(name, c), c + 2) == NameAfter(name, c + 1)
  {
    if c >= 2 {
      LaterNamesTaken(name, existing, c);
      TriedNamesBound(name, existing, c);
    }
    if c >= 1 {
      RewriteStep(name, c);
    }
  }

  /** Names 2 to `c` tried and all taken: `existing` holds at least c - 1
      names. */
  lemma TriedNamesBound(name: string, existing: set<string>, c: nat)
    requires c >= 2
    requires LaterNames(name, c + 1) <= existing
    ensures c - 1 <= |existing|
  {
    LaterNamesCount(name, c + 1);
    SubsetCardinality(LaterNames(name, c + 1), existing);
  }

  lemma LaterNamesTaken(name: string, existing: set<string>, c: nat)
    requires c >= 2
    requires forall i | 2 <= i <= c :: NameAfter(name, i) in existing
    ensures LaterNames(name, c + 1) <= existing
  {
    var names := LaterNamesInOrder(name, c + 1);
    forall i | 0 <= i < |names|
      ensures names[i] in existing
    {
      assert names[i] == NameAfter(name, i + 2);
    }
    ElementsWithin(names, existing);
  }

  lemma ElementsWithin(s: seq<string>, within: set<string>)
    requires forall i | 0 <= i < |s| :: s[i] in within
    ensures Elements(s) <= within
  {
  }

  lemma SubsetCardinality<T>(a: set<T>, b: set<T>)
    requires a <= b
    ensures |a| <= |b|
  {
    assert b == a + (b - a);
  }

  // ---------------------------------------------------------------------
  // validateLeafName

  /** `leafName.replace(/^\.+/, "")` */
  function StripLeadingDots(s: string): (r: string)
    ensures |r| <= |s| && r == s[|s| - |r|..]
    ensures r == [] || r[0] != '.'
    ensures forall i | 0 <= i < |s| - |r| :: s[i] == '.'
  {
    if |s| > 0 && s[0] == '.' then StripLeadingDots(s[1..]) else s
  }

  /** The leaf validateLeafName appends: without its leading dots, or
      "unnamed" (with the extension, when one is given) if nothing is left. */
  function CleanLeafName(leaf: string, ext: string): (r: string)
    ensures StripLeadingDots(leaf) != [] ==> r == StripLeadingDots(leaf)
    ensures StripLeadingDots(leaf) == [] ==> r == "unnamed" + (if ext != "" then "." + ext else "")
    ensures r != [] && r[0] != '.'
  {
    var stripped := StripLeadingDots(leaf);
    if stripped == [] then "unnamed" + (if ext != "" then "." + ext else "") else stripped
  }

  /** validateLeafName: nothing for a directory that is missing, not a
      directory or not writable; otherwise the cleaned leaf made unique. */
  method ValidateLeafName(usableDirectory: bool, leaf: string, ext: string, existing: set<string>)
    returns (r: Option<string>)
    ensures !usableDirectory <==> r.None?
    ensures r.Some? ==> r.value !in existing
    ensures r.Some? ==> exists c: nat :: r.value == NameAfter(CleanLeafName(leaf, ext), c)
  {
    if !usableDirectory {
      return None;
    }
    var clean := CleanLeafName(leaf, ext);
    var unique, collisions := MakeFileUnique(clean, existing);
    return Some(unique);
  }

  /** A leaf without a collision is kept as cleaned; a first collision
      puts "(2)" before the compound suffix or the last extension. */
  lemma FirstCollisionRules(name: string)
    ensures NameAfter(name, 0) == name
    ensures CompoundSuffixStart(name).Some? ==>
      var p := CompoundSuffixStart(name).value; NameAfter(name, 1) == name[..p] + "(2)" + name[p..]
    ensures CompoundSuffixStart(name).None? ==>
      var p := ExtensionStart(name); NameAfter(name, 1) == name[..p] + "(2)" + name[p..]
  {
  }
}
