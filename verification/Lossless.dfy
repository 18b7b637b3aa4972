/** When expanding a compressed pattern gives the names back (internal/deploy/volumes.go:75-144). */
module Lossless {
  import opened Text
  import opened Decimal
  import opened Affixes
  import opened Ellipses
  import opened Volumes

  // ----- The names are the middles between one prefix and one suffix

  lemma AroundMiddle(v: string, p: string, s: string)
    requires HasPrefix(v, p) && HasSuffix(v, s) && |p| + |s| <= |v|
    ensures v == p + (Middle(v, p, s) + s)
  {
    assert v == v[..|p|] + (v[|p|..|v| - |s|] + v[|v| - |s|..]);
  }

  lemma NamesAreMiddles(list: seq<string>)
    requires |list| >= 2 && HaveMiddles(list, Lcp(list), Lcs(list))
    ensures Elements(list) == Combine(Lcp(list), Elements(Middles(list, Lcp(list), Lcs(list))), {Lcs(list)})
  {
    var p, s := Lcp(list), Lcs(list);
    var ms := Middles(list, p, s);
    forall i | 0 <= i < |list|
      ensures Around(list[i], p, ms[i], s)
    {
      NameIsAround(list, p, s, i);
    }
    CombinedPointwise(list, ms, p, s);
  }

  lemma NameIsAround(list: seq<string>, p: string, s: string, i: nat)
    requires |list| >= 2 && HaveMiddles(list, p, s) && i < |list| && p == Lcp(list) && s == Lcs(list)
    ensures Around(list[i], p, Middle(list[i], p, s), s)
  {
    assert HasMiddle(list[i], p, s);
    LcpIsLongest(list, p);
    LcsIsLongest(list, s);
    AroundMiddle(list[i], p, s);
  }

  predicate Around(v: string, p: string, m: string, s: string) {
    v == p + (m + s)
  }

  lemma CombinedPointwise(list: seq<string>, ms: seq<string>, p: string, s: string)
    requires |ms| == |list| && forall i :: 0 <= i < |list| ==> Around(list[i], p, ms[i], s)
    ensures Elements(list) == Combine(p, Elements(ms), {s})
  {
    assert s in {s};
    forall v | v in Combine(p, Elements(ms), {s})
      ensures v in Elements(list)
    {
      var m, t :| m in Elements(ms) && t in {s} && v == p + (m + t);
      var i :| 0 <= i < |ms| && ms[i] == m;
      assert Around(list[i], p, ms[i], s);
    }
    forall v | v in Elements(list)
      ensures v in Combine(p, Elements(ms), {s})
    {
      var i :| 0 <= i < |list| && list[i] == v;
      assert Around(list[i], p, ms[i], s) && ms[i] in Elements(ms);
    }
  }

  lemma BetweenInjective(p: string, a: string, b: string, s: string)
    requires p + (a + s) == p + (b + s)
    ensures a == b
  {
    assert (p + (a + s))[|p|..] == a + s && (p + (b + s))[|p|..] == b + s;
    assert (a + s)[..|a|] == a && (b + s)[..|b|] == b;
  }

  /** Different middles make different names. */
  lemma CombineInjective(p: string, a: set<string>, b: set<string>, s: string)
    ensures Combine(p, a, {s}) == Combine(p, b, {s}) <==> a == b
  {
    if Combine(p, a, {s}) == Combine(p, b, {s}) {
      CombineContains(p, a, b, s);
      CombineContains(p, b, a, s);
    }
  }

  lemma CombineContains(p: string, a: set<string>, b: set<string>, s: string)
    requires Combine(p, a, {s}) <= Combine(p, b, {s})
    ensures a <= b
  {
    forall x | x in a
      ensures x in b
    {
      assert s in {s};
      assert p + (x + s) in Combine(p, a, {s});
      var y, t :| y in b && t in {s} && p + (x + s) == p + (y + t);
      BetweenInjective(p, x, y, s);
    }
  }

  // ----- The labels of the range against the middles

  lemma MiddleOfNumber(ms: seq<string>, n: nat) returns (i: nat)
    requires ms != [] && DigitStrings(ms) && MiddlesFit(ms)
    requires MinOf(Numbers(ms)) <= n < MinOf(Numbers(ms)) + |ms|
    ensures i < |ms| && Value(ms[i]) == n
  {
    var lo := MinOf(Numbers(ms));
    assert InInterval(n, lo, |ms|);
    assert n in Elements(Numbers(ms));
    i :| 0 <= i < |ms| && Numbers(ms)[i] == n;
  }

  lemma NumberInRun(ms: seq<string>, i: nat)
    requires ms != [] && DigitStrings(ms) && MiddlesFit(ms) && i < |ms|
    ensures MinOf(Numbers(ms)) <= Value(ms[i]) < MinOf(Numbers(ms)) + |ms|
  {
    assert Numbers(ms)[i] in Elements(Numbers(ms));
  }

  /** The bounds print the smallest and the largest number, and are padded when the first
      middle is. */
  lemma BoundsAreNumbers(ms: seq<string>)
    requires ms != [] && DigitStrings(ms) && MiddlesFit(ms)
    ensures var lo := MinOf(Numbers(ms)); var l, h := Bound(ms, lo), Bound(ms, lo + |ms| - 1);
            && AllDigits(l) && AllDigits(h) && Value(l) == lo && Value(h) == lo + |ms| - 1
            && (Pads(l) <==> Pads(ms[0])) && (Pads(l) ==> |h| == |ms[0]|)
  {
    if Pads(ms[0]) {
      BoundsArePadded(ms, MinOf(Numbers(ms)));
    } else {
      PlainBound(ms, MinOf(Numbers(ms)));
      PlainBound(ms, MinOf(Numbers(ms)) + |ms| - 1);
    }
  }

  lemma BoundsArePadded(ms: seq<string>, lo: nat)
    requires ms != [] && DigitStrings(ms) && MiddlesFit(ms) && Pads(ms[0]) && lo == MinOf(Numbers(ms))
    ensures var l, h := Bound(ms, lo), Bound(ms, lo + |ms| - 1);
            && AllDigits(l) && AllDigits(h) && Value(l) == lo && Value(h) == lo + |ms| - 1
            && Pads(l) && |h| == |ms[0]|
  {
    PaddedBound(ms, lo);
    PaddedBound(ms, lo + |ms| - 1);
    LowBoundPads(ms, Bound(ms, lo));
  }

  lemma PlainBound(ms: seq<string>, n: nat)
    requires ms != [] && !Pads(ms[0])
    ensures AllDigits(Bound(ms, n)) && Value(Bound(ms, n)) == n && !Pads(Bound(ms, n))
  {
    ItoaDigits(n);
  }

  lemma LowBoundPads(ms: seq<string>, l: string)
    requires ms != [] && DigitStrings(ms) && MiddlesFit(ms) && Pads(ms[0])
    requires AllDigits(l) && |l| == |ms[0]| && Value(l) == MinOf(Numbers(ms))
    ensures Pads(l)
  {
    assert Numbers(ms)[0] == Value(ms[0]);
    ValueBounds(ms[0]);
    ValueBounds(l);
  }

  lemma PaddedBound(ms: seq<string>, n: nat)
    requires ms != [] && DigitStrings(ms) && MiddlesFit(ms) && Pads(ms[0])
    requires MinOf(Numbers(ms)) <= n < MinOf(Numbers(ms)) + |ms|
    ensures AllDigits(Bound(ms, n)) && Value(Bound(ms, n)) == n && |Bound(ms, n)| == |ms[0]|
  {
    var i := MiddleOfNumber(ms, n);
    PaddedOfValue(ms[i]);
  }

  /** The label for a middle's number is the middle, unless zeros in front are lost. */
  lemma LabelOfMiddle(ms: seq<string>, i: nat)
    requires ms != [] && DigitStrings(ms) && MiddlesFit(ms) && i < |ms|
    ensures Bound(ms, Value(ms[i])) == ms[i] <==> Pads(ms[0]) || !Pads(ms[i])
  {
    if Pads(ms[0]) {
      PaddedOfValue(ms[i]);
    } else if !Pads(ms[i]) {
      ItoaOfValue(ms[i]);
    } else {
      ItoaDigits(Value(ms[i]));
    }
  }

  // ----- Names of one run compress, in the words of the names

  function NamesOf(p: string, ms: seq<string>, s: string): (names: seq<string>)
    ensures |names| == |ms| && forall i :: 0 <= i < |ms| ==> names[i] == p + ms[i] + s
  {
    seq(|ms|, i requires 0 <= i < |ms| => p + ms[i] + s)
  }

  /** Digit strings that begin with different digits and end with different digits. */
  predicate Spread(ms: seq<string>) {
    && DigitStrings(ms)
    && (exists i, j :: 0 <= i < |ms| && 0 <= j < |ms| && ms[i][0] != ms[j][0])
    && (exists i, j :: 0 <= i < |ms| && 0 <= j < |ms| && ms[i][|ms[i]| - 1] != ms[j][|ms[j]| - 1])
  }

  lemma PrefixIsFound(p: string, ms: seq<string>, s: string)
    requires ms != [] && Spread(ms)
    ensures Lcp(NamesOf(p, ms, s)) == p
  {
    var names := NamesOf(p, ms, s);
    var q := Lcp(names);
    var i, j :| 0 <= i < |ms| && 0 <= j < |ms| && ms[i][0] != ms[j][0];
    LcpIsLongest(names, p);
    LcpIsLongest(names, q);
    assert forall k :: 0 <= k < |names| ==> names[k][..|p|] == p;
    PrefixStops(p, ms[i], ms[j], s, q);
  }

  lemma PrefixStops(p: string, m: string, m': string, s: string, q: string)
    requires m != "" && m' != "" && m[0] != m'[0]
    requires HasPrefix(p + m + s, q) && HasPrefix(p + m' + s, q)
    ensures |q| <= |p|
  {
    FirstBehind(p, m, s, q);
    FirstBehind(p, m', s, q);
  }

  lemma FirstBehind(p: string, m: string, s: string, q: string)
    requires m != "" && HasPrefix(p + m + s, q)
    ensures |q| > |p| ==> q[|p|] == m[0]
  {
    assert |q| > |p| ==> q[|p|] == (p + m + s)[|p|] == m[0];
  }

  lemma SuffixIsFound(p: string, ms: seq<string>, s: string)
    requires ms != [] && Spread(ms)
    ensures Lcs(NamesOf(p, ms, s)) == s
  {
    var names := NamesOf(p, ms, s);
    var q := Lcs(names);
    var i, j :| 0 <= i < |ms| && 0 <= j < |ms| && ms[i][|ms[i]| - 1] != ms[j][|ms[j]| - 1];
    LcsIsLongest(names, s);
    LcsIsLongest(names, q);
    forall k | 0 <= k < |names|
      ensures HasSuffix(names[k], s)
    {
      SuffixOfName(p + ms[k], s);
    }
    SuffixStops(p, ms[i], ms[j], s, q);
  }

  lemma SuffixOfName(a: string, s: string)
    ensures HasSuffix(a + s, s)
  {
    assert (a + s)[|a|..] == s;
  }

  lemma SuffixStops(p: string, m: string, m': string, s: string, q: string)
    requires m != "" && m' != "" && m[|m| - 1] != m'[|m'| - 1]
    requires HasSuffix(p + m + s, q) && HasSuffix(p + m' + s, q)
    ensures |q| <= |s|
  {
    LastBefore(p, m, s, q);
    LastBefore(p, m', s, q);
  }

  lemma LastBefore(p: string, m: string, s: string, q: string)
    requires m != "" && HasSuffix(p + m + s, q)
    ensures |q| > |s| ==> q[|q| - |s| - 1] == m[|m| - 1]
  {
    assert |q| > |s| ==> q[|q| - |s| - 1] == (p + m + s)[|p| + |m| - 1] == m[|m| - 1];
  }

  /** The middles are the numbers from the `a`th to the `b`th, each once, in any order. */
  predicate Consecutive(ms: seq<string>, a: nat, b: nat)
    requires DigitStrings(ms) && a < |ms| && b < |ms|
  {
    && Value(ms[b]) == Value(ms[a]) + |ms| - 1 && Value(ms[b]) <= MAX_INT
    && (forall i :: 0 <= i < |ms| ==> Value(ms[a]) <= Value(ms[i]) <= Value(ms[b]))
    && (forall i, j :: 0 <= i < j < |ms| ==> Value(ms[i]) != Value(ms[j]))
  }

  /** No middle has a zero in front, or all are equally wide and the first has one. */
  predicate AsWritten(ms: seq<string>)
    requires ms != []
  {
    (forall i :: 0 <= i < |ms| ==> !Pads(ms[i])) || (Pads(ms[0]) && SameWidth(ms))
  }

  /** Names that differ in the numbers of one run, all without zeros in front or all equally
      wide, compress to the pattern from the lowest number to the highest as they are written. */
  lemma RunCompresses(p: string, ms: seq<string>, s: string, a: nat, b: nat)
    requires |ms| >= 2 && Spread(ms) && a < |ms| && b < |ms| && Consecutive(ms, a, b)
    requires AsWritten(ms)
    ensures PatternFit(NamesOf(p, ms, s)) == Some(p + ("{" + ((ms[a] + ("..." + ms[b])) + ("}" + s))))
  {
    PrefixIsFound(p, ms, s);
    SuffixIsFound(p, ms, s);
    MiddlesAre(p, ms, s);
    RunFits(ms, a, b);
    FitIsPattern(NamesOf(p, ms, s), p, ms, s);
    PatternFromTo(p, ms, s, a, b, MinOf(Numbers(ms)));
  }

  lemma BoundOfRun(ms: seq<string>, i: nat, n: nat)
    requires DigitStrings(ms) && i < |ms| && AsWritten(ms) && Value(ms[i]) == n
    ensures Bound(ms, n) == ms[i]
  {
    BoundIsMiddle(ms, i);
  }

  lemma FitIsPattern(names: seq<string>, p: string, ms: seq<string>, s: string)
    requires |names| >= 2 && Lcp(names) == p && Lcs(names) == s
    requires HaveMiddles(names, p, s) && Middles(names, p, s) == ms && MiddlesFit(ms)
    ensures PatternFit(names) == Some(MiddlesPattern(p, ms, s))
  {
  }

  lemma PatternFromTo(p: string, ms: seq<string>, s: string, a: nat, b: nat, n: nat)
    requires DigitStrings(ms) && a < |ms| && b < |ms| && AsWritten(ms)
    requires n == MinOf(Numbers(ms)) && Value(ms[a]) == n && Value(ms[b]) == n + |ms| - 1
    ensures MiddlesPattern(p, ms, s) == p + ("{" + ((ms[a] + ("..." + ms[b])) + ("}" + s)))
  {
    var hi := n + |ms| - 1;
    BoundOfRun(ms, a, n);
    BoundOfRun(ms, b, hi);
    PatternOfRun(p, ms, s, n, hi, ms[a], ms[b]);
  }

  lemma PatternOfRun(p: string, ms: seq<string>, s: string, n: nat, m: nat, lo: string, hi: string)
    requires ms != [] && DigitStrings(ms) && n == MinOf(Numbers(ms)) && m == n + |ms| - 1
    requires Bound(ms, n) == lo && Bound(ms, m) == hi
    ensures MiddlesPattern(p, ms, s) == p + ("{" + ((lo + ("..." + hi)) + ("}" + s)))
  {
  }

  lemma MiddlesAre(p: string, ms: seq<string>, s: string)
    requires DigitStrings(ms)
    ensures HaveMiddles(NamesOf(p, ms, s), p, s) && Middles(NamesOf(p, ms, s), p, s) == ms
  {
    var names := NamesOf(p, ms, s);
    assert forall i :: 0 <= i < |ms| ==> Middle(names[i], p, s) == ms[i];
  }

  lemma BoundIsMiddle(ms: seq<string>, i: nat)
    requires i < |ms| && DigitStrings(ms)
    requires AsWritten(ms)
    ensures Bound(ms, Value(ms[i])) == ms[i]
  {
    if Pads(ms[0]) {
      PaddedOfValue(ms[i]);
    } else {
      ItoaOfValue(ms[i]);
    }
  }

  lemma RunFits(ms: seq<string>, a: nat, b: nat)
    requires DigitStrings(ms) && a < |ms| && b < |ms| && Consecutive(ms, a, b)
    requires Pads(ms[0]) ==> SameWidth(ms)
    ensures MiddlesFit(ms) && MinOf(Numbers(ms)) == Value(ms[a])
  {
    var nums := Numbers(ms);
    assert nums[a] == Value(ms[a]);
    DistinctFillInterval(nums, Value(ms[a]));
  }

  lemma DistinctFillInterval(nums: seq<nat>, lo: nat)
    requires forall i :: 0 <= i < |nums| ==> InInterval(nums[i], lo, |nums|)
    requires forall i, j :: 0 <= i < j < |nums| ==> nums[i] != nums[j]
    ensures Elements(nums) == Interval(lo, |nums|)
  {
    DistinctSize(nums);
    IntervalSize(lo, |nums|);
    SubsetOfSize(Elements(nums), Interval(lo, |nums|));
  }

  lemma {:induction false} DistinctSize(nums: seq<nat>)
    requires forall i, j :: 0 <= i < j < |nums| ==> nums[i] != nums[j]
    ensures |Elements(nums)| == |nums|
  {
    if nums != [] {
      var front, last := nums[..|nums| - 1], nums[|nums| - 1];
      DistinctSize(front);
      LastIsNew(front, last, nums);
      assert Elements(nums) == Elements(front) + {last};
    }
  }

  lemma LastIsNew(front: seq<nat>, last: nat, nums: seq<nat>)
    requires nums == front + [last] && forall i, j :: 0 <= i < j < |nums| ==> nums[i] != nums[j]
    ensures last !in Elements(front)
  {
    forall i | 0 <= i < |front|
      ensures front[i] != last
    {
      assert nums[i] == front[i] && nums[|front|] == last;
    }
  }

  lemma SubsetOfSize(x: set<nat>, y: set<nat>)
    requires x <= y && |x| == |y|
    ensures x == y
  {
    if z :| z in y && z !in x {
      assert x <= y - {z};
      SmallerSubset(x, y - {z});
    }
  }

  lemma {:induction false} SmallerSubset(x: set<nat>, y: set<nat>)
    requires x <= y
    ensures |x| <= |y|
  {
    if x != {} {
      var e :| e in x;
      SmallerSubset(x - {e}, y - {e});
    }
  }

  ghost predicate NothingLost(ms: seq<string>)
    requires ms != []
  {
    Pads(ms[0]) || forall i :: 0 <= i < |ms| ==> !Pads(ms[i])
  }

  lemma LabelsAreMiddles(ms: seq<string>, lo: string, hi: string)
    requires ms != [] && DigitStrings(ms) && MiddlesFit(ms)
    requires lo == Bound(ms, MinOf(Numbers(ms))) && hi == Bound(ms, MinOf(Numbers(ms)) + |ms| - 1)
    requires AllDigits(lo) && AllDigits(hi)
    ensures Labels(lo, hi) == Elements(ms) <==> NothingLost(ms)
  {
    BoundsAreNumbers(ms);
    assert forall n: nat :: Label(lo, hi, n) == Bound(ms, n);
    if NothingLost(ms) {
      forall x | x in Labels(lo, hi)
        ensures x in Elements(ms)
      {
        var n: nat :| Value(lo) <= n <= Value(hi) && x == Label(lo, hi, n);
        var i := MiddleOfNumber(ms, n);
        LabelOfMiddle(ms, i);
        assert ms[i] == x;
      }
      forall x | x in Elements(ms)
        ensures x in Labels(lo, hi)
      {
        var i :| 0 <= i < |ms| && ms[i] == x;
        NumberInRun(ms, i);
        LabelOfMiddle(ms, i);
      }
    } else {
      var i :| 0 <= i < |ms| && Pads(ms[i]);
      assert ms[i] in Elements(ms);
      LostLabel(ms, lo, hi, i);
    }
  }

  lemma LostLabel(ms: seq<string>, lo: string, hi: string, i: nat)
    requires ms != [] && AllDigits(lo) && AllDigits(hi) && i < |ms| && Pads(ms[i]) && !Pads(lo)
    ensures ms[i] !in Labels(lo, hi)
  {
    forall n: nat | Value(lo) <= n <= Value(hi)
      ensures Label(lo, hi, n) != ms[i]
    {
      ItoaDigits(n);
    }
  }

  // ----- The theorem

  predicate BraceFree(list: seq<string>) {
    forall i :: 0 <= i < |list| ==> NoBraces(list[i])
  }

  lemma AffixChars(v: string, p: string, s: string, c: char)
    requires HasPrefix(v, p) && HasSuffix(v, s) && (c in p || c in s)
    ensures c in v
  {
    if c in p {
      var i :| 0 <= i < |p| && p[i] == c;
      assert v[..|p|][i] == v[i];
    } else {
      var i :| 0 <= i < |s| && s[i] == c;
      assert v[|v| - |s|..][i] == v[|v| - |s| + i];
    }
  }

  lemma AffixesBraceFree(list: seq<string>)
    requires list != [] && BraceFree(list)
    ensures NoBraces(Lcp(list)) && NoBraces(Lcs(list))
  {
    LcpIsLongest(list, Lcp(list));
    LcsIsLongest(list, Lcs(list));
    assert HasPrefix(list[0], Lcp(list)) && HasSuffix(list[0], Lcs(list));
  }

  /** What the pattern denotes. */
  lemma PatternDenotes(list: seq<string>)
    requires |list| >= 2 && Fits(list) && BraceFree(list)
    ensures NothingLost(Middles(list, Lcp(list), Lcs(list))) <==> Expand(PatternOf(list)) == Elements(list)
  {
    var p, s := Lcp(list), Lcs(list);
    var ms := Middles(list, p, s);
    AffixesBraceFree(list);
    PatternExpands(p, ms, s);
    NamesAreMiddles(list);
    MiddlesDenote(p, ms, s);
  }

  /** The names the pattern of middles `ms` between `p` and `s` denotes. */
  ghost function Meant(p: string, ms: seq<string>, s: string): set<string>
    requires ms != [] && DigitStrings(ms) && MiddlesFit(ms)
  {
    BoundsAreNumbers(ms);
    var n := MinOf(Numbers(ms));
    Combine(p, Labels(Bound(ms, n), Bound(ms, n + |ms| - 1)), {s})
  }

  lemma MiddlesDenote(p: string, ms: seq<string>, s: string)
    requires ms != [] && DigitStrings(ms) && MiddlesFit(ms)
    ensures Meant(p, ms, s) == Combine(p, Elements(ms), {s}) <==> NothingLost(ms)
  {
    var n := MinOf(Numbers(ms));
    var lo, hi := Bound(ms, n), Bound(ms, n + |ms| - 1);
    BoundsAreNumbers(ms);
    CombineInjective(p, Labels(lo, hi), Elements(ms), s);
    LabelsAreMiddles(ms, lo, hi);
  }

  lemma PatternExpands(p: string, ms: seq<string>, s: string)
    requires ms != [] && DigitStrings(ms) && MiddlesFit(ms) && NoBraces(p) && NoBraces(s)
    ensures Expand(MiddlesPattern(p, ms, s)) == Meant(p, ms, s)
  {
    var n := MinOf(Numbers(ms));
    BoundsAreNumbers(ms);
    ExpandPattern(p, Bound(ms, n), Bound(ms, n + |ms| - 1), s);
    ExpandLiteral(s);
  }

  /** Names that fit a pattern keep their leading zeros: the first of the digits between
      their common prefix and suffix is padded, or none is. */
  ghost predicate Paddable(list: seq<string>) {
    |list| >= 2 && Fits(list) ==> NothingLost(Middles(list, Lcp(list), Lcs(list)))
  }

  /** Compression is lossless exactly under the padding condition: whenever names free of
      braces fit a pattern, the pattern denotes exactly those names if and only if the
      first middle is padded or no middle of several digits starts with a zero. */
  lemma CompressionLossless(list: seq<string>)
    requires PatternFit(list).Some? && BraceFree(list)
    ensures Expand(PatternFit(list).value) == Elements(list) <==> Paddable(list)
  {
    if |list| == 1 {
      ExpandLiteral(list[0]);
    } else {
      PatternDenotes(list);
    }
  }

  /** Names that compress to a pattern of other names: the padding of `09` is lost because
      `10` comes first. */
  lemma LossyExample()
    ensures var list := ["d110", "d109"];
            |list| >= 2 && Fits(list) && PatternOf(list) == "d1{9...10}" && !Paddable(list)
  {
    var list, ms := ["d110", "d109"], ["10", "09"];
    ExampleAffixes();
    ExampleFits();
    ExampleMiddles();
    ExampleBounds();
    assert Pads(ms[1]) && !Pads(ms[0]);
  }

  lemma ExampleMiddles()
    ensures var list := ["d110", "d109"];
            HaveMiddles(list, "d1", "") && Middles(list, "d1", "") == ["10", "09"]
  {
    ExampleAffixes();
    var ms := Middles(["d110", "d109"], "d1", "");
    assert ms[0] == "10" && ms[1] == "09";
  }

  lemma ExampleBounds()
    ensures var ms := ["10", "09"];
            Pattern("d1", Bound(ms, 9), Bound(ms, 10), "") == "d1{9...10}"
  {
    assert Itoa(9) == "9" && Itoa(10) == "10";
  }

  lemma ExampleAffixes()
    ensures var list := ["d110", "d109"];
            Lcp(list) == "d1" && Lcs(list) == "" && HaveMiddles(list, "d1", "")
  {
    var list := ["d110", "d109"];
    var front := list[..1];
    assert front == ["d110"];
    ExamplePrefix();
    assert Lcp(front) == "d110" && Lcs(front) == "d110";
    assert Middle("d110", "d1", "") == "10" && Middle("d109", "d1", "") == "09";
  }

  lemma ExamplePrefix()
    ensures Shared("d110", "d109") == "d1"
  {
    assert "d110"[1..] == "110" && "d109"[1..] == "109";
    assert "110"[1..] == "10" && "109"[1..] == "09";
    assert Shared("10", "09") == "";
    assert Shared("110", "109") == "1";
  }

  lemma ExampleFits()
    ensures var ms := ["10", "09"];
            DigitStrings(ms) && MiddlesFit(ms) && MinOf(Numbers(ms)) == 9
  {
    var ms := ["10", "09"];
    assert "10"[..1] == "1" && "09"[..1] == "0" && "1"[..0] == "" && "0"[..0] == "";
    assert Value("10") == 10 && Value("09") == 9;
    var nums := Numbers(ms);
    assert nums == [10, 9] && nums[..1] == [10];
    forall n
      ensures n in Elements(nums) <==> n in Interval(9, 2)
    {
      assert n in Interval(9, 2) <==> InInterval(n, 9, 2);
      assert nums[0] == 10 && nums[1] == 9;
    }
  }
}
