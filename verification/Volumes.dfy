/** `detectNumericPattern` (internal/deploy/volumes.go:75-144): names that differ in one run
    of consecutive numbers become `prefix{lo...hi}suffix`. */
module Volumes {
  import opened Text
  import opened Decimal
  import opened Affixes
  import opened Ellipses

  /** The values without surrounding space, the blank ones dropped. */
  function Cleaned(values: seq<string>): seq<string> {
    if values == [] then []
    else
      var last := TrimSpace(values[|values| - 1]);
      Cleaned(values[..|values| - 1]) + if last == "" then [] else [last]
  }

  /** A name between spaces gives the name and spaces alone give nothing, wherever they stand. */
  lemma NameIsCleaned(pad: string, name: string, tail: string)
    requires Spaces(pad) && Spaces(tail) && Trimmed(name)
    ensures Cleaned([pad + (name + tail)]) == if name == "" then [] else [name]
  {
    PaddingTrimmed(pad, name, tail);
    assert [pad + (name + tail)][..0] == [];
  }

  lemma {:induction false} CleanedAppend(a: seq<string>, b: seq<string>)
    ensures Cleaned(a + b) == Cleaned(a) + Cleaned(b)
  {
    if b == [] {
      assert a + b == a && Cleaned(a) + [] == Cleaned(a);
    } else {
      var front, last := b[..|b| - 1], TrimSpace(b[|b| - 1]);
      CleanedAppend(a, front);
      assert (a + b)[..|a + b| - 1] == a + front;
      Assoc(Cleaned(a), Cleaned(front), if last == "" then [] else [last]);
    }
  }

  function Middle(v: string, p: string, s: string): string
    requires |p| + |s| <= |v|
  {
    v[|p|..|v| - |s|]
  }

  predicate HasMiddle(v: string, p: string, s: string) {
    |p| + |s| <= |v| && AllDigits(Middle(v, p, s))
  }

  predicate HaveMiddles(list: seq<string>, p: string, s: string) {
    forall i :: 0 <= i < |list| ==> HasMiddle(list[i], p, s)
  }

  function Middles(list: seq<string>, p: string, s: string): (ms: seq<string>)
    requires HaveMiddles(list, p, s)
    ensures |ms| == |list| && forall i :: 0 <= i < |ms| ==> ms[i] == Middle(list[i], p, s) && AllDigits(ms[i])
  {
    seq(|list|, i requires 0 <= i < |list| && HasMiddle(list[i], p, s) => Middle(list[i], p, s))
  }

  predicate DigitStrings(ms: seq<string>) {
    forall i :: 0 <= i < |ms| ==> AllDigits(ms[i])
  }

  function Numbers(ms: seq<string>): (nums: seq<nat>)
    requires DigitStrings(ms)
    ensures |nums| == |ms| && forall i :: 0 <= i < |nums| ==> nums[i] == Value(ms[i])
  {
    seq(|ms|, i requires 0 <= i < |ms| && AllDigits(ms[i]) => Value(ms[i]))
  }

  predicate InInterval(n: nat, lo: nat, k: nat) {
    lo <= n < lo + k
  }

  ghost function Interval(lo: nat, k: nat): set<nat> {
    set n: nat | n < lo + k && InInterval(n, lo, k)
  }

  ghost function Elements<T>(xs: seq<T>): set<T> {
    set x | x in xs
  }

  /** The numbers are `lo`, `lo + 1`, and so on, each once, in some order. */
  ghost predicate Run(nums: seq<nat>, lo: nat) {
    Elements(nums) == Interval(lo, |nums|)
  }

  function MinOf(nums: seq<nat>): (m: nat)
    requires nums != []
    ensures m in nums && forall i :: 0 <= i < |nums| ==> m <= nums[i]
  {
    if |nums| == 1 then nums[0]
    else
      var m := MinOf(nums[..|nums| - 1]);
      if nums[|nums| - 1] < m then nums[|nums| - 1] else m
  }

  predicate SameWidth(ms: seq<string>) {
    forall i :: 0 <= i < |ms| ==> |ms[i]| == |ms[0]|
  }

  ghost predicate MiddlesFit(ms: seq<string>)
    requires ms != [] && DigitStrings(ms)
  {
    && (Pads(ms[0]) ==> SameWidth(ms))
    && (forall i :: 0 <= i < |ms| ==> Value(ms[i]) <= MAX_INT)
    && Run(Numbers(ms), MinOf(Numbers(ms)))
  }

  /** Two or more names compress: between their common prefix and suffix stand the numbers
      of one run, equally wide when the first is padded. */
  ghost predicate Fits(list: seq<string>)
    requires |list| >= 2
  {
    var p, s := Lcp(list), Lcs(list);
    HaveMiddles(list, p, s) && MiddlesFit(Middles(list, p, s))
  }

  /** A bound as it is printed: padded exactly when the first middle is. */
  function Bound(ms: seq<string>, n: nat): string
    requires ms != []
  {
    if Pads(ms[0]) then Padded(|ms[0]|, n) else Itoa(n)
  }

  function PatternOf(list: seq<string>): string
    requires |list| >= 2 && HaveMiddles(list, Lcp(list), Lcs(list))
  {
    MiddlesPattern(Lcp(list), Middles(list, Lcp(list), Lcs(list)), Lcs(list))
  }

  /** The pattern of middles between a prefix and a suffix. */
  function MiddlesPattern(p: string, ms: seq<string>, s: string): string
    requires ms != [] && DigitStrings(ms)
  {
    var lo := MinOf(Numbers(ms));
    Pattern(p, Bound(ms, lo), Bound(ms, lo + |ms| - 1), s)
  }

  /** What `detectNumericPattern` returns for the cleaned names. */
  ghost function PatternFit(list: seq<string>): Option<string> {
    if list == [] then None
    else if |list| == 1 then Some(list[0])
    else if Fits(list) then Some(PatternOf(list))
    else None
  }

  // ----- Runs of numbers

  lemma {:induction false} ElementsSize<T>(xs: seq<T>)
    ensures |Elements(xs)| <= |xs|
    ensures forall i, j :: 0 <= i < j < |xs| && xs[i] == xs[j] ==> |Elements(xs)| < |xs|
  {
    if xs != [] {
      var front, last := xs[..|xs| - 1], xs[|xs| - 1];
      ElementsSize(front);
      assert Elements(xs) == Elements(front) + {last};
      forall i, j | 0 <= i < j < |xs| && xs[i] == xs[j]
        ensures |Elements(xs)| < |xs|
      {
        if j < |front| {
          assert front[i] == front[j];
        } else {
          assert front[i] == last && last in Elements(front);
          assert Elements(xs) == Elements(front);
        }
      }
    }
  }

  lemma {:induction false} IntervalSize(lo: nat, k: nat)
    ensures |Interval(lo, k)| == k
  {
    if k > 0 {
      IntervalSize(lo, k - 1);
      assert Interval(lo, k) == Interval(lo, k - 1) + {lo + k - 1};
    }
  }

  lemma DuplicateIsNoRun(nums: seq<nat>, i: nat, j: nat, lo: nat)
    requires i < j < |nums| && nums[i] == nums[j]
    ensures !Run(nums, lo)
  {
    ElementsSize(nums);
    IntervalSize(lo, |nums|);
  }

  predicate Increasing(nums: seq<nat>) {
    forall i, j :: 0 <= i < j < |nums| ==> nums[i] < nums[j]
  }

  lemma GapIsNoRun(nums: seq<nat>, i: nat, lo: nat)
    requires Increasing(nums) && 0 < i < |nums| && nums[i] != nums[i - 1] + 1
    ensures !Run(nums, lo)
  {
    var gap, k := nums[i - 1] + 1, |nums|;
    forall j | 0 <= j < k
      ensures nums[j] != gap
    {
      assert j < i - 1 || j == i - 1 || j == i || j > i;
    }
    assert gap !in Elements(nums);
    assert nums[i - 1] in Elements(nums) && nums[i] in Elements(nums);
    assert InInterval(nums[i - 1], lo, k) && InInterval(nums[i], lo, k) ==> InInterval(gap, lo, k);
  }

  lemma StepsMakeRun(nums: seq<nat>)
    requires nums != [] && forall i :: 0 <= i < |nums| ==> nums[i] == nums[0] + i
    ensures Run(nums, nums[0])
  {
    forall n | n in Interval(nums[0], |nums|)
      ensures n in Elements(nums)
    {
      assert nums[n - nums[0]] == n;
    }
  }

  // ----- The method

  function Inserted(xs: seq<nat>, at: nat, x: nat): seq<nat>
    requires at <= |xs|
  {
    xs[..at] + [x] + xs[at..]
  }

  lemma InsertedElements(xs: seq<nat>, at: nat, x: nat)
    requires at <= |xs|
    ensures multiset(Inserted(xs, at, x)) == multiset(xs) + multiset{x}
  {
    assert xs == xs[..at] + xs[at..];
  }

  predicate Ordered(xs: seq<nat>) {
    forall i, j :: 0 <= i < j < |xs| ==> xs[i] <= xs[j]
  }

  lemma InsertedInOrder(xs: seq<nat>, at: nat, x: nat)
    requires at <= |xs| && Ordered(xs)
    requires (forall i :: at <= i < |xs| ==> xs[i] > x) && (at > 0 ==> xs[at - 1] <= x)
    ensures Ordered(Inserted(xs, at, x))
  {
    var ys := Inserted(xs, at, x);
    forall i, j | 0 <= i < j < |ys|
      ensures ys[i] <= ys[j]
    {
      assert ys[i] == if i < at then xs[i] else if i == at then x else xs[i - 1];
      assert ys[j] == if j < at then xs[j] else if j == at then x else xs[j - 1];
    }
  }

  /** `sort.Ints`. */
  method SortInts(nums: seq<nat>) returns (sorted: seq<nat>)
    ensures multiset(sorted) == multiset(nums) && |sorted| == |nums|
    ensures Ordered(sorted)
  {
    sorted := [];
    for k := 0 to |nums|
      invariant |sorted| == k && multiset(sorted) == multiset(nums[..k])
      invariant Ordered(sorted)
    {
      var at := |sorted|;
      while at > 0 && sorted[at - 1] > nums[k]
        invariant 0 <= at <= |sorted|
        invariant forall i :: at <= i < |sorted| ==> sorted[i] > nums[k]
      {
        at := at - 1;
      }
      assert nums[..k + 1] == nums[..k] + [nums[k]];
      InsertedElements(sorted, at, nums[k]);
      InsertedInOrder(sorted, at, nums[k]);
      sorted := Inserted(sorted, at, nums[k]);
    }
    assert nums[..|nums|] == nums;
  }

  lemma SortedFacts(nums: seq<nat>, sorted: seq<nat>)
    requires multiset(sorted) == multiset(nums) && |sorted| == |nums| && nums != []
    requires Ordered(sorted)
    requires forall i, j :: 0 <= i < j < |nums| ==> nums[i] != nums[j]
    ensures Increasing(sorted) && Elements(sorted) == Elements(nums) && sorted[0] == MinOf(nums)
  {
    assert forall n :: n in nums <==> n in multiset(nums);
    assert forall n :: n in sorted <==> n in multiset(sorted);
    forall i, j | 0 <= i < j < |sorted|
      ensures sorted[i] != sorted[j]
    {
      if sorted[i] == sorted[j] {
        TwiceInMultiset(sorted, i, j);
        OnceInMultiset(nums, sorted[i]);
        assert false;
      }
    }
    assert sorted[0] in nums && MinOf(nums) in sorted;
  }

  lemma TwiceInMultiset(xs: seq<nat>, i: nat, j: nat)
    requires i < j < |xs| && xs[i] == xs[j]
    ensures multiset(xs)[xs[i]] >= 2
  {
    var a, b := xs[..j], xs[j..];
    assert xs == a + b && a[i] == xs[i] && b[0] == xs[i];
    assert multiset(xs) == multiset(a) + multiset(b) && xs[i] in multiset(a) && xs[i] in multiset(b);
  }

  lemma {:induction false} OnceInMultiset(xs: seq<nat>, x: nat)
    requires forall i, j :: 0 <= i < j < |xs| ==> xs[i] != xs[j]
    ensures multiset(xs)[x] <= 1
  {
    if xs != [] {
      var front, last := xs[..|xs| - 1], xs[|xs| - 1];
      OnceInMultiset(front, x);
      assert xs == front + [last];
      if last == x {
        assert x !in front && x !in multiset(front);
      }
    }
  }

  method CleanList(values: seq<string>) returns (list: seq<string>)
    ensures list == Cleaned(values)
  {
    list := [];
    for i := 0 to |values|
      invariant list == Cleaned(values[..i])
    {
      assert values[..i + 1][..i] == values[..i];
      var trimmed := TrimSpace(values[i]);
      if trimmed != "" {
        list := list + [trimmed];
      }
    }
    assert values[..|values|] == values;
  }

  method TakeMiddles(list: seq<string>, p: string, s: string) returns (ok: bool, ms: seq<string>)
    ensures ok <==> HaveMiddles(list, p, s)
    ensures ok ==> ms == Middles(list, p, s)
  {
    ms := [];
    for i := 0 to |list|
      invariant |ms| == i && HaveMiddles(list[..i], p, s)
      invariant forall j :: 0 <= j < i ==> HasMiddle(list[j], p, s) && ms[j] == Middle(list[j], p, s)
    {
      if |p| + |s| > |list[i]| || !AllDigits(Middle(list[i], p, s)) {
        assert !HasMiddle(list[i], p, s);
        return false, [];
      }
      ms := ms + [Middle(list[i], p, s)];
    }
    ok := true;
  }

  /** The numbers, in order, unless one is too large or comes twice. */
  method TakeNumbers(ms: seq<string>) returns (ok: bool, nums: seq<nat>)
    requires DigitStrings(ms)
    ensures !ok ==> (exists i :: 0 <= i < |ms| && Value(ms[i]) > MAX_INT) || forall lo :: !Run(Numbers(ms), lo)
    ensures ok ==> nums == Numbers(ms) && forall i :: 0 <= i < |ms| ==> Value(ms[i]) <= MAX_INT
    ensures ok ==> forall i, j :: 0 <= i < j < |nums| ==> nums[i] != nums[j]
  {
    nums := [];
    var seen: set<nat> := {};
    for i := 0 to |ms|
      invariant |nums| == i && seen == Elements(nums)
      invariant forall j :: 0 <= j < i ==> nums[j] == Value(ms[j]) && nums[j] <= MAX_INT
      invariant forall j, k :: 0 <= j < k < i ==> nums[j] != nums[k]
    {
      var n := Atoi(ms[i]);
      if n.None? {
        return false, [];
      }
      if n.value in seen {
        ghost var j :| 0 <= j < i && nums[j] == n.value;
        forall lo
          ensures !Run(Numbers(ms), lo)
        {
          DuplicateIsNoRun(Numbers(ms), j, i, lo);
        }
        return false, [];
      }
      seen := seen + {n.value};
      nums := nums + [n.value];
    }
    ok := true;
  }

  method FitMiddles(ms: seq<string>) returns (fits: bool, lo: nat, hi: nat)
    requires ms != [] && DigitStrings(ms)
    ensures fits <==> MiddlesFit(ms)
    ensures fits ==> lo == MinOf(Numbers(ms)) && hi == lo + |ms| - 1
  {
    lo, hi := 0, 0;
    var width := |ms[0]|;
    if Pads(ms[0]) {
      for i := 0 to |ms|
        invariant forall j :: 0 <= j < i ==> |ms[j]| == width
      {
        if |ms[i]| != width {
          return false, 0, 0;
        }
      }
    }
    var ok, nums := TakeNumbers(ms);
    if !ok {
      return false, 0, 0;
    }
    var sorted := SortInts(nums);
    SortedFacts(nums, sorted);
    for i := 1 to |sorted|
      invariant forall j :: 0 <= j < i ==> sorted[j] == sorted[0] + j
    {
      if sorted[i] != sorted[i - 1] + 1 {
        GapIsNoRun(sorted, i, MinOf(nums));
        return false, 0, 0;
      }
    }
    StepsMakeRun(sorted);
    fits, lo, hi := true, sorted[0], sorted[|sorted| - 1];
  }

  method FitList(list: seq<string>) returns (fit: Option<string>)
    requires |list| >= 2
    ensures fit == if Fits(list) then Some(PatternOf(list)) else None
  {
    var prefix := LongestCommonPrefix(list);
    var suffix := LongestCommonSuffix(list);
    var ok, ms := TakeMiddles(list, prefix, suffix);
    if !ok {
      return None;
    }
    var fits, lo, hi := FitMiddles(ms);
    if !fits {
      return None;
    }
    fit := Some(Pattern(prefix, Bound(ms, lo), Bound(ms, hi), suffix));
  }

  method DetectNumericPattern(values: seq<string>) returns (fit: Option<string>)
    ensures fit == PatternFit(Cleaned(values))
  {
    var list := CleanList(values);
    if |list| == 0 {
      return None;
    }
    if |list| == 1 {
      return Some(list[0]);
    }
    fit := FitList(list);
  }
}
