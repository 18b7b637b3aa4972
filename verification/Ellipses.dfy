/** The meaning of `{lo...hi}` in a volume argument, as the external ellipses library gives
    it: a decimal range, padded to the bound's width when `lo` has more than one digit and
    starts with `0`. Anything else is literal. */
module Ellipses {
  import opened Text
  import opened Decimal
  import opened ConfigEnv

  predicate Pads(lo: string) {
    |lo| > 1 && lo[0] == '0'
  }

  function Label(lo: string, hi: string, n: nat): string {
    if Pads(lo) then Padded(|hi|, n) else Itoa(n)
  }

  ghost function Labels(lo: string, hi: string): set<string>
    requires AllDigits(lo) && AllDigits(hi)
  {
    set n: nat | Value(lo) <= n <= Value(hi) :: Label(lo, hi, n)
  }

  function FindDots(s: string): int {
    if |s| < 3 then -1
    else if s[..3] == "..." then 0
    else
      var i := FindDots(s[1..]);
      if i < 0 then -1 else i + 1
  }

  lemma {:induction false} FindDotsBounds(s: string)
    ensures -1 <= FindDots(s) && (FindDots(s) >= 0 ==> FindDots(s) + 3 <= |s|)
  {
    if |s| >= 3 {
      FindDotsBounds(s[1..]);
    }
  }

  /** The two bounds of a range, when `inner` is one. */
  function Range(inner: string): Option<(string, string)> {
    FindDotsBounds(inner);
    var d := FindDots(inner);
    if d < 0 then None
    else
      var lo, hi := inner[..d], inner[d + 3..];
      if AllDigits(lo) && AllDigits(hi) && Value(lo) <= Value(hi) then Some((lo, hi)) else None
  }

  lemma RangeIsDigits(inner: string)
    requires Range(inner).Some?
    ensures AllDigits(Range(inner).value.0) && AllDigits(Range(inner).value.1)
  {
  }

  lemma LabelIsDigits(lo: string, hi: string, l: string)
    requires AllDigits(lo) && AllDigits(hi) && l in Labels(lo, hi)
    ensures AllDigits(l)
  {
    var n: nat :| Value(lo) <= n <= Value(hi) && l == Label(lo, hi, n);
    ItoaDigits(n);
    if Pads(lo) {
      ZerosAddNothing(|hi| - |Itoa(n)|, Itoa(n));
    }
  }

  ghost function Combine(prefix: string, labels: set<string>, tails: set<string>): set<string> {
    set l, t | l in labels && t in tails :: prefix + (l + t)
  }

  /** The strings an argument denotes. */
  ghost function Expand(arg: string): set<string>
    decreases |arg|, 1
  {
    IndexOfBounds(arg, '{');
    var i := IndexOf(arg, '{');
    if i < 0 then {arg}
    else
      var braced := Braced(arg[i + 1..]);
      if braced.None? then {arg} else Combine(arg[..i], braced.value.0, braced.value.1)
  }

  /** After a `{`: the labels of a well-formed range, and what the rest denotes. */
  ghost function Braced(rest: string): Option<(set<string>, set<string>)>
    decreases |rest|, 2
  {
    IndexOfBounds(rest, '}');
    var j := IndexOf(rest, '}');
    if j < 0 || Range(rest[..j]).None? then None
    else
      RangeIsDigits(rest[..j]);
      var r := Range(rest[..j]).value;
      Some((Labels(r.0, r.1), Expand(rest[j + 1..])))
  }

  predicate NoBraces(s: string) {
    '{' !in s && '}' !in s
  }

  lemma ExpandLiteral(s: string)
    requires '{' !in s
    ensures Expand(s) == {s}
  {
    IndexOfBounds(s, '{');
  }

  lemma {:induction false} DotsAfterDigits(lo: string, hi: string)
    requires forall i :: 0 <= i < |lo| ==> IsDigit(lo[i])
    ensures FindDots(lo + ("..." + hi)) == |lo|
  {
    var s := lo + ("..." + hi);
    if lo == "" {
      assert s[..3] == "...";
    } else {
      assert s[0] == lo[0] && s[..3][0] == s[0];
      assert s[1..] == lo[1..] + ("..." + hi);
      DotsAfterDigits(lo[1..], hi);
    }
  }

  /** A pattern as the compressor prints it. */
  function Pattern(prefix: string, lo: string, hi: string, rest: string): string {
    prefix + ("{" + ((lo + ("..." + hi)) + ("}" + rest)))
  }

  /** A brace-free string or one pattern. */
  ghost predicate OnePattern(h: string) {
    NoBraces(h) || exists p, lo, hi, s :: IsPattern(h, p, lo, hi, s)
  }

  predicate IsPattern(h: string, p: string, lo: string, hi: string, s: string) {
    && h == Pattern(p, lo, hi, s) && NoBraces(p) && NoBraces(s)
    && AllDigits(lo) && AllDigits(hi) && Value(lo) <= Value(hi)
  }

  lemma InnerIsPlain(lo: string, hi: string)
    requires AllDigits(lo) && AllDigits(hi)
    ensures NoBraces(lo + ("..." + hi))
  {
    assert NoBraces("...");
  }

  lemma RangeOfPattern(lo: string, hi: string)
    requires AllDigits(lo) && AllDigits(hi) && Value(lo) <= Value(hi)
    ensures Range(lo + ("..." + hi)) == Some((lo, hi)) && NoBraces(lo + ("..." + hi))
  {
    InnerIsPlain(lo, hi);
    DotsAfterDigits(lo, hi);
    var inner := lo + ("..." + hi);
    assert inner[..|lo|] == lo && inner[|lo| + 3..] == hi;
  }

  lemma ExpandPattern(prefix: string, lo: string, hi: string, rest: string)
    requires '{' !in prefix && AllDigits(lo) && AllDigits(hi) && Value(lo) <= Value(hi)
    ensures Expand(Pattern(prefix, lo, hi, rest)) == Combine(prefix, Labels(lo, hi), Expand(rest))
  {
    BracedPattern(lo, hi, rest);
    assert "{" == ['{'];
    ExpandAt(prefix, (lo + ("..." + hi)) + ("}" + rest));
  }

  lemma BracedPattern(lo: string, hi: string, rest: string)
    requires AllDigits(lo) && AllDigits(hi) && Value(lo) <= Value(hi)
    ensures Braced((lo + ("..." + hi)) + ("}" + rest)) == Some((Labels(lo, hi), Expand(rest)))
  {
    RangeOfPattern(lo, hi);
    BracedRange(lo + ("..." + hi), lo, hi, rest);
  }

  lemma BracedRange(inner: string, lo: string, hi: string, rest: string)
    requires '}' !in inner && Range(inner) == Some((lo, hi)) && AllDigits(lo) && AllDigits(hi)
    ensures Braced(inner + ("}" + rest)) == Some((Labels(lo, hi), Expand(rest)))
  {
    SplitAt(inner, '}', rest);
    assert "}" == ['}'];
  }

  ghost function Prefixed(prefix: string, s: set<string>): set<string> {
    set t | t in s :: prefix + t
  }

  lemma PrefixedSingle(prefix: string, t: string)
    ensures Prefixed(prefix, {t}) == {prefix + t}
  {
    assert t in {t};
  }

  lemma PrefixCombined(prefix: string, head: string, labels: set<string>, tails: set<string>)
    ensures Combine(prefix + head, labels, tails) == Prefixed(prefix, Combine(head, labels, tails))
  {
    forall l, t | l in labels && t in tails
      ensures (prefix + head) + (l + t) == prefix + (head + (l + t))
    {
      Assoc(prefix, head, l + t);
    }
    forall x | x in Combine(prefix + head, labels, tails)
      ensures x in Prefixed(prefix, Combine(head, labels, tails))
    {
      var l, t :| l in labels && t in tails && x == (prefix + head) + (l + t);
      assert head + (l + t) in Combine(head, labels, tails);
    }
  }

  /** A literal prefix stays in front of every string. */
  lemma ExpandAfterPrefix(prefix: string, arg: string)
    requires NoBraces(prefix)
    ensures Expand(prefix + arg) == Prefixed(prefix, Expand(arg))
  {
    IndexOfBounds(arg, '{');
    var i := IndexOf(arg, '{');
    if i < 0 {
      PrefixedSingle(prefix, arg);
      ExpandLiteral(prefix + arg);
    } else {
      PrefixedAt(prefix, arg, arg[..i], arg[i + 1..]);
    }
  }

  lemma PrefixedAt(prefix: string, arg: string, head: string, rest: string)
    requires NoBraces(prefix) && '{' !in head && arg == head + (['{'] + rest)
    ensures Expand(prefix + arg) == Prefixed(prefix, Expand(arg))
  {
    Assoc(prefix, head, ['{'] + rest);
    ExpandAt(head, rest);
    ExpandAt(prefix + head, rest);
    var braced := Braced(rest);
    if braced.Some? {
      PrefixCombined(prefix, head, braced.value.0, braced.value.1);
    } else {
      PrefixedSingle(prefix, arg);
    }
  }

  /** An argument by what stands before and after its first brace. */
  lemma ExpandAt(head: string, rest: string)
    requires '{' !in head
    ensures var arg := head + (['{'] + rest); var braced := Braced(rest);
            Expand(arg) == if braced.None? then {arg} else Combine(head, braced.value.0, braced.value.1)
  {
    SplitAt(head, '{', rest);
  }
}
