/** `longestCommonPrefix` and `longestCommonSuffix` (internal/deploy/volumes.go:146-176). */
module Affixes {
  import opened Text

  /** The longest prefix two strings share. */
  function Shared(a: string, b: string): string {
    if a == "" || b == "" || a[0] != b[0] then "" else [a[0]] + Shared(a[1..], b[1..])
  }

  /** The longest suffix two strings share. */
  function SharedEnd(a: string, b: string): string {
    if a == "" || b == "" || a[|a| - 1] != b[|b| - 1] then ""
    else SharedEnd(a[..|a| - 1], b[..|b| - 1]) + [a[|a| - 1]]
  }

  function Lcp(values: seq<string>): string {
    if values == [] then ""
    else if |values| == 1 then values[0]
    else Shared(Lcp(values[..|values| - 1]), values[|values| - 1])
  }

  function Lcs(values: seq<string>): string {
    if values == [] then ""
    else if |values| == 1 then values[0]
    else SharedEnd(Lcs(values[..|values| - 1]), values[|values| - 1])
  }

  // ----- Prefixes

  lemma PrefixCons(c: char, s: string, q: string)
    requires q != ""
    ensures HasPrefix([c] + s, q) <==> c == q[0] && HasPrefix(s, q[1..])
  {
    var t := [c] + s;
    if |q| <= |t| {
      assert t[..|q|] == [c] + s[..|q| - 1] && q == [q[0]] + q[1..];
      if t[..|q|] == q {
        assert t[..|q|][1..] == s[..|q| - 1];
      }
    }
  }

  lemma {:induction false} SharedIsLongest(a: string, b: string, q: string)
    ensures HasPrefix(Shared(a, b), q) <==> HasPrefix(a, q) && HasPrefix(b, q)
  {
    if q != "" && a != "" && b != "" {
      assert a == [a[0]] + a[1..] && b == [b[0]] + b[1..];
      PrefixCons(a[0], a[1..], q);
      PrefixCons(b[0], b[1..], q);
      if a[0] == b[0] {
        PrefixCons(a[0], Shared(a[1..], b[1..]), q);
        SharedIsLongest(a[1..], b[1..], q[1..]);
      }
    }
  }

  /** A string is a common prefix exactly when it is a prefix of `Lcp`. */
  lemma {:induction false} LcpIsLongest(values: seq<string>, q: string)
    requires values != []
    ensures HasPrefix(Lcp(values), q) <==> forall i :: 0 <= i < |values| ==> HasPrefix(values[i], q)
  {
    if |values| > 1 {
      var front := values[..|values| - 1];
      LcpIsLongest(front, q);
      SharedIsLongest(Lcp(front), values[|values| - 1], q);
      assert forall i :: 0 <= i < |front| ==> values[i] == front[i];
    }
  }

  lemma {:induction false} SharedWithPrefix(p: string, v: string)
    ensures HasPrefix(v, p) ==> Shared(p, v) == p
    ensures !HasPrefix(v, p) ==> Shared(p, v) == Shared(p[..|p| - 1], v)
  {
    if p != "" && v != "" {
      assert v == [v[0]] + v[1..] && p == [p[0]] + p[1..];
      PrefixCons(v[0], v[1..], p);
      if p[0] == v[0] {
        SharedWithPrefix(p[1..], v[1..]);
        if |p| > 1 {
          assert p[..|p| - 1][1..] == p[1..][..|p| - 2];
        }
      }
    }
  }

  lemma {:induction false} LcpEmpty(values: seq<string>, i: nat)
    requires 0 < i <= |values| && Lcp(values[..i]) == ""
    ensures Lcp(values) == ""
    decreases |values|
  {
    if i < |values| {
      var front := values[..|values| - 1];
      assert front[..i] == values[..i];
      LcpEmpty(front, i);
    } else {
      assert values[..i] == values;
    }
  }

  lemma LcpNext(values: seq<string>, i: nat)
    requires 0 < i < |values|
    ensures Lcp(values[..i + 1]) == Shared(Lcp(values[..i]), values[i])
  {
    assert values[..i + 1][..i] == values[..i];
  }

  method LongestCommonPrefix(values: seq<string>) returns (prefix: string)
    ensures prefix == Lcp(values)
  {
    if |values| == 0 {
      return "";
    }
    prefix := values[0];
    for i := 1 to |values|
      invariant prefix == Lcp(values[..i])
    {
      LcpNext(values, i);
      ghost var all := Lcp(values[..i + 1]);
      while !HasPrefix(values[i], prefix)
        invariant Shared(prefix, values[i]) == all
        decreases |prefix|
      {
        SharedWithPrefix(prefix, values[i]);
        prefix := prefix[..|prefix| - 1];
        if prefix == "" {
          LcpEmpty(values, i + 1);
          return;
        }
      }
      SharedWithPrefix(prefix, values[i]);
    }
    assert values[..|values|] == values;
  }

  // ----- Suffixes

  lemma SuffixSnoc(s: string, c: char, q: string)
    requires q != ""
    ensures HasSuffix(s + [c], q) <==> c == q[|q| - 1] && HasSuffix(s, q[..|q| - 1])
  {
    var t := s + [c];
    if |q| <= |t| {
      assert t[|t| - |q|..] == s[|t| - |q|..] + [c] && q == q[..|q| - 1] + [q[|q| - 1]];
      if t[|t| - |q|..] == q {
        assert t[|t| - |q|..][..|q| - 1] == s[|t| - |q|..];
      }
    }
  }

  lemma {:induction false} SharedEndIsLongest(a: string, b: string, q: string)
    ensures HasSuffix(SharedEnd(a, b), q) <==> HasSuffix(a, q) && HasSuffix(b, q)
  {
    if q != "" && a != "" && b != "" {
      var a', b' := a[..|a| - 1], b[..|b| - 1];
      assert a == a' + [a[|a| - 1]] && b == b' + [b[|b| - 1]];
      SuffixSnoc(a', a[|a| - 1], q);
      SuffixSnoc(b', b[|b| - 1], q);
      if a[|a| - 1] == b[|b| - 1] {
        SuffixSnoc(SharedEnd(a', b'), a[|a| - 1], q);
        SharedEndIsLongest(a', b', q[..|q| - 1]);
      }
    }
  }

  /** A string is a common suffix exactly when it is a suffix of `Lcs`. */
  lemma {:induction false} LcsIsLongest(values: seq<string>, q: string)
    requires values != []
    ensures HasSuffix(Lcs(values), q) <==> forall i :: 0 <= i < |values| ==> HasSuffix(values[i], q)
  {
    if |values| > 1 {
      var front := values[..|values| - 1];
      LcsIsLongest(front, q);
      SharedEndIsLongest(Lcs(front), values[|values| - 1], q);
      AllButLast(values, q);
    }
  }

  lemma AllButLast(values: seq<string>, q: string)
    requires values != []
    ensures var front := values[..|values| - 1];
            (forall i :: 0 <= i < |values| ==> HasSuffix(values[i], q)) <==>
            (forall i :: 0 <= i < |front| ==> HasSuffix(front[i], q)) && HasSuffix(values[|values| - 1], q)
  {
    assert forall i :: 0 <= i < |values| - 1 ==> values[i] == values[..|values| - 1][i];
  }

  lemma {:induction false} SharedEndWithSuffix(p: string, v: string)
    ensures HasSuffix(v, p) ==> SharedEnd(p, v) == p
    ensures !HasSuffix(v, p) ==> SharedEnd(p, v) == SharedEnd(p[1..], v)
  {
    if p != "" && v != "" {
      var p', v' := p[..|p| - 1], v[..|v| - 1];
      assert v == v' + [v[|v| - 1]] && p == p' + [p[|p| - 1]];
      SuffixSnoc(v', v[|v| - 1], p);
      if p[|p| - 1] == v[|v| - 1] {
        SharedEndWithSuffix(p', v');
        if |p| > 1 {
          assert p[1..][..|p| - 2] == p'[1..];
        }
      }
    }
  }

  lemma {:induction false} LcsEmpty(values: seq<string>, i: nat)
    requires 0 < i <= |values| && Lcs(values[..i]) == ""
    ensures Lcs(values) == ""
    decreases |values|
  {
    if i < |values| {
      var front := values[..|values| - 1];
      assert front[..i] == values[..i];
      LcsEmpty(front, i);
    } else {
      assert values[..i] == values;
    }
  }

  lemma LcsNext(values: seq<string>, i: nat)
    requires 0 < i < |values|
    ensures Lcs(values[..i + 1]) == SharedEnd(Lcs(values[..i]), values[i])
  {
    assert values[..i + 1][..i] == values[..i];
  }

  method LongestCommonSuffix(values: seq<string>) returns (suffix: string)
    ensures suffix == Lcs(values)
  {
    if |values| == 0 {
      return "";
    }
    suffix := values[0];
    for i := 1 to |values|
      invariant suffix == Lcs(values[..i])
    {
      LcsNext(values, i);
      ghost var all := Lcs(values[..i + 1]);
      while !HasSuffix(values[i], suffix)
        invariant SharedEnd(suffix, values[i]) == all
        decreases |suffix|
      {
        SharedEndWithSuffix(suffix, values[i]);
        suffix := suffix[1..];
        if suffix == "" {
          LcsEmpty(values, i + 1);
          return;
        }
      }
      SharedEndWithSuffix(suffix, values[i]);
    }
    assert values[..|values|] == values;
  }
}
