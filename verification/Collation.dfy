/** `collateHostnames` (internal/nodes/nodes.go:72-116). A hostname is a string of bytes,
    written as characters; among bytes only '0' to '9' are digits. */
module Collation {
  import opened Text
  import opened Decimal

  /** -1, 0 or 1: `strings.Compare`. */
  function CompareText(a: string, b: string): int {
    if a == "" then (if b == "" then 0 else -1)
    else if b == "" then 1
    else if a[0] != b[0] then (if a[0] < b[0] then -1 else 1)
    else CompareText(a[1..], b[1..])
  }

  function Sign(n: int): int {
    if n < 0 then -1 else if n > 0 then 1 else 0
  }

  // ----- Hostnames as alternating runs

  /** A run of digits stands for its number, any other run for its lower-case text. */
  datatype Token = Num(n: nat) | Word(text: string)

  /** How many characters at the front are, or are not, digits. */
  function RunLength(s: string, digit: bool): nat {
    if s == "" || IsDigit(s[0]) != digit then 0 else 1 + RunLength(s[1..], digit)
  }

  lemma {:induction false} RunBounds(s: string, digit: bool)
    ensures RunLength(s, digit) <= |s|
    ensures forall i :: 0 <= i < RunLength(s, digit) ==> IsDigit(s[i]) == digit
    ensures RunLength(s, digit) < |s| ==> IsDigit(s[RunLength(s, digit)]) != digit
    ensures s != "" && IsDigit(s[0]) == digit ==> RunLength(s, digit) > 0
  {
    if s != "" {
      RunBounds(s[1..], digit);
    }
  }

  /** The whole of `s` up to `n` is one run and the next character is not in it. */
  lemma {:induction false} RunLengthIs(s: string, digit: bool, n: nat)
    requires n <= |s| && (forall i :: 0 <= i < n ==> IsDigit(s[i]) == digit)
    requires n < |s| ==> IsDigit(s[n]) != digit
    ensures RunLength(s, digit) == n
  {
    if n > 0 {
      RunLengthIs(s[1..], digit, n - 1);
    }
  }

  function FirstToken(s: string, lower: string -> string): Token
    requires s != ""
  {
    var digit := IsDigit(s[0]);
    RunBounds(s, digit);
    var run := s[..RunLength(s, digit)];
    if digit then Num(Value(run)) else Word(lower(run))
  }

  function AfterFirst(s: string): string
    requires s != ""
  {
    RunBounds(s, IsDigit(s[0]));
    s[RunLength(s, IsDigit(s[0]))..]
  }

  function Tokens(s: string, lower: string -> string): seq<Token>
    decreases |s|
  {
    if s == "" then []
    else
      RunBounds(s, IsDigit(s[0]));
      [FirstToken(s, lower)] + Tokens(AfterFirst(s), lower)
  }

  /** Numbers by value, words by text; against a word that begins below '0' a number comes
      second, against any other first. */
  function CompareToken(t: Token, u: Token): int {
    match (t, u)
    case (Num(m), Num(n)) => Sign(m - n)
    case (Word(a), Word(b)) => CompareText(a, b)
    case (Num(_), Word(b)) => if b != "" && b[0] < '0' then 1 else -1
    case (Word(a), Num(_)) => if a != "" && a[0] < '0' then -1 else 1
  }

  /** Lexicographic order. */
  function CompareTokens(ts: seq<Token>, us: seq<Token>): int {
    if ts == [] then (if us == [] then 0 else -1)
    else if us == [] then 1
    else if CompareToken(ts[0], us[0]) != 0 then CompareToken(ts[0], us[0])
    else CompareTokens(ts[1..], us[1..])
  }

  /** Lower-casing a run neither empties it nor moves its first byte across the digits. */
  ghost predicate KeepsClass(lower: string -> string) {
    forall r :: r != "" && !IsDigit(r[0]) ==>
      lower(r) != "" && !IsDigit(lower(r)[0]) && (lower(r)[0] < '0' <==> r[0] < '0')
  }

  // ----- The comparator

  /** `takeRun`. */
  method TakeRun(s: string, digit: bool) returns (run: string, rest: string)
    ensures RunLength(s, digit) <= |s|
    ensures run == s[..RunLength(s, digit)] && rest == s[RunLength(s, digit)..]
  {
    for i := 0 to |s|
      invariant forall j :: 0 <= j < i ==> IsDigit(s[j]) == digit
    {
      if IsDigit(s[i]) != digit {
        RunLengthIs(s, digit, i);
        return s[..i], s[i..];
      }
    }
    RunLengthIs(s, digit, |s|);
    return s, "";
  }

  /** `strings.TrimLeft(s, "0")`. */
  function TrimZeros(s: string): string {
    if s != "" && s[0] == '0' then TrimZeros(s[1..]) else s
  }

  /** The comparison of two digit runs: by length without leading zeros, then by text. */
  function CompareDigits(a: string, b: string): int {
    var t, u := TrimZeros(a), TrimZeros(b);
    if |t| != |u| then |t| - |u| else CompareText(t, u)
  }

  /** How two runs of one kind compare. */
  function CompareRuns(digit: bool, a: string, b: string, lower: string -> string): int {
    if digit then CompareDigits(a, b) else CompareText(lower(a), lower(b))
  }

  /** `collateHostnames`: the sign of the result is the order of the tokens. */
  method CollateHostnames(left: string, right: string, lower: string -> string) returns (c: int)
    requires KeepsClass(lower)
    ensures Sign(c) == Collated(left, right, lower)
  {
    var a, b := left, right;
    while |a| > 0 && |b| > 0
      invariant Collated(a, b, lower) == Collated(left, right, lower)
      decreases |a|
    {
      var aDigit, bDigit := IsDigit(a[0]), IsDigit(b[0]);
      if aDigit != bDigit {
        MixedDecides(a, b, lower);
        return CompareText(a, b);
      }
      RunBounds(a, aDigit);
      var aRun, aRest := TakeRun(a, aDigit);
      var bRun, bRest := TakeRun(b, bDigit);
      RunsDecide(a, b, aRun, bRun, lower);
      var d := CompareRuns(aDigit, aRun, bRun, lower);
      if d != 0 {
        return d;
      }
      a, b := aRest, bRest;
    }
    EndDecides(a, b, lower);
    return |a| - |b|;
  }

  /** The order the sort uses. */
  function Collated(a: string, b: string, lower: string -> string): int {
    CompareTokens(Tokens(a, lower), Tokens(b, lower))
  }

  lemma EndDecides(a: string, b: string, lower: string -> string)
    requires a == "" || b == ""
    ensures Collated(a, b, lower) == Sign(|a| - |b|)
  {
  }

  lemma RunsDecide(a: string, b: string, aRun: string, bRun: string, lower: string -> string)
    requires a != "" && b != "" && IsDigit(a[0]) == IsDigit(b[0])
    requires RunLength(a, IsDigit(a[0])) <= |a| && aRun == a[..RunLength(a, IsDigit(a[0]))]
    requires RunLength(b, IsDigit(b[0])) <= |b| && bRun == b[..RunLength(b, IsDigit(b[0]))]
    ensures var d := CompareRuns(IsDigit(a[0]), aRun, bRun, lower);
            Collated(a, b, lower) == if d != 0 then Sign(d) else Collated(AfterFirst(a), AfterFirst(b), lower)
  {
    FirstDecides(a, b, lower);
    RunsCompare(IsDigit(a[0]), aRun, bRun, lower) by {
      RunBounds(a, IsDigit(a[0]));
      RunBounds(b, IsDigit(b[0]));
    }
  }

  function TokenOf(digit: bool, run: string, lower: string -> string): Token
    requires digit ==> Digits(run)
  {
    if digit then Num(Value(run)) else Word(lower(run))
  }

  lemma RunsCompare(digit: bool, a: string, b: string, lower: string -> string)
    requires digit ==> Digits(a) && Digits(b)
    ensures Sign(CompareRuns(digit, a, b, lower)) == CompareToken(TokenOf(digit, a, lower), TokenOf(digit, b, lower))
  {
    if digit {
      DigitsByValue(a, b);
    } else {
      TextSign(lower(a), lower(b));
    }
  }

  lemma {:induction false} TextSign(a: string, b: string)
    ensures Sign(CompareText(a, b)) == CompareText(a, b)
  {
    if a != "" && b != "" && a[0] == b[0] {
      TextSign(a[1..], b[1..]);
    }
  }

  lemma MixedDecides(a: string, b: string, lower: string -> string)
    requires a != "" && b != "" && IsDigit(a[0]) != IsDigit(b[0]) && KeepsClass(lower)
    ensures Collated(a, b, lower) == CompareText(a, b) == Sign(CompareText(a, b))
  {
    FirstDecides(a, b, lower);
    MixedByText(a, b, lower);
    TextSign(a, b);
  }

  lemma FirstDecides(a: string, b: string, lower: string -> string)
    requires a != "" && b != ""
    ensures var t, u := FirstToken(a, lower), FirstToken(b, lower);
            CompareTokens(Tokens(a, lower), Tokens(b, lower)) ==
            if CompareToken(t, u) != 0 then CompareToken(t, u)
            else CompareTokens(Tokens(AfterFirst(a), lower), Tokens(AfterFirst(b), lower))
  {
    var ts, us := Tokens(a, lower), Tokens(b, lower);
    assert ts[1..] == Tokens(AfterFirst(a), lower) && us[1..] == Tokens(AfterFirst(b), lower);
  }

  /** The first token of a word keeps the side of the digits its first byte is on. */
  lemma WordToken(s: string, lower: string -> string)
    requires s != "" && !IsDigit(s[0]) && KeepsClass(lower)
    ensures var t := FirstToken(s, lower);
            t.Word? && t.text != "" && (t.text[0] < '0' <==> s[0] < '0')
  {
    RunBounds(s, false);
    var run := s[..RunLength(s, false)];
    assert run != "" && run[0] == s[0];
  }

  /** A number against a word is decided by the first bytes of the two hostnames. */
  lemma MixedByText(a: string, b: string, lower: string -> string)
    requires a != "" && b != "" && IsDigit(a[0]) != IsDigit(b[0]) && KeepsClass(lower)
    ensures CompareToken(FirstToken(a, lower), FirstToken(b, lower)) == CompareText(a, b) != 0
  {
    if IsDigit(a[0]) {
      WordToken(b, lower);
    } else {
      WordToken(a, lower);
    }
  }

  predicate Digits(s: string) {
    forall i :: 0 <= i < |s| ==> IsDigit(s[i])
  }

  lemma {:induction false} TrimZerosValue(s: string)
    requires Digits(s)
    ensures var t := TrimZeros(s);
            Digits(t) && Value(t) == Value(s) && (t == "" || t[0] != '0')
  {
    if s != "" && s[0] == '0' {
      TrimZerosValue(s[1..]);
      ZeroAddsNothing(s[1..]);
      assert s == "0" + s[1..];
    }
  }

  lemma {:induction false} CompareSnoc(a: string, c: char, b: string, d: char)
    requires |a| == |b|
    ensures CompareText(a + [c], b + [d]) == if CompareText(a, b) != 0 then CompareText(a, b)
                                            else if c < d then -1 else if c == d then 0 else 1
  {
    if a == "" {
      assert ("" + [c])[1..] == "" && ("" + [d])[1..] == "";
    } else {
      assert (a + [c])[1..] == a[1..] + [c] && (b + [d])[1..] == b[1..] + [d];
      CompareSnoc(a[1..], c, b[1..], d);
    }
  }

  lemma {:induction false} SameWidthByValue(t: string, u: string)
    requires Digits(t) && Digits(u) && |t| == |u|
    ensures CompareText(t, u) == Sign(Value(t) - Value(u))
  {
    if t != "" {
      var n := |t| - 1;
      SameWidthByValue(t[..n], u[..n]);
      CompareSnoc(t[..n], t[n], u[..n], u[n]);
      assert t == t[..n] + [t[n]] && u == u[..n] + [u[n]];
    }
  }

  lemma NarrowerIsLess(t: string, u: string)
    requires Digits(t) && Digits(u) && |t| < |u| && u[0] != '0'
    ensures Value(t) < Value(u)
  {
    ValueBounds(u);
    Pow10Grows(|t|, |u| - 1);
    if t != "" {
      ValueBounds(t);
    }
  }

  /** Digit runs of any length compare as their numbers. */
  lemma DigitsByValue(a: string, b: string)
    requires Digits(a) && Digits(b)
    ensures Sign(CompareDigits(a, b)) == Sign(Value(a) - Value(b))
    ensures CompareDigits(a, b) == 0 <==> Value(a) == Value(b)
  {
    var t, u := TrimZeros(a), TrimZeros(b);
    TrimZerosValue(a);
    TrimZerosValue(b);
    if |t| < |u| {
      NarrowerIsLess(t, u);
    } else if |u| < |t| {
      NarrowerIsLess(u, t);
    } else {
      SameWidthByValue(t, u);
    }
  }

  // ----- A total preorder

  lemma {:induction false} TextOrder(a: string, b: string, c: string)
    ensures CompareText(a, a) == 0 && CompareText(a, b) == -CompareText(b, a)
    ensures CompareText(a, b) == 0 <==> a == b
    ensures CompareText(a, b) <= 0 && CompareText(b, c) <= 0 ==> CompareText(a, c) <= 0
  {
    if a != "" {
      TextOrder(a[1..], a[1..], a[1..]);
    }
    if a != "" && b != "" {
      assert a == [a[0]] + a[1..] && b == [b[0]] + b[1..];
      TextOrder(a[1..], b[1..], if c == "" then "" else c[1..]);
    }
  }

  predicate WellFormed(t: Token) {
    t.Word? ==> t.text != "" && !IsDigit(t.text[0])
  }

  lemma TextFirst(a: string, b: string)
    requires a != "" && b != "" && CompareText(a, b) <= 0
    ensures a[0] <= b[0]
  {
  }

  lemma TokenOrder(t: Token, u: Token, v: Token)
    requires WellFormed(t) && WellFormed(u) && WellFormed(v)
    ensures CompareToken(t, t) == 0 && CompareToken(t, u) == -CompareToken(u, t)
    ensures CompareToken(t, u) == 0 <==> t == u
    ensures CompareToken(t, u) <= 0 && CompareToken(u, v) <= 0 ==> CompareToken(t, v) <= 0
  {
    if t.Word? {
      TextOrder(t.text, t.text, t.text);
      if u.Word? {
        TextOrder(t.text, u.text, if v.Word? then v.text else "");
        if CompareText(t.text, u.text) <= 0 {
          TextFirst(t.text, u.text);
        }
      }
    }
    if u.Word? && v.Word? && CompareText(u.text, v.text) <= 0 {
      TextFirst(u.text, v.text);
    }
  }

  predicate AllWellFormed(ts: seq<Token>) {
    forall i :: 0 <= i < |ts| ==> WellFormed(ts[i])
  }

  lemma {:induction false} TokensOrder(ts: seq<Token>, us: seq<Token>, vs: seq<Token>)
    requires AllWellFormed(ts) && AllWellFormed(us) && AllWellFormed(vs)
    ensures CompareTokens(ts, ts) == 0 && CompareTokens(ts, us) == -CompareTokens(us, ts)
    ensures CompareTokens(ts, us) == 0 <==> ts == us
    ensures CompareTokens(ts, us) <= 0 && CompareTokens(us, vs) <= 0 ==> CompareTokens(ts, vs) <= 0
  {
    if ts != [] {
      TokenOrder(ts[0], ts[0], ts[0]);
      TokensOrder(ts[1..], ts[1..], ts[1..]);
    }
    if ts != [] && us != [] {
      assert ts == [ts[0]] + ts[1..] && us == [us[0]] + us[1..];
      if vs == [] {
        TokenOrder(ts[0], us[0], us[0]);
        TokensOrder(ts[1..], us[1..], []);
      } else {
        TokenOrder(ts[0], us[0], vs[0]);
        TokenOrder(us[0], vs[0], ts[0]);
        TokenOrder(vs[0], ts[0], us[0]);
        TokensOrder(ts[1..], us[1..], vs[1..]);
      }
    }
  }

  lemma {:induction false} TokensWellFormed(s: string, lower: string -> string)
    requires KeepsClass(lower)
    ensures AllWellFormed(Tokens(s, lower))
    decreases |s|
  {
    if s != "" {
      RunBounds(s, IsDigit(s[0]));
      TokensWellFormed(AfterFirst(s), lower);
      var run := s[..RunLength(s, IsDigit(s[0]))];
      assert run != "" && run[0] == s[0];
      assert WellFormed(FirstToken(s, lower));
    }
  }

  /** For all hostnames the comparator is reflexive, changes sign when its arguments swap,
      is transitive, and takes two hostnames for equal exactly when their tokens are. */
  lemma TotalPreorder(a: string, b: string, c: string, lower: string -> string)
    requires KeepsClass(lower)
    ensures Collated(a, a, lower) == 0
    ensures Collated(a, b, lower) == -Collated(b, a, lower)
    ensures Collated(a, b, lower) <= 0 && Collated(b, c, lower) <= 0 ==> Collated(a, c, lower) <= 0
    ensures Collated(a, b, lower) == 0 <==> Tokens(a, lower) == Tokens(b, lower)
  {
    TokensWellFormed(a, lower);
    TokensWellFormed(b, lower);
    TokensWellFormed(c, lower);
    TokensOrder(Tokens(a, lower), Tokens(b, lower), Tokens(c, lower));
  }

  /** Numbers and words alternate, so two hostnames that begin with the same kind never
      compare a number with a word later. */
  lemma {:induction false} KindsAlternate(s: string, lower: string -> string, i: nat)
    requires i < |Tokens(s, lower)|
    ensures s != "" && (Tokens(s, lower)[i].Num? <==> (IsDigit(s[0]) <==> i % 2 == 0))
    decreases |s|
  {
    RunBounds(s, IsDigit(s[0]));
    if i > 0 {
      var rest := AfterFirst(s);
      assert Tokens(s, lower)[i] == Tokens(rest, lower)[i - 1];
      KindsAlternate(rest, lower, i - 1);
    }
  }

  lemma MixedOnlyAtFirst(a: string, b: string, lower: string -> string, i: nat)
    requires a != "" && b != "" && IsDigit(a[0]) == IsDigit(b[0])
    requires i < |Tokens(a, lower)| && i < |Tokens(b, lower)|
    ensures Tokens(a, lower)[i].Num? <==> Tokens(b, lower)[i].Num?
  {
    KindsAlternate(a, lower, i);
    KindsAlternate(b, lower, i);
  }

  // ----- ASCII lower case is a lower case

  function AsciiLower(s: string): string {
    if s == "" then ""
    else [if 'A' <= s[0] <= 'Z' then 'a' + (s[0] - 'A') else s[0]] + AsciiLower(s[1..])
  }

  lemma AsciiKeepsClass()
    ensures KeepsClass(AsciiLower)
  {
    forall r: string | r != "" && !IsDigit(r[0])
      ensures AsciiLower(r) != "" && !IsDigit(AsciiLower(r)[0]) && (AsciiLower(r)[0] < '0' <==> r[0] < '0')
    {
      AsciiFirst(r);
    }
  }

  lemma AsciiFirst(r: string)
    requires r != "" && !IsDigit(r[0])
    ensures AsciiLower(r) != "" && !IsDigit(AsciiLower(r)[0]) && (AsciiLower(r)[0] < '0' <==> r[0] < '0')
  {
    assert AsciiLower(r)[0] == if 'A' <= r[0] <= 'Z' then 'a' + (r[0] - 'A') else r[0];
  }

  // ----- The order, in the words of the hostnames

  /** `p` and `q` meet between two runs. */
  predicate Meet(p: string, q: string) {
    p == "" || q == "" || IsDigit(p[|p| - 1]) != IsDigit(q[0])
  }

  predicate OneKind(run: string, digit: bool) {
    run != "" && forall i :: 0 <= i < |run| ==> IsDigit(run[i]) == digit
  }

  lemma RunIsToken(run: string, rest: string, digit: bool, lower: string -> string)
    requires OneKind(run, digit) && Meet(run, rest)
    ensures Tokens(run + rest, lower) == [TokenOf(digit, run, lower)] + Tokens(rest, lower)
  {
    var s := run + rest;
    RunLengthIs(s, digit, |run|);
    assert s[..|run|] == run && s[|run|..] == rest;
  }

  lemma FirstRun(p: string) returns (run: string, rest: string)
    requires p != ""
    ensures p == run + rest && |rest| < |p| && OneKind(run, IsDigit(p[0])) && Meet(run, rest)
    ensures rest != "" ==> rest[|rest| - 1] == p[|p| - 1]
    ensures rest == "" ==> run[|run| - 1] == p[|p| - 1]
  {
    RunBounds(p, IsDigit(p[0]));
    var n := RunLength(p, IsDigit(p[0]));
    run, rest := p[..n], p[n..];
  }

  lemma {:induction false} TokensAppend(p: string, q: string, lower: string -> string)
    requires Meet(p, q)
    ensures Tokens(p + q, lower) == Tokens(p, lower) + Tokens(q, lower)
    decreases |p|
  {
    if p == "" {
      assert p + q == q;
    } else {
      var run, rest := FirstRun(p);
      FirstRunGoes(run, rest, q, IsDigit(p[0]), lower);
      TokensAppend(rest, q, lower);
      Assoc([TokenOf(IsDigit(p[0]), run, lower)], Tokens(rest, lower), Tokens(q, lower));
    }
  }

  lemma FirstRunGoes(run: string, rest: string, q: string, digit: bool, lower: string -> string)
    requires OneKind(run, digit) && Meet(run, rest) && Meet(run + rest, q)
    ensures Tokens(run + rest, lower) == [TokenOf(digit, run, lower)] + Tokens(rest, lower)
    ensures Tokens((run + rest) + q, lower) == [TokenOf(digit, run, lower)] + Tokens(rest + q, lower)
  {
    RunIsToken(run, rest, digit, lower);
    Assoc(run, rest, q);
    if rest == "" {
      assert rest + q == q && run + rest == run;
    }
    RunIsToken(run, rest + q, digit, lower);
  }

  lemma {:induction false} CommonTokensSkipped(ts: seq<Token>, us: seq<Token>, vs: seq<Token>)
    ensures CompareTokens(ts + us, ts + vs) == CompareTokens(us, vs)
  {
    if ts == [] {
      assert ts + us == us && ts + vs == vs;
    } else {
      SameToken(ts[0]);
      assert (ts + us)[1..] == ts[1..] + us && (ts + vs)[1..] == ts[1..] + vs;
      CommonTokensSkipped(ts[1..], us, vs);
    }
  }

  lemma SameToken(t: Token)
    ensures CompareToken(t, t) == 0
  {
    if t.Word? {
      TextOrder(t.text, t.text, "");
    }
  }

  lemma RunsBehind(p: string, digit: bool, a: string, x: string, b: string, y: string, lower: string -> string)
    requires OneKind(a, digit) && OneKind(b, digit) && Meet(p, a) && Meet(p, b) && Meet(a, x) && Meet(b, y)
    ensures var c := CompareToken(TokenOf(digit, a, lower), TokenOf(digit, b, lower));
            Collated(p + (a + x), p + (b + y), lower) == if c != 0 then c else Collated(x, y, lower)
  {
    TokensAppend(p, a + x, lower);
    TokensAppend(p, b + y, lower);
    RunIsToken(a, x, digit, lower);
    RunIsToken(b, y, digit, lower);
    CommonTokensSkipped(Tokens(p, lower), Tokens(a + x, lower), Tokens(b + y, lower));
  }

  /** Behind a common beginning two numbers decide by their values, leading zeros aside;
      when they are equal, what follows decides. */
  lemma NumbersDecide(p: string, m: string, x: string, n: string, y: string, lower: string -> string)
    requires OneKind(m, true) && OneKind(n, true) && Meet(p, m) && Meet(m, x) && Meet(n, y)
    ensures Value(m) < Value(n) ==> Collated(p + (m + x), p + (n + y), lower) == -1
    ensures Value(m) > Value(n) ==> Collated(p + (m + x), p + (n + y), lower) == 1
    ensures Value(m) == Value(n) ==> Collated(p + (m + x), p + (n + y), lower) == Collated(x, y, lower)
  {
    RunsBehind(p, true, m, x, n, y, lower);
  }

  /** Two words decide by their lower-case texts. */
  lemma WordsDecide(p: string, u: string, x: string, v: string, y: string, lower: string -> string)
    requires OneKind(u, false) && OneKind(v, false) && Meet(p, u) && Meet(u, x) && Meet(v, y)
    ensures lower(u) != lower(v) ==> Collated(p + (u + x), p + (v + y), lower) == CompareText(lower(u), lower(v))
    ensures lower(u) == lower(v) ==> Collated(p + (u + x), p + (v + y), lower) == Collated(x, y, lower)
  {
    RunsBehind(p, false, u, x, v, y, lower);
    TextOrder(lower(u), lower(v), "");
  }

  /** A hostname that ends where another goes on with a further run comes first. */
  lemma ShorterFirst(p: string, q: string, lower: string -> string)
    requires q != "" && Meet(p, q)
    ensures Collated(p, p + q, lower) == -1 && Collated(p + q, p, lower) == 1
  {
    TokensAppend(p, q, lower);
    var ts := Tokens(p, lower);
    assert ts + [] == ts && Tokens(q, lower) != [];
    CommonTokensSkipped(ts, [], Tokens(q, lower));
    CommonTokensSkipped(ts, Tokens(q, lower), []);
  }

  /** `strings.Compare`: the first difference decides, a text before all that continue it. */
  lemma {:induction false} FirstDifferenceDecides(p: string, a: string, b: string)
    ensures a == "" && b != "" ==> CompareText(p + a, p + b) == -1 && CompareText(p + b, p + a) == 1
    ensures a != "" && b != "" && a[0] < b[0] ==> CompareText(p + a, p + b) == -1 && CompareText(p + b, p + a) == 1
  {
    if p == "" {
      assert p + a == a && p + b == b;
    } else {
      assert (p + a)[1..] == p[1..] + a && (p + b)[1..] == p[1..] + b;
      FirstDifferenceDecides(p[1..], a, b);
    }
  }
}
