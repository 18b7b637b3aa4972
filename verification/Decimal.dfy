/** Decimal digits: `strconv.Itoa`, `strconv.Atoi` on digit strings, `%0*d`. */
module Decimal {
  import opened Text

  predicate IsDigit(c: char) {
    '0' <= c <= '9'
  }

  /** `allDigits`. */
  predicate AllDigits(s: string) {
    s != "" && forall i :: 0 <= i < |s| ==> IsDigit(s[i])
  }

  function DigitOf(d: nat): char
    requires d < 10
  {
    '0' + d as char
  }

  function DigitValue(c: char): nat
    requires IsDigit(c)
  {
    c as nat - '0' as nat
  }

  function Itoa(n: nat): string {
    if n < 10 then [DigitOf(n)] else Itoa(n / 10) + [DigitOf(n % 10)]
  }

  /** The number a digit string writes. */
  function Value(s: string): nat
    requires forall i :: 0 <= i < |s| ==> IsDigit(s[i])
  {
    if s == "" then 0 else 10 * Value(s[..|s| - 1]) + DigitValue(s[|s| - 1])
  }

  const MAX_INT := 0x7fff_ffff_ffff_ffff

  /** `strconv.Atoi` on a digit string: fails above the largest 64-bit integer. */
  function Atoi(s: string): Option<nat>
    requires AllDigits(s)
  {
    if Value(s) <= MAX_INT then Some(Value(s)) else None
  }

  /** `fmt.Sprintf("%0*d", width, n)`. */
  function Padded(width: nat, n: nat): string {
    Zeros(width - |Itoa(n)|) + Itoa(n)
  }

  function Zeros(k: int): string {
    if k <= 0 then "" else "0" + Zeros(k - 1)
  }

  lemma {:induction false} ItoaDigits(n: nat)
    ensures AllDigits(Itoa(n)) && Value(Itoa(n)) == n
    ensures |Itoa(n)| > 1 ==> Itoa(n)[0] != '0'
    ensures Itoa(n)[0] == '0' ==> n == 0
  {
    if n < 10 {
      assert [DigitOf(n)][..0] == "";
    } else {
      ItoaDigits(n / 10);
      var front := Itoa(n / 10);
      assert Itoa(n)[..|front|] == front && Itoa(n)[0] == front[0];
    }
  }

  /** A digit string without a leading zero is what `Itoa` prints for its value. */
  lemma {:induction false} ItoaOfValue(s: string)
    requires AllDigits(s) && (|s| > 1 ==> s[0] != '0')
    ensures Itoa(Value(s)) == s
  {
    var front := s[..|s| - 1];
    if |s| == 1 {
      assert Value(front) == 0;
      assert s == [s[0]];
    } else {
      ItoaOfValue(front);
      ValuePositive(front);
      assert s == front + [s[|s| - 1]];
    }
  }

  lemma {:induction false} ValuePositive(s: string)
    requires AllDigits(s) && s[0] != '0'
    ensures Value(s) > 0
  {
    if |s| > 1 {
      ValuePositive(s[..|s| - 1]);
    }
  }

  // ----- Strings of one width

  function Pow10(k: nat): nat {
    if k == 0 then 1 else 10 * Pow10(k - 1)
  }

  lemma {:induction false} Pow10Grows(a: nat, b: nat)
    requires a <= b
    ensures 1 <= Pow10(a) <= Pow10(b)
  {
    if a < b {
      Pow10Grows(a, b - 1);
    } else if a > 0 {
      Pow10Grows(a - 1, a - 1);
    }
  }

  /** The first digit tells how large a number of its width can be. */
  lemma {:induction false} ValueBounds(s: string)
    requires AllDigits(s)
    ensures Value(s) < Pow10(|s|)
    ensures s[0] == '0' <==> Value(s) < Pow10(|s| - 1)
  {
    if |s| == 1 {
      assert s[..0] == "";
    } else {
      var front := s[..|s| - 1];
      ValueBounds(front);
      assert Pow10(|s| - 1) == 10 * Pow10(|s| - 2);
    }
  }

  lemma {:induction false} SameWidthSameValue(a: string, b: string)
    requires |a| == |b| && (forall i :: 0 <= i < |a| ==> IsDigit(a[i]) && IsDigit(b[i])) && Value(a) == Value(b)
    ensures a == b
  {
    if a != "" {
      var n := |a| - 1;
      assert DigitValue(a[n]) == DigitValue(b[n]) && Value(a[..n]) == Value(b[..n]);
      SameWidthSameValue(a[..n], b[..n]);
      assert a == a[..n] + [a[n]] && b == b[..n] + [b[n]];
    }
  }

  lemma {:induction false} ZerosAddNothing(k: int, s: string)
    requires forall i :: 0 <= i < |s| ==> IsDigit(s[i])
    ensures var t := Zeros(k) + s;
            && |t| == |s| + (if k > 0 then k else 0)
            && (forall i :: 0 <= i < |t| ==> IsDigit(t[i])) && Value(t) == Value(s)
    decreases |s|, if k > 0 then k else 0
  {
    if k > 0 {
      ZerosAddNothing(k - 1, s);
      var u := Zeros(k - 1) + s;
      assert Zeros(k) + s == "0" + u;
      ZeroAddsNothing(u);
    } else {
      assert "" + s == s;
    }
  }

  lemma {:induction false} ZeroAddsNothing(u: string)
    requires forall i :: 0 <= i < |u| ==> IsDigit(u[i])
    ensures (forall i :: 0 <= i < |"0" + u| ==> IsDigit(("0" + u)[i])) && Value("0" + u) == Value(u)
  {
    if u == "" {
      assert "0" + u == "0" && "0"[..0] == "";
    } else {
      ZeroAddsNothing(u[..|u| - 1]);
      assert ("0" + u)[..|u|] == "0" + u[..|u| - 1];
    }
  }

  lemma ItoaWidth(m: string)
    requires AllDigits(m)
    ensures |Itoa(Value(m))| <= |m|
  {
    var t := Itoa(Value(m));
    ItoaDigits(Value(m));
    ValueBounds(m);
    ValueBounds(t);
    if |t| > |m| {
      Pow10Grows(|m|, |t| - 1);
      assert false;
    }
  }

  lemma PaddedDigits(width: nat, n: nat)
    requires |Itoa(n)| <= width
    ensures |Padded(width, n)| == width && AllDigits(Padded(width, n)) && Value(Padded(width, n)) == n
  {
    ItoaDigits(n);
    ZerosAddNothing(width - |Itoa(n)|, Itoa(n));
  }

  /** Padding a number to the width of a digit string that writes it gives the string. */
  lemma PaddedOfValue(m: string)
    requires AllDigits(m)
    ensures Padded(|m|, Value(m)) == m
  {
    var n := Value(m);
    ItoaWidth(m);
    PaddedDigits(|m|, n);
    SameWidthSameValue(Padded(|m|, n), m);
  }
}
