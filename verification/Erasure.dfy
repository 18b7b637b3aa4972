/** Erasure-set size and parity, written once for remote deployments
    (internal/deploy/params.go:136-206) and once for local ones
    (internal/localdeploy/localdeploy.go:265-321). */
module Erasure {
  import opened Text
  import opened Decimal
  import opened ConfigEnv

  const MIN_SIZE := 2
  const MAX_SIZE := 16

  predicate Divides(size: int, total: nat) {
    MIN_SIZE <= size <= MAX_SIZE && total % size == 0
  }

  /** The largest supported size that divides `total`; 0 when none does. */
  ghost predicate IsLargest(total: nat, best: nat) {
    && (best == 0 || Divides(best, total))
    && forall size :: best < size ==> !Divides(size, total)
  }

  function LargestUpTo(total: nat, size: nat): nat
    requires size <= MAX_SIZE
  {
    if size < MIN_SIZE then 0 else if total % size == 0 then size else LargestUpTo(total, size - 1)
  }

  function LargestDivisor(total: nat): nat {
    LargestUpTo(total, MAX_SIZE)
  }

  lemma {:induction false} LargestUpToIsLargest(total: nat, size: nat)
    requires size <= MAX_SIZE
    ensures var best := LargestUpTo(total, size);
            && (best == 0 || Divides(best, total)) && best <= size
            && forall s :: best < s <= size ==> !Divides(s, total)
  {
    if size >= MIN_SIZE && total % size != 0 {
      LargestUpToIsLargest(total, size - 1);
    }
  }

  lemma LargestIsUnique(total: nat, best: nat)
    ensures IsLargest(total, best) <==> best == LargestDivisor(total)
  {
    LargestUpToIsLargest(total, MAX_SIZE);
    var l := LargestDivisor(total);
    if IsLargest(total, best) {
      assert best < l ==> !Divides(l, total);
      assert l < best ==> !Divides(best, total);
    }
  }

  /** `defaultSetSize` of the remote wizard. */
  method DefaultSetSize(total: nat) returns (best: nat)
    ensures best == LargestDivisor(total)
  {
    best := 0;
    for size := MIN_SIZE to MAX_SIZE + 1
      invariant best == 0 || (Divides(best, total) && best < size)
      invariant forall s :: best < s < size ==> !Divides(s, total)
    {
      if total % size == 0 && size > best {
        best := size;
      }
    }
    LargestIsUnique(total, best);
  }

  lemma FewerSets(total: nat, small: nat, large: nat)
    requires 0 < small <= large
    ensures total / large <= total / small
  {
    var q, r := total / large, total / small;
    assert q * large <= total < (r + 1) * small;
    Times(small, large, q);
    if r < q {
      Times(r + 1, q, small);
    }
  }

  lemma Times(a: nat, b: nat, c: nat)
    requires a <= b
    ensures a * c <= b * c
  {
  }

  /** `computeSetSize` of the local deployment, which minimises the number of sets. */
  method ComputeSetSize(count: nat) returns (size: Option<nat>)
    ensures count <= 1 ==> size == Some(count)
    ensures count >= 2 ==> size == if LargestDivisor(count) == 0 then None else Some(LargestDivisor(count))
  {
    if count <= 1 {
      return Some(count);
    }
    var best, bestSets := 0, count;
    for s := MIN_SIZE to MAX_SIZE + 1
      invariant best == 0 || (Divides(best, count) && best < s && bestSets == count / best)
      invariant forall d :: best < d < s ==> !Divides(d, count)
    {
      if count % s == 0 {
        var sets := count / s;
        if best != 0 {
          FewerSets(count, best, s);
        }
        if best == 0 || sets <= bestSets {
          best, bestSets := s, sets;
        }
      }
    }
    LargestIsUnique(count, best);
    return if best == 0 then None else Some(best);
  }

  // ----- Parity

  function DefaultParity(setSize: int): nat {
    if setSize <= 1 then 0
    else if setSize <= 3 then 1
    else if setSize <= 5 then 2
    else if setSize <= 7 then 3
    else 4
  }

  /** The local copy of the table, which has no row below 1. */
  function LocalDefaultParity(drives: int): nat {
    if drives == 1 then 0
    else if drives == 2 || drives == 3 then 1
    else if drives == 4 || drives == 5 then 2
    else if drives == 6 || drives == 7 then 3
    else 4
  }

  /** The requested topology; 0 asks for the default. */
  datatype Topology = Topology(setSize: int, parity: int)
  {
    function ResolvedSetSize(total: nat): int {
      if setSize > 0 then setSize else LargestDivisor(total)
    }

    function EffectiveParity(total: nat): int {
      if parity != 0 || total <= 1 then parity else DefaultParity(ResolvedSetSize(total))
    }

    /** `validateTopology`. */
    predicate Valid(total: nat) {
      if total <= 1 then parity == 0
      else
        var size := ResolvedSetSize(total);
        && Divides(size, total)
        && 1 <= EffectiveParity(total) <= size / 2
    }
  }

  /** The size and parity a request for `total` drives stands for: what is requested, or the
      largest divisor from 2 to 16 and the parity that goes with it. */
  ghost predicate AsRequested(total: nat, setSize: int, parity: int, size: int, blocks: int) {
    && (if setSize > 0 then size == setSize
        else 2 <= size <= 16 && total % size == 0 && forall d :: size < d <= 16 ==> total % d != 0)
    && (if parity != 0 then blocks == parity
        else
          && (size == 2 || size == 3 ==> blocks == 1)
          && (size == 4 || size == 5 ==> blocks == 2)
          && (size == 6 || size == 7 ==> blocks == 3)
          && (8 <= size <= 16 ==> blocks == 4))
  }

  ghost predicate Supported(total: nat, size: int, blocks: int) {
    2 <= size <= 16 && total % size == 0 && 1 <= blocks <= size / 2
  }

  /** Validation passes exactly when the request stands for a supported size and parity. */
  lemma ValidExactly(total: nat, t: Topology)
    ensures total <= 1 ==> (t.Valid(total) <==> t.parity == 0)
    ensures total >= 2 ==>
              (t.Valid(total) <==>
               exists size, blocks ::
                 AsRequested(total, t.setSize, t.parity, size, blocks) && Supported(total, size, blocks))
  {
    if total >= 2 {
      if t.Valid(total) {
        ResolvedAsRequested(total, t);
      }
      if s, b :| AsRequested(total, t.setSize, t.parity, s, b) && Supported(total, s, b) {
        SameRequest(total, t, s, b);
      }
    }
  }

  /** No larger size divides the drives. */
  lemma LargestByHand(total: nat, size: int)
    requires 2 <= size <= 16 && total % size == 0
    ensures size == LargestDivisor(total) <==> forall d :: size < d <= 16 ==> total % d != 0
  {
    LargestIsUnique(total, size);
    if size == LargestDivisor(total) {
      forall d | size < d <= 16
        ensures total % d != 0
      {
        assert !Divides(d, total);
      }
    }
  }

  /** A request stands for one size and parity only: the ones the deployment resolves. */
  lemma SameRequest(total: nat, t: Topology, size: int, blocks: int)
    requires total >= 2 && AsRequested(total, t.setSize, t.parity, size, blocks) && Supported(total, size, blocks)
    ensures size == t.ResolvedSetSize(total) && blocks == t.EffectiveParity(total) && t.Valid(total)
  {
    LargestByHand(total, size);
  }

  lemma ResolvedAsRequested(total: nat, t: Topology)
    requires total >= 2 && t.Valid(total)
    ensures AsRequested(total, t.setSize, t.parity, t.ResolvedSetSize(total), t.EffectiveParity(total))
    ensures Supported(total, t.ResolvedSetSize(total), t.EffectiveParity(total))
  {
    LargestByHand(total, t.ResolvedSetSize(total));
  }

  /** `normalizeParity`. */
  function NormalizeParity(requested: int, count: nat, setSize: nat): Option<int> {
    if count <= 1 then (if requested > 0 then None else Some(0))
    else if requested == 0 then Some(LocalDefaultParity(setSize))
    else if 1 <= requested <= setSize / 2 then Some(requested)
    else None
  }

  /** With nothing requested a deployment of two or more drives is accepted exactly when
      some supported size divides the drives. */
  lemma DefaultsValid(total: nat)
    requires total >= 2
    ensures Topology(0, 0).Valid(total) <==> exists size :: Divides(size, total)
  {
    LargestIsUnique(total, LargestDivisor(total));
    var l := LargestDivisor(total);
    if size :| Divides(size, total) {
      assert l < size ==> !Divides(size, total);
    }
    assert l == 0 || DefaultParity(l) <= l / 2;
  }

  /** The two implementations accept the same parities, and settle on the same size and
      parity, when no size is requested. */
  lemma LocalAndRemoteAgree(total: nat, requested: int)
    requires total >= 2 && LargestDivisor(total) != 0
    ensures var t := Topology(0, requested);
            var p := NormalizeParity(requested, total, LargestDivisor(total));
            && (p.Some? <==> t.Valid(total))
            && (p.Some? ==> p.value == t.EffectiveParity(total))
  {
    LargestIsUnique(total, LargestDivisor(total));
    assert forall n :: n >= 1 ==> LocalDefaultParity(n) == DefaultParity(n);
  }

  // ----- The two variables of the printed configuration

  const SIZE_KEY := "MINIO_ERASURE_SET_DRIVE_COUNT"
  const CLASS_KEY := "MINIO_STORAGE_CLASS_STANDARD"

  /** The assignments `renderConfigEnv` prints: only what differs from the default. */
  function Printed(total: nat, t: Topology): seq<Pair>
    requires t.Valid(total)
  {
    if total <= 1 then []
    else
      var size, parity := t.ResolvedSetSize(total), t.EffectiveParity(total);
      (if size != LargestDivisor(total) then [(SIZE_KEY, Itoa(size))] else [])
      + (if parity != DefaultParity(size) then [(CLASS_KEY, "EC:" + Itoa(parity))] else [])
  }

  /** How the server reads the two variables, empty meaning unset. */
  function Decoded(total: nat, size: string, class_: string): Option<(nat, nat)> {
    if size != "" && !AllDigits(size) then None
    else
      var n := if size == "" then LargestDivisor(total) else Value(size);
      if class_ == "" then Some((n, DefaultParity(n)))
      else if HasPrefix(class_, "EC:") && AllDigits(class_[3..]) then Some((n, Value(class_[3..])))
      else None
  }

  /** Reading the printed variables, with defaults for those left out, gives exactly the
      size and parity the request stands for. */
  lemma PrintedDecodes(total: nat, t: Topology)
    requires total >= 2 && t.Valid(total)
    ensures var pairs := Printed(total, t);
            Decoded(total, LastPair(pairs, SIZE_KEY), LastPair(pairs, CLASS_KEY)) ==
            Some((t.ResolvedSetSize(total), t.EffectiveParity(total)))
    ensures AsRequested(total, t.setSize, t.parity, t.ResolvedSetSize(total), t.EffectiveParity(total))
  {
    ResolvedAsRequested(total, t);
    var size, parity := t.ResolvedSetSize(total), t.EffectiveParity(total);
    ItoaDigits(size);
    ItoaDigits(parity);
    var a, b := (SIZE_KEY, Itoa(size)), (CLASS_KEY, "EC:" + Itoa(parity));
    assert SIZE_KEY != CLASS_KEY by {
      assert SIZE_KEY[6] == 'E' && CLASS_KEY[6] == 'S';
    }
    var v := b.1;
    assert v[..3] == "EC:" && v[3..] == Itoa(parity);
    FindTwo(size != LargestDivisor(total), a, parity != DefaultParity(size), b);
  }

  lemma FindTwo(first: bool, a: Pair, second: bool, b: Pair)
    requires a.0 != b.0
    ensures var pairs := (if first then [a] else []) + (if second then [b] else []);
            && LastPair(pairs, a.0) == (if first then a.1 else "")
            && LastPair(pairs, b.0) == (if second then b.1 else "")
  {
    assert [a, b][..1] == [a] && [a][..0] == [] && [b][..0] == [];
    assert [a] + [b] == [a, b] && [] + [b] == [b] && [a] + [] == [a];
  }
}
