/** `localVolumePathsFromEnv` (internal/operations/redeploy_preflight.go:128-182): the local
    paths a MINIO_VOLUMES value names. */
module VolumeReader {
  import opened Text
  import opened Decimal
  import opened ConfigEnv
  import opened Ellipses
  import opened Volumes

  /** The first word's length: up to the first space. */
  function WordEnd(s: string): nat {
    if s == "" || IsSpace(s[0]) then 0 else 1 + WordEnd(s[1..])
  }

  lemma {:induction false} WordEndBounds(s: string)
    ensures WordEnd(s) <= |s| && (s != "" && !IsSpace(s[0]) ==> WordEnd(s) > 0)
  {
    if s != "" {
      WordEndBounds(s[1..]);
    }
  }

  /** `strings.Fields`. */
  function Fields(s: string): seq<string>
    decreases |s|
  {
    if s == "" then []
    else if IsSpace(s[0]) then Fields(s[1..])
    else
      WordEndBounds(s);
      [s[..WordEnd(s)]] + Fields(s[WordEnd(s)..])
  }

  const SCHEME_MARK := "://"

  /** `strings.Index(s, "://")`. */
  function SchemeAt(s: string): int {
    if |s| < 3 then -1
    else if s[..3] == SCHEME_MARK then 0
    else
      var i := SchemeAt(s[1..]);
      if i < 0 then -1 else i + 1
  }

  lemma {:induction false} SchemeAtBounds(s: string)
    ensures -1 <= SchemeAt(s) && (SchemeAt(s) >= 0 ==> SchemeAt(s) + 3 <= |s|)
  {
    if |s| >= 3 {
      SchemeAtBounds(s[1..]);
    }
  }

  /** The path of an argument; a URL without a path has none. */
  function PathOf(token: string): Option<string> {
    SchemeAtBounds(token);
    var i := SchemeAt(token);
    if i < 0 then Some(token)
    else
      var rest := token[i + 3..];
      IndexOfBounds(rest, '/');
      var slash := IndexOf(rest, '/');
      if slash < 0 then None else Some(rest[slash..])
  }

  /** `expandVolumeArg`, which asks the external ellipses library. */
  type Library = string -> seq<string>

  /** It expands an argument without braces, or with one decimal range, as `Expand` says.
      Nothing is assumed of other arguments. */
  ghost predicate Expands(library: Library) {
    forall arg :: OnePattern(arg) ==> Elements(library(arg)) == Expand(arg)
  }

  /** The paths one argument names. */
  function TokenPaths(token: string, library: Library): set<string> {
    match PathOf(token)
    case None => {}
    case Some(path) => set x | x in library(path) && TrimSpace(x) != "" :: TrimSpace(x)
  }

  function AllPaths(tokens: seq<string>, library: Library): set<string> {
    if tokens == [] then {}
    else AllPaths(tokens[..|tokens| - 1], library) + TokenPaths(tokens[|tokens| - 1], library)
  }

  /** What the value of MINIO_VOLUMES names. */
  function PathsOf(value: string, library: Library): set<string> {
    AllPaths(Fields(value), library)
  }

  // ----- The method

  predicate Before(a: string, b: string) {
    if b == "" then false
    else if a == "" then true
    else a[0] < b[0] || (a[0] == b[0] && Before(a[1..], b[1..]))
  }

  lemma {:induction false} BeforeIsOrder(a: string, b: string, c: string)
    ensures !Before(a, a)
    ensures Before(a, b) || a == b || Before(b, a)
    ensures Before(a, b) && Before(b, c) ==> Before(a, c)
  {
    if a != "" {
      BeforeIsOrder(a[1..], a[1..], a[1..]);
    }
    if a != "" && b != "" {
      BeforeIsOrder(a[1..], b[1..], if c == "" then "" else c[1..]);
      assert a == [a[0]] + a[1..] && b == [b[0]] + b[1..];
    }
  }

  predicate Sorted(xs: seq<string>) {
    forall i, j :: 0 <= i < j < |xs| ==> Before(xs[i], xs[j])
  }

  function InsertedAt(xs: seq<string>, at: nat, x: string): seq<string>
    requires at <= |xs|
  {
    xs[..at] + [x] + xs[at..]
  }

  lemma InsertedSorted(xs: seq<string>, at: nat, x: string)
    requires at <= |xs| && Sorted(xs)
    requires forall i :: at <= i < |xs| ==> Before(x, xs[i])
    requires forall i :: 0 <= i < at ==> Before(xs[i], x)
    ensures Sorted(InsertedAt(xs, at, x)) && Elements(InsertedAt(xs, at, x)) == Elements(xs) + {x}
  {
    var ys := InsertedAt(xs, at, x);
    forall i, j | 0 <= i < j < |ys|
      ensures Before(ys[i], ys[j])
    {
      assert ys[i] == if i < at then xs[i] else if i == at then x else xs[i - 1];
      assert ys[j] == if j < at then xs[j] else if j == at then x else xs[j - 1];
    }
    forall y
      ensures y in ys <==> y in xs || y == x
    {
      assert xs == xs[..at] + xs[at..];
    }
  }

  /** Adds one path to a sorted list of distinct paths. */
  method AddPath(xs: seq<string>, x: string) returns (ys: seq<string>)
    requires Sorted(xs)
    ensures Sorted(ys) && Elements(ys) == Elements(xs) + {x}
  {
    var at := |xs|;
    while at > 0 && !Before(xs[at - 1], x)
      invariant 0 <= at <= |xs|
      invariant forall i :: at <= i < |xs| ==> Before(x, xs[i])
    {
      if xs[at - 1] == x {
        assert x in xs;
        return xs;
      }
      BeforeIsOrder(xs[at - 1], x, x);
      at := at - 1;
    }
    forall i | 0 <= i < at
      ensures Before(xs[i], x)
    {
      BeforeIsOrder(xs[i], xs[at - 1], x);
    }
    InsertedSorted(xs, at, x);
    ys := InsertedAt(xs, at, x);
  }

  method AddExpanded(xs: seq<string>, expanded: seq<string>) returns (ys: seq<string>)
    requires Sorted(xs)
    ensures Sorted(ys)
    ensures Elements(ys) == Elements(xs) + set x | x in expanded && TrimSpace(x) != "" :: TrimSpace(x)
  {
    ys := xs;
    for i := 0 to |expanded|
      invariant Sorted(ys)
      invariant Elements(ys) == Elements(xs) + set x | x in expanded[..i] && TrimSpace(x) != "" :: TrimSpace(x)
    {
      assert expanded[..i + 1] == expanded[..i] + [expanded[i]];
      var path := TrimSpace(expanded[i]);
      if path != "" {
        ys := AddPath(ys, path);
      }
    }
    assert expanded[..|expanded|] == expanded;
  }

  method LocalVolumePaths(body: string, library: Library) returns (out: seq<string>)
    ensures Sorted(out)
    ensures Elements(out) == PathsOf(LastValue(Split(body, '\n'), "MINIO_VOLUMES"), library)
  {
    out := [];
    var raw := ExtractEnvVar(body, "MINIO_VOLUMES");
    if raw == "" {
      return;
    }
    var tokens := Fields(raw);
    for i := 0 to |tokens|
      invariant Sorted(out) && Elements(out) == AllPaths(tokens[..i], library)
    {
      assert tokens[..i + 1][..i] == tokens[..i];
      var path := PathOf(tokens[i]);
      if path.Some? {
        var expanded := library(path.value);
        out := AddExpanded(out, expanded);
      }
    }
    assert tokens[..|tokens|] == tokens;
  }
}
