/** The printed configuration of a deployment (internal/deploy/install.go:395-421), and what
    the redeploy side and the server read back from it. */
module DeployConfig {
  import opened Text
  import opened Decimal
  import opened ConfigEnv
  import opened Affixes
  import opened Ellipses
  import opened Volumes
  import opened Lossless
  import opened VolumeText
  import opened VolumeReader
  import opened Erasure

  const VOLUMES_KEY := "MINIO_VOLUMES"
  const CERTS_DIR := "/etc/minio/certs"

  datatype Params = Params(
    hostnames: seq<string>,
    paths: seq<string>,
    tls: bool,
    port: nat,
    consolePort: nat,
    region: string,
    serverURL: string,
    topology: Topology)
  {
    function Scheme(): string {
      if tls then "https" else "http"
    }

    function Total(): nat {
      |hostnames| * |paths|
    }

    function Opts(): string {
      "--address" + (" " + (":" + Itoa(port))) + (" " + "--console-address") + (" " + (":" + Itoa(consolePort)))
      + if tls then " " + "--certs-dir" + (" " + CERTS_DIR) else ""
    }
  }

  /** The assignments of the file, in order, for a value of MINIO_VOLUMES. */
  function ConfigPairs(p: Params, volumes: string): seq<Pair>
    requires p.topology.Valid(p.Total())
  {
    [("MINIO_CONFIG_ENV_FILE", "/etc/minio/config.env"), (VOLUMES_KEY, volumes),
     ("MINIO_REGION", p.region), ("MINIO_OPTS", p.Opts())]
    + Printed(p.Total(), p.topology)
    + if TrimSpace(p.serverURL) != "" then [("MINIO_SERVER_URL", TrimSpace(p.serverURL))] else []
  }

  lemma RenderedSnoc(pairs: seq<Pair>, pair: Pair, runes: Runes)
    ensures RenderPairs(pairs + [pair], runes) == RenderPairs(pairs, runes) + (FormatEnv(pair.0, pair.1, runes) + "\n")
  {
    assert (pairs + [pair])[..|pairs|] == pairs;
    var line := FormatEnv(pair.0, pair.1, runes);
    UnlinesAppend(EnvLines(pairs, runes), [line]);
    assert [line][1..] == [] && Unlines([line]) == line + "\n" + "";
  }

  /** The assignments `renderConfigEnv` makes, one branch after the other. */
  method Assignments(p: Params, volumes: string) returns (pairs: seq<Pair>)
    requires p.topology.Valid(p.Total())
    ensures pairs == ConfigPairs(p, volumes)
  {
    var total := p.Total();
    var erasure: seq<Pair> := [];
    if total > 1 {
      var setSize, parity := p.topology.ResolvedSetSize(total), p.topology.EffectiveParity(total);
      var default := DefaultSetSize(total);
      if setSize != default {
        erasure := erasure + [(SIZE_KEY, Itoa(setSize))];
      }
      if parity != DefaultParity(setSize) {
        erasure := erasure + [(CLASS_KEY, "EC:" + Itoa(parity))];
      }
    }
    var url: seq<Pair> := [];
    if TrimSpace(p.serverURL) != "" {
      url := [("MINIO_SERVER_URL", TrimSpace(p.serverURL))];
    }
    pairs := [("MINIO_CONFIG_ENV_FILE", "/etc/minio/config.env"), (VOLUMES_KEY, volumes),
              ("MINIO_REGION", p.region), ("MINIO_OPTS", p.Opts())] + erasure + url;
  }

  method PrintPairs(pairs: seq<Pair>, runes: Runes) returns (body: string)
    ensures body == RenderPairs(pairs, runes)
  {
    body := "";
    for i := 0 to |pairs|
      invariant body == RenderPairs(pairs[..i], runes)
    {
      assert pairs[..i + 1] == pairs[..i] + [pairs[i]];
      RenderedSnoc(pairs[..i], pairs[i], runes);
      body := body + (FormatEnv(pairs[i].0, pairs[i].1, runes) + "\n");
    }
    assert pairs[..|pairs|] == pairs;
  }

  /** `renderConfigEnv`, for a topology that passed validation. */
  method RenderConfigEnv(p: Params, runes: Runes) returns (body: string)
    requires p.topology.Valid(p.Total())
    ensures body == RenderPairs(ConfigPairs(p, VolumesText(p.Scheme(), p.hostnames, p.port, p.paths)), runes)
  {
    var volumes := RenderVolumes(p.Scheme(), p.hostnames, p.port, p.paths);
    var pairs := Assignments(p, volumes);
    body := PrintPairs(pairs, runes);
  }

  // ----- What hosts and paths must be free of

  predicate Ascii(runes: Runes) {
    forall c :: ' ' <= c <= '~' ==> runes.printable(c)
  }

  /** A character that printing and re-reading an argument leaves alone. */
  predicate TokenChar(c: char, runes: Runes) {
    runes.printable(c) && c != '"' && c != '\\' && !IsSpace(c)
  }

  predicate TokenText(s: string, runes: Runes) {
    forall i :: 0 <= i < |s| ==> TokenChar(s[i], runes)
  }

  predicate CleanHost(h: string, runes: Runes) {
    h != "" && TokenText(h, runes) && NoBraces(h) && '/' !in h
  }

  predicate CleanPath(p: string, runes: Runes) {
    HasPrefix(p, "/") && TokenText(p, runes) && NoBraces(p)
  }

  /** Hosts and absolute paths free of quotes, spaces, backslashes and braces; with a single
      host, paths that do not look like URLs. */
  ghost predicate Clean(hosts: seq<string>, paths: seq<string>, runes: Runes) {
    && runes.Sound() && Ascii(runes)
    && (forall i :: 0 <= i < |hosts| ==> CleanHost(hosts[i], runes))
    && (forall i :: 0 <= i < |paths| ==> CleanPath(paths[i], runes))
    && (|hosts| == 1 ==> forall i :: 0 <= i < |paths| ==> SchemeAt(paths[i]) < 0)
  }

  lemma {:induction false} CleanedFixed(list: seq<string>)
    requires forall i :: 0 <= i < |list| ==> list[i] != "" && TrimSpace(list[i]) == list[i]
    ensures Cleaned(list) == list
  {
    if list != [] {
      CleanedFixed(list[..|list| - 1]);
      SplitLast(list);
    }
  }

  lemma TokenIsTrimmed(s: string, runes: Runes)
    requires TokenText(s, runes)
    ensures TrimSpace(s) == s
  {
    TrimSpaceTrims(s);
  }

  // ----- Characters of a pattern

  lemma PatternParts(list: seq<string>) returns (lo: string, hi: string)
    requires |list| >= 2 && Fits(list)
    ensures AllDigits(lo) && AllDigits(hi) && PatternOf(list) == Pattern(Lcp(list), lo, hi, Lcs(list))
    ensures HasPrefix(list[0], Lcp(list)) && HasSuffix(list[0], Lcs(list))
  {
    var ms := Middles(list, Lcp(list), Lcs(list));
    var n := MinOf(Numbers(ms));
    LcpIsLongest(list, Lcp(list));
    LcsIsLongest(list, Lcs(list));
    BoundsAreNumbers(ms);
    lo, hi := Bound(ms, n), Bound(ms, n + |ms| - 1);
  }

  lemma PatternChars(list: seq<string>, c: char)
    requires |list| >= 2 && Fits(list) && c in PatternOf(list)
    ensures c in list[0] || c in {'{', '}', '.'} || IsDigit(c)
  {
    var lo, hi := PatternParts(list);
    CharsOfPattern(Lcp(list), lo, hi, Lcs(list), c);
    if c in Lcp(list) || c in Lcs(list) {
      AffixChars(list[0], Lcp(list), Lcs(list), c);
    }
  }

  lemma CharsOfPattern(p: string, lo: string, hi: string, s: string, c: char)
    requires c in Pattern(p, lo, hi, s)
    ensures c in p || c in s || c in lo || c in hi || c in {'{', '}', '.'}
  {
  }

  lemma CompressedTokens(list: seq<string>, runes: Runes)
    requires list != [] && Ascii(runes) && forall i :: 0 <= i < |list| ==> TokenText(list[i], runes)
    ensures forall i :: 0 <= i < |Compressed(list, PatternFit(list))| ==>
              TokenText(Compressed(list, PatternFit(list))[i], runes)
  {
    if |list| >= 2 && Fits(list) {
      var t := PatternOf(list);
      forall k | 0 <= k < |t|
        ensures TokenChar(t[k], runes)
      {
        PatternTokenChar(list, runes, t[k]);
      }
    }
  }

  lemma PatternTokenChar(list: seq<string>, runes: Runes, c: char)
    requires |list| >= 2 && Fits(list) && c in PatternOf(list) && Ascii(runes) && TokenText(list[0], runes)
    ensures TokenChar(c, runes)
  {
    PatternChars(list, c);
    if i :| 0 <= i < |list[0]| && list[0][i] == c {
      assert TokenChar(list[0][i], runes);
    }
  }

  lemma CompressedHosts(hosts: seq<string>)
    requires hosts != [] && forall i :: 0 <= i < |hosts| ==> '/' !in hosts[i]
    ensures var hs := Compressed(hosts, PatternFit(hosts));
            forall i :: 0 <= i < |hs| ==> '/' !in hs[i]
  {
    if |hosts| >= 2 && Fits(hosts) {
      if '/' in PatternOf(hosts) {
        PatternChars(hosts, '/');
        assert false;
      }
    }
  }

  lemma CompressedPaths(paths: seq<string>)
    requires paths != [] && forall i :: 0 <= i < |paths| ==> HasPrefix(paths[i], "/")
    ensures var ps := Compressed(paths, PatternFit(paths));
            forall i :: 0 <= i < |ps| ==> HasPrefix(ps[i], "/")
  {
    if |paths| >= 2 && Fits(paths) {
      LcpIsLongest(paths, "/");
      var p := Lcp(paths);
      assert HasPrefix(p, "/");
      PatternKeepsSlash(p, PatternOf(paths)[|p|..]);
      assert PatternOf(paths) == p + PatternOf(paths)[|p|..];
    }
  }

  lemma PatternKeepsSlash(p: string, rest: string)
    requires HasPrefix(p, "/")
    ensures HasPrefix(p + rest, "/")
  {
    assert (p + rest)[..1] == p[..1];
  }

  // ----- Patterns do not look like URLs

  lemma {:induction false} NoColonNoScheme(s: string)
    requires ':' !in s
    ensures SchemeAt(s) < 0
  {
    if |s| >= 3 {
      assert s[..3][0] == s[0];
      NoColonNoScheme(s[1..]);
    }
  }

  lemma {:induction false} SchemeAcross(x: string, c: char, y: string)
    requires c != ':' && c != '/' && SchemeAt(x) < 0 && SchemeAt(y) < 0
    ensures SchemeAt(x + ([c] + y)) < 0
  {
    var s := x + ([c] + y);
    if x == "" {
      assert s == [c] + y && s[1..] == y;
      if |s| >= 3 {
        assert s[..3][0] == c;
      }
    } else {
      assert s[1..] == x[1..] + ([c] + y);
      SchemeAcross(x[1..], c, y);
      assert |s| >= 3 ==> s[..3][0] == s[0] && s[..3][1] == s[1] && s[..3][2] == s[2];
      if |x| >= 3 {
        assert s[..3] == x[..3];
      } else {
        assert s[|x|] == c;
      }
    }
  }

  lemma {:induction false} SchemeOfPrefix(s: string, k: nat)
    requires k <= |s| && SchemeAt(s) < 0
    ensures SchemeAt(s[..k]) < 0
  {
    if k >= 3 {
      assert s[..k][..3] == s[..3] && s[..k][1..] == s[1..][..k - 1];
      SchemeOfPrefix(s[1..], k - 1);
    }
  }

  lemma {:induction false} SchemeOfSuffix(s: string, k: nat)
    requires k <= |s| && SchemeAt(s) < 0
    ensures SchemeAt(s[k..]) < 0
  {
    if k > 0 && |s| >= 3 {
      SchemeOfSuffix(s[1..], k - 1);
      assert s[1..][k - 1..] == s[k..];
    }
  }

  lemma CompressedNoScheme(paths: seq<string>)
    requires paths != [] && forall i :: 0 <= i < |paths| ==> SchemeAt(paths[i]) < 0
    ensures var ps := Compressed(paths, PatternFit(paths));
            forall i :: 0 <= i < |ps| ==> SchemeAt(ps[i]) < 0
  {
    if |paths| >= 2 && Fits(paths) {
      var lo, hi := PatternParts(paths);
      AffixesNoScheme(paths[0], Lcp(paths), Lcs(paths));
      PatternNoScheme(Lcp(paths), lo, hi, Lcs(paths));
    }
  }

  lemma AffixesNoScheme(v: string, p: string, s: string)
    requires HasPrefix(v, p) && HasSuffix(v, s) && SchemeAt(v) < 0
    ensures SchemeAt(p) < 0 && SchemeAt(s) < 0
  {
    SchemeOfPrefix(v, |p|);
    SchemeOfSuffix(v, |v| - |s|);
  }

  lemma PatternNoScheme(p: string, lo: string, hi: string, s: string)
    requires AllDigits(lo) && AllDigits(hi) && SchemeAt(p) < 0 && SchemeAt(s) < 0
    ensures SchemeAt(Pattern(p, lo, hi, s)) < 0
  {
    var inner := lo + ("..." + hi);
    assert forall i :: 0 <= i < |inner| ==> inner[i] != ':';
    NoColonNoScheme(inner);
    SchemeAcross(inner, '}', s);
    assert inner + (['}'] + s) == inner + ("}" + s);
    SchemeAcross(p, '{', inner + ("}" + s));
    assert p + (['{'] + (inner + ("}" + s))) == Pattern(p, lo, hi, s);
  }

  // ----- Reading the arguments back

  lemma {:induction false} WordEndAt(t: string, rest: string)
    requires (forall i :: 0 <= i < |t| ==> !IsSpace(t[i])) && (rest == "" || IsSpace(rest[0]))
    ensures WordEnd(t + rest) == |t|
  {
    if t == "" {
      assert t + rest == rest;
    } else {
      assert (t + rest)[1..] == t[1..] + rest;
      WordEndAt(t[1..], rest);
    }
  }

  predicate Words(tokens: seq<string>) {
    forall i :: 0 <= i < |tokens| ==> tokens[i] != "" && forall j :: 0 <= j < |tokens[i]| ==> !IsSpace(tokens[i][j])
  }

  /** Words joined by single spaces are split back into the same words. */
  lemma {:induction false} FieldsOfJoin(tokens: seq<string>)
    requires Words(tokens)
    ensures Fields(Join(tokens, " ")) == tokens
  {
    if tokens != [] {
      var t, rest := tokens[0], tokens[1..];
      FieldsOfJoin(rest);
      if rest == [] {
        WordEndAt(t, "");
        assert t + "" == t && t[|t|..] == "" && t[..|t|] == t;
        assert tokens == [t];
      } else {
        var s := " " + Join(rest, " ");
        assert Join(tokens, " ") == t + s by {
          Assoc(t, " ", Join(rest, " "));
        }
        WordEndAt(t, s);
        CutAppend(t, s, |t|);
        assert t[|t|..] + s == s && t[..|t|] == t;
        assert s[1..] == Join(rest, " ");
        assert tokens == [t] + rest;
      }
    }
  }

  lemma {:induction false} JoinChars(tokens: seq<string>, runes: Runes)
    requires Ascii(runes) && forall i :: 0 <= i < |tokens| ==> TokenText(tokens[i], runes)
    ensures Plain(Join(tokens, " "), runes)
  {
    if |tokens| > 1 {
      JoinChars(tokens[1..], runes);
    }
  }

  /** With a scheme in front and no slash before it, the path is found. */
  lemma PathOfEndpoint(scheme: string, host: string, port: nat, path: string)
    requires ':' !in scheme && '/' !in host && HasPrefix(path, "/")
    ensures PathOf(Endpoint(scheme, host, port) + path) == Some(path)
  {
    var front := host + (":" + Itoa(port));
    var token := Endpoint(scheme, host, port) + path;
    assert path == ['/'] + path[1..];
    ItoaDigits(port);
    SchemeAtMark(scheme, front + path);
    Assoc(scheme + "://", front, path);
    Assoc(scheme, "://", front + path);
    assert token[|scheme| + 3..] == front + path;
    SplitAt(front, '/', path[1..]);
    assert (front + path)[|front|..] == path;
  }

  lemma {:induction false} SchemeAtMark(scheme: string, rest: string)
    requires ':' !in scheme
    ensures SchemeAt(scheme + ("://" + rest)) == |scheme|
  {
    var s := scheme + ("://" + rest);
    if scheme == "" {
      assert s[..3] == "://";
    } else {
      assert s[1..] == scheme[1..] + ("://" + rest);
      SchemeAtMark(scheme[1..], rest);
      assert s[..3][0] == scheme[0];
    }
  }

  // ----- The round trip

  predicate Settled(x: string) {
    x != "" && TrimSpace(x) == x
  }

  ghost predicate AllSettled(xs: set<string>) {
    forall x :: x in xs ==> Settled(x)
  }

  /** The paths of a token whose expansion needs no trimming are its expansion. */
  lemma TokenPathsAre(token: string, path: string, library: Library)
    requires PathOf(token) == Some(path) && AllSettled(Expand(path)) && OnePattern(path) && Expands(library)
    ensures TokenPaths(token, library) == Expand(path)
  {
    assert Elements(library(path)) == Expand(path);
    SettledPaths(library(path));
  }

  lemma SettledPaths(expanded: seq<string>)
    requires AllSettled(Elements(expanded))
    ensures (set x | x in expanded && TrimSpace(x) != "" :: TrimSpace(x)) == Elements(expanded)
  {
    forall x | x in expanded
      ensures TrimSpace(x) == x != ""
    {
      assert x in Elements(expanded) && Settled(x);
    }
  }

  /** Whatever the compressed paths expand to begins with a slash and ends without space,
      also when compression lost padding. */
  lemma ExpansionsSettled(paths: seq<string>, runes: Runes)
    requires paths != [] && forall i :: 0 <= i < |paths| ==> CleanPath(paths[i], runes)
    ensures AllSettled(Denoted(Compressed(paths, PatternFit(paths))))
  {
    if |paths| >= 2 && Fits(paths) {
      PatternSettled(paths, runes);
      DenotedOne(PatternOf(paths));
    } else {
      LiteralsDenote(paths);
      assert |paths| == 1 ==> [paths[0]] == paths;
      forall x | x in Elements(paths)
        ensures Settled(x)
      {
        TokenIsTrimmed(x, runes);
      }
    }
  }

  lemma PatternSettled(paths: seq<string>, runes: Runes)
    requires |paths| >= 2 && Fits(paths) && forall i :: 0 <= i < |paths| ==> CleanPath(paths[i], runes)
    ensures AllSettled(Expand(PatternOf(paths)))
  {
    var lo, hi := PatternParts(paths);
    var p, s := Lcp(paths), Lcs(paths);
    AffixesBraceFree(paths);
    BoundsInOrder(paths, lo, hi);
    ExpandPattern(p, lo, hi, s);
    ExpandLiteral(s);
    LcpIsLongest(paths, "/");
    EndsWithoutSpace(paths[0], s, runes);
    CombinedSettled(p, lo, hi, s);
  }

  lemma BoundsInOrder(list: seq<string>, lo: string, hi: string)
    requires |list| >= 2 && Fits(list) && AllDigits(lo) && AllDigits(hi)
    requires PatternOf(list) == Pattern(Lcp(list), lo, hi, Lcs(list))
    ensures Value(lo) <= Value(hi)
  {
    var ms := Middles(list, Lcp(list), Lcs(list));
    var n := MinOf(Numbers(ms));
    BoundsAreNumbers(ms);
    SamePatternSameBounds(Lcp(list), lo, hi, Bound(ms, n), Bound(ms, n + |ms| - 1), Lcs(list));
  }

  lemma SamePatternSameBounds(p: string, lo: string, hi: string, lo': string, hi': string, s: string)
    requires AllDigits(lo) && AllDigits(hi) && AllDigits(lo') && AllDigits(hi')
    requires Pattern(p, lo, hi, s) == Pattern(p, lo', hi', s)
    ensures lo == lo' && hi == hi'
  {
    var inner, inner' := lo + ("..." + hi), lo' + ("..." + hi');
    SameInner(p, inner, inner', s);
    DotsAfterDigits(lo, hi);
    DotsAfterDigits(lo', hi');
    assert inner[..|lo|] == lo && inner[|lo| + 3..] == hi && inner'[..|lo'|] == lo' && inner'[|lo'| + 3..] == hi';
  }

  lemma SameInner(p: string, inner: string, inner': string, s: string)
    requires p + ("{" + (inner + ("}" + s))) == p + ("{" + (inner' + ("}" + s)))
    ensures inner == inner'
  {
    var rest, rest' := "{" + (inner + ("}" + s)), "{" + (inner' + ("}" + s));
    CutAppend(p, rest, |p|);
    CutAppend(p, rest', |p|);
    assert p[|p|..] + rest == rest && p[|p|..] + rest' == rest';
    assert rest[1..] == inner + ("}" + s) && rest'[1..] == inner' + ("}" + s);
    assert inner == rest[1..][..|rest| - 2 - |s|] && inner' == rest'[1..][..|rest'| - 2 - |s|];
  }

  lemma EndsWithoutSpace(v: string, s: string, runes: Runes)
    requires HasSuffix(v, s) && TokenText(v, runes)
    ensures s != "" ==> !IsSpace(s[|s| - 1])
  {
    if s != "" {
      assert s[|s| - 1] == v[|v| - 1] && TokenChar(v[|v| - 1], runes);
    }
  }

  lemma CombinedSettled(p: string, lo: string, hi: string, s: string)
    requires AllDigits(lo) && AllDigits(hi) && HasPrefix(p, "/") && (s != "" ==> !IsSpace(s[|s| - 1]))
    ensures AllSettled(Combine(p, Labels(lo, hi), {s}))
  {
    forall x | x in Combine(p, Labels(lo, hi), {s})
      ensures Settled(x)
    {
      var l, t :| l in Labels(lo, hi) && t in {s} && x == p + (l + t);
      LabelIsDigits(lo, hi, l);
      LabelledSettled(p, l, s);
    }
  }

  lemma LabelledSettled(p: string, l: string, s: string)
    requires AllDigits(l) && HasPrefix(p, "/") && (s != "" ==> !IsSpace(s[|s| - 1]))
    ensures Settled(p + (l + s))
  {
    var x := p + (l + s);
    assert x[0] == p[..1][0] == '/';
    assert x[|x| - 1] == if s != "" then s[|s| - 1] else l[|l| - 1];
    TrimSpaceTrims(x);
  }

  /** Each is an argument whose expansion is known. */
  ghost predicate Known(ps: seq<string>) {
    forall i :: 0 <= i < |ps| ==> OnePattern(ps[i])
  }

  lemma {:induction false} PlainTokensName(ps: seq<string>, library: Library)
    requires forall i :: 0 <= i < |ps| ==> SchemeAt(ps[i]) < 0
    requires AllSettled(Denoted(ps)) && Known(ps) && Expands(library)
    ensures AllPaths(ps, library) == Denoted(ps)
  {
    if ps != [] {
      PlainTokensName(ps[..|ps| - 1], library);
      TokenPathsAre(ps[|ps| - 1], ps[|ps| - 1], library);
    }
  }

  predicate Rooted(ps: seq<string>) {
    forall i :: 0 <= i < |ps| ==> HasPrefix(ps[i], "/")
  }

  lemma {:induction false} HostTokensName(scheme: string, host: string, port: nat, ps: seq<string>, library: Library)
    requires ':' !in scheme && '/' !in host && Rooted(ps) && AllSettled(Denoted(ps)) && Known(ps) && Expands(library)
    ensures AllPaths(TokensOfHost(scheme, host, port, ps), library) == Denoted(ps)
  {
    if ps != [] {
      var front, last := ps[..|ps| - 1], ps[|ps| - 1];
      HostTokensName(scheme, host, port, front, library);
      var ts := TokensOfHost(scheme, host, port, ps);
      assert ts[..|ts| - 1] == TokensOfHost(scheme, host, port, front);
      PathOfEndpoint(scheme, host, port, last);
      TokenPathsAre(Endpoint(scheme, host, port) + last, last, library);
    }
  }

  lemma {:induction false} AllPathsAppend(a: seq<string>, b: seq<string>, library: Library)
    ensures AllPaths(a + b, library) == AllPaths(a, library) + AllPaths(b, library)
  {
    if b == [] {
      assert a + b == a;
    } else {
      assert (a + b)[..|a + b| - 1] == a + b[..|b| - 1];
      AllPathsAppend(a, b[..|b| - 1], library);
    }
  }

  lemma {:induction false} CrossTokensName(scheme: string, hosts: seq<string>, port: nat, ps: seq<string>,
                                           library: Library)
    requires ':' !in scheme && (forall i :: 0 <= i < |hosts| ==> '/' !in hosts[i])
    requires Rooted(ps) && AllSettled(Denoted(ps)) && Known(ps) && Expands(library)
    ensures AllPaths(Cross(scheme, hosts, port, ps), library) == if hosts == [] then {} else Denoted(ps)
  {
    if hosts != [] {
      var front, last := hosts[..|hosts| - 1], hosts[|hosts| - 1];
      CrossTokensName(scheme, front, port, ps, library);
      HostTokensName(scheme, last, port, ps, library);
      AllPathsAppend(Cross(scheme, front, port, ps), TokensOfHost(scheme, last, port, ps), library);
    }
  }

  /** The arguments name exactly what the compressed paths denote, whatever the hosts. */
  lemma TokensName(scheme: string, hosts: seq<string>, port: nat, paths: seq<string>, runes: Runes, library: Library)
    requires hosts != [] && paths != [] && Clean(hosts, paths, runes) && ':' !in scheme && Expands(library)
    ensures AllPaths(Tokens(scheme, hosts, port, paths, PatternFit(hosts), PatternFit(paths)), library) ==
            Denoted(Compressed(paths, PatternFit(paths)))
  {
    ExpansionsSettled(paths, runes);
    CompressedIsOnePattern(paths);
    if |hosts| == 1 {
      CompressedNoScheme(paths);
      PlainTokensName(Compressed(paths, PatternFit(paths)), library);
    } else {
      CompressedHosts(hosts);
      CompressedPaths(paths);
      CrossTokensName(scheme, Compressed(hosts, PatternFit(hosts)), port, Compressed(paths, PatternFit(paths)),
                      library);
    }
  }

  // ----- The arguments are words

  predicate TokenTexts(ts: seq<string>, runes: Runes) {
    forall i :: 0 <= i < |ts| ==> TokenText(ts[i], runes) && ts[i] != ""
  }

  lemma TextsAppend(a: seq<string>, b: seq<string>, runes: Runes)
    requires TokenTexts(a, runes) && TokenTexts(b, runes)
    ensures TokenTexts(a + b, runes)
  {
  }

  lemma TextsAreWords(ts: seq<string>, runes: Runes)
    requires TokenTexts(ts, runes)
    ensures Words(ts)
  {
    forall i, j | 0 <= i < |ts| && 0 <= j < |ts[i]|
      ensures !IsSpace(ts[i][j])
    {
      assert TokenChar(ts[i][j], runes);
    }
  }

  lemma AppendTokenText(a: string, b: string, runes: Runes)
    requires TokenText(a, runes) && TokenText(b, runes)
    ensures TokenText(a + b, runes)
  {
  }

  lemma EndpointText(scheme: string, host: string, port: nat, path: string, runes: Runes)
    requires Ascii(runes) && TokenText(scheme, runes) && TokenText(host, runes) && TokenText(path, runes)
    ensures TokenText(Endpoint(scheme, host, port) + path, runes) && Endpoint(scheme, host, port) + path != ""
  {
    ItoaDigits(port);
    AppendTokenText(":", Itoa(port), runes);
    AppendTokenText(host, ":" + Itoa(port), runes);
    AppendTokenText(scheme, "://", runes);
    AppendTokenText(scheme + "://", host + (":" + Itoa(port)), runes);
    AppendTokenText(Endpoint(scheme, host, port), path, runes);
  }

  lemma HostTexts(scheme: string, host: string, port: nat, ps: seq<string>, runes: Runes)
    requires Ascii(runes) && TokenText(scheme, runes) && TokenText(host, runes) && TokenTexts(ps, runes)
    ensures TokenTexts(TokensOfHost(scheme, host, port, ps), runes)
  {
    forall i | 0 <= i < |ps|
      ensures TokenText(Endpoint(scheme, host, port) + ps[i], runes) && Endpoint(scheme, host, port) + ps[i] != ""
    {
      EndpointText(scheme, host, port, ps[i], runes);
    }
  }

  lemma {:induction false} CrossTexts(scheme: string, hosts: seq<string>, port: nat, ps: seq<string>, runes: Runes)
    requires Ascii(runes) && TokenText(scheme, runes) && TokenTexts(hosts, runes) && TokenTexts(ps, runes)
    ensures TokenTexts(Cross(scheme, hosts, port, ps), runes)
  {
    if hosts != [] {
      var front, last := hosts[..|hosts| - 1], hosts[|hosts| - 1];
      CrossTexts(scheme, front, port, ps, runes);
      HostTexts(scheme, last, port, ps, runes);
      TextsAppend(Cross(scheme, front, port, ps), TokensOfHost(scheme, last, port, ps), runes);
    }
  }

  lemma CompressedTexts(list: seq<string>, runes: Runes)
    requires list != [] && Ascii(runes) && TokenTexts(list, runes)
    ensures TokenTexts(Compressed(list, PatternFit(list)), runes)
  {
    CompressedTokens(list, runes);
  }

  lemma TokensAreTexts(scheme: string, hosts: seq<string>, port: nat, paths: seq<string>, runes: Runes)
    requires hosts != [] && paths != [] && Clean(hosts, paths, runes) && TokenText(scheme, runes)
    ensures TokenTexts(Tokens(scheme, hosts, port, paths, PatternFit(hosts), PatternFit(paths)), runes)
  {
    CompressedTexts(paths, runes);
    if |hosts| > 1 {
      CompressedTexts(hosts, runes);
      CrossTexts(scheme, Compressed(hosts, PatternFit(hosts)), port, Compressed(paths, PatternFit(paths)), runes);
    }
  }

  lemma CleanListsFixed(hosts: seq<string>, paths: seq<string>, runes: Runes)
    requires Clean(hosts, paths, runes)
    ensures Cleaned(hosts) == hosts && Cleaned(paths) == paths
  {
    forall i | 0 <= i < |hosts|
      ensures TrimSpace(hosts[i]) == hosts[i]
    {
      TokenIsTrimmed(hosts[i], runes);
    }
    forall i | 0 <= i < |paths|
      ensures TrimSpace(paths[i]) == paths[i] && paths[i] != ""
    {
      TokenIsTrimmed(paths[i], runes);
    }
    CleanedFixed(hosts);
    CleanedFixed(paths);
  }

  /** The value of MINIO_VOLUMES is printed between quotes unchanged, and names the paths
      exactly when their compression loses nothing. */
  lemma VolumesReadBack(scheme: string, hostnames: seq<string>, port: nat, paths: seq<string>, runes: Runes,
                        library: Library)
    requires Cleaned(hostnames) != [] && paths != [] && Clean(Cleaned(hostnames), paths, runes)
    requires ':' !in scheme && TokenText(scheme, runes) && Expands(library)
    ensures var text := VolumesText(scheme, hostnames, port, paths);
            Plain(text, runes) && (PathsOf(text, library) == Elements(paths) <==> Paddable(paths))
  {
    var hosts := Cleaned(hostnames);
    CleanListsFixed(hosts, paths, runes);
    var ts := Tokens(scheme, hosts, port, paths, PatternFit(hosts), PatternFit(paths));
    TokensAreTexts(scheme, hosts, port, paths, runes);
    TokensName(scheme, hosts, port, paths, runes, library);
    ArgumentsReadBack(ts, runes, library);
    CompressedDenotes(paths);
  }

  lemma ArgumentsReadBack(ts: seq<string>, runes: Runes, library: Library)
    requires TokenTexts(ts, runes) && Ascii(runes)
    ensures Plain(Join(ts, " "), runes) && PathsOf(Join(ts, " "), library) == AllPaths(ts, library)
  {
    TokensReadBack(ts, runes);
  }

  // ----- The whole file

  predicate Lacks(pairs: seq<Pair>, name: string) {
    forall i :: 0 <= i < |pairs| ==> pairs[i].0 != name
  }

  predicate Identifiers(pairs: seq<Pair>) {
    forall i :: 0 <= i < |pairs| ==> IsIdentifier(pairs[i].0)
  }

  lemma {:induction false} LastPairAppend(a: seq<Pair>, b: seq<Pair>, name: string)
    ensures Lacks(b, name) ==> LastPair(a + b, name) == LastPair(a, name)
    ensures Lacks(a, name) ==> LastPair(a + b, name) == LastPair(b, name)
  {
    if b == [] {
      assert a + b == a;
      if Lacks(a, name) {
        LastPairLacks(a, name);
      }
    } else {
      assert (a + b)[..|a + b| - 1] == a + b[..|b| - 1];
      LastPairAppend(a, b[..|b| - 1], name);
    }
  }

  lemma {:induction false} LastPairLacks(a: seq<Pair>, name: string)
    requires Lacks(a, name)
    ensures LastPair(a, name) == ""
  {
    if a != [] {
      LastPairLacks(a[..|a| - 1], name);
    }
  }

  function Head(p: Params, volumes: string): seq<Pair> {
    [("MINIO_CONFIG_ENV_FILE", "/etc/minio/config.env"), (VOLUMES_KEY, volumes),
     ("MINIO_REGION", p.region), ("MINIO_OPTS", p.Opts())]
  }

  function Tail(p: Params): seq<Pair> {
    if TrimSpace(p.serverURL) != "" then [("MINIO_SERVER_URL", TrimSpace(p.serverURL))] else []
  }

  lemma KeysDiffer()
    ensures VOLUMES_KEY !in {SIZE_KEY, CLASS_KEY}
    ensures VOLUMES_KEY !in {"MINIO_CONFIG_ENV_FILE", "MINIO_REGION", "MINIO_OPTS", "MINIO_SERVER_URL"}
    ensures SIZE_KEY !in {CLASS_KEY, "MINIO_CONFIG_ENV_FILE", "MINIO_REGION", "MINIO_OPTS", "MINIO_SERVER_URL"}
    ensures CLASS_KEY !in {"MINIO_CONFIG_ENV_FILE", "MINIO_REGION", "MINIO_OPTS", "MINIO_SERVER_URL"}
  {
    assert VOLUMES_KEY[6] == 'V' && SIZE_KEY[6] == 'E' && CLASS_KEY[6] == 'S' && CLASS_KEY[7] == 'T';
    assert "MINIO_CONFIG_ENV_FILE"[6] == 'C' && "MINIO_REGION"[6] == 'R' && "MINIO_OPTS"[6] == 'O';
    assert "MINIO_SERVER_URL"[6] == 'S' && "MINIO_SERVER_URL"[7] == 'E';
  }

  lemma KeysAreIdentifiers()
    ensures IsIdentifier(VOLUMES_KEY) && IsIdentifier(SIZE_KEY) && IsIdentifier(CLASS_KEY)
    ensures IsIdentifier("MINIO_CONFIG_ENV_FILE") && IsIdentifier("MINIO_REGION") && IsIdentifier("MINIO_OPTS")
    ensures IsIdentifier("MINIO_SERVER_URL")
  {
    OtherKeysAreIdentifiers();
  }

  lemma OtherKeysAreIdentifiers()
    ensures IsIdentifier("MINIO_CONFIG_ENV_FILE") && IsIdentifier("MINIO_REGION") && IsIdentifier("MINIO_OPTS")
    ensures IsIdentifier("MINIO_SERVER_URL")
  {
  }

  lemma KeyFacts(p: Params, volumes: string)
    ensures Identifiers(Head(p, volumes)) && Identifiers(Tail(p))
    ensures LastPair(Head(p, volumes), VOLUMES_KEY) == volumes && Lacks(Tail(p), VOLUMES_KEY)
    ensures Lacks(Head(p, volumes), SIZE_KEY) && Lacks(Tail(p), SIZE_KEY)
    ensures Lacks(Head(p, volumes), CLASS_KEY) && Lacks(Tail(p), CLASS_KEY)
  {
    KeysDiffer();
    KeysAreIdentifiers();
    var first := [("MINIO_CONFIG_ENV_FILE", "/etc/minio/config.env"), (VOLUMES_KEY, volumes)];
    var rest := [("MINIO_REGION", p.region), ("MINIO_OPTS", p.Opts())];
    assert Head(p, volumes) == first + rest;
    LastPairAppend(first, rest, VOLUMES_KEY);
  }

  lemma PrintedFacts(total: nat, t: Topology)
    requires t.Valid(total)
    ensures Identifiers(Printed(total, t)) && Lacks(Printed(total, t), VOLUMES_KEY)
  {
    KeysDiffer();
    KeysAreIdentifiers();
    if total > 1 {
      OnlyTwoKeys(t.ResolvedSetSize(total) != LargestDivisor(total), (SIZE_KEY, Itoa(t.ResolvedSetSize(total))),
                  t.EffectiveParity(total) != DefaultParity(t.ResolvedSetSize(total)),
                  (CLASS_KEY, "EC:" + Itoa(t.EffectiveParity(total))), VOLUMES_KEY);
    }
  }

  lemma OnlyTwoKeys(first: bool, a: Pair, second: bool, b: Pair, name: string)
    requires IsIdentifier(a.0) && IsIdentifier(b.0) && a.0 != name && b.0 != name
    ensures var pairs := (if first then [a] else []) + (if second then [b] else []);
            Identifiers(pairs) && Lacks(pairs, name)
  {
  }

  lemma ConfigIs(p: Params, volumes: string)
    requires p.topology.Valid(p.Total())
    ensures var pairs := ConfigPairs(p, volumes);
            && Identifiers(pairs)
            && LastPair(pairs, VOLUMES_KEY) == volumes
            && LastPair(pairs, SIZE_KEY) == LastPair(Printed(p.Total(), p.topology), SIZE_KEY)
            && LastPair(pairs, CLASS_KEY) == LastPair(Printed(p.Total(), p.topology), CLASS_KEY)
  {
    var head, mid, tail := Head(p, volumes), Printed(p.Total(), p.topology), Tail(p);
    assert ConfigPairs(p, volumes) == (head + mid) + tail;
    KeyFacts(p, volumes);
    PrintedFacts(p.Total(), p.topology);
    LastPairAppend(head + mid, tail, VOLUMES_KEY);
    LastPairAppend(head, mid, VOLUMES_KEY);
    LastPairAppend(head + mid, tail, SIZE_KEY);
    LastPairAppend(head, mid, SIZE_KEY);
    LastPairAppend(head + mid, tail, CLASS_KEY);
    LastPairAppend(head, mid, CLASS_KEY);
  }

  /** End to end: the paths the redeploy side reads from the printed file are exactly the
      storage paths of the deployment, in all cases of pattern and literal, for one host or
      many, whatever region, ports and URL the file also holds, if and only if compressing
      the paths loses no padding. */
  lemma VolumesRoundTrip(p: Params, runes: Runes, library: Library)
    requires p.topology.Valid(p.Total()) && Expands(library)
    requires Cleaned(p.hostnames) != [] && p.paths != []
    requires Clean(Cleaned(p.hostnames), p.paths, runes)
    ensures var body := RenderPairs(ConfigPairs(p, VolumesText(p.Scheme(), p.hostnames, p.port, p.paths)), runes);
            PathsOf(LastValue(Split(body, '\n'), VOLUMES_KEY), library) == Elements(p.paths) <==> Paddable(p.paths)
  {
    SchemeIsPlain(p, runes);
    VolumesReadBack(p.Scheme(), p.hostnames, p.port, p.paths, runes, library);
    VolumesLine(p, VolumesText(p.Scheme(), p.hostnames, p.port, p.paths), runes);
  }

  lemma SchemeIsPlain(p: Params, runes: Runes)
    requires Ascii(runes)
    ensures ':' !in p.Scheme() && TokenText(p.Scheme(), runes)
  {
  }

  lemma VolumesLine(p: Params, text: string, runes: Runes)
    requires p.topology.Valid(p.Total()) && runes.Sound() && Plain(text, runes)
    ensures LastValue(Split(RenderPairs(ConfigPairs(p, text), runes), '\n'), VOLUMES_KEY) == text
  {
    ConfigIs(p, text);
    OnlyVolumes(p, text);
    KeysAreIdentifiers();
    ReadsBack(ConfigPairs(p, text), runes, VOLUMES_KEY, text);
  }

  /** A key whose every value is plain is read back. */
  lemma ReadsBack(pairs: seq<Pair>, runes: Runes, name: string, value: string)
    requires runes.Sound() && IsIdentifier(name) && Identifiers(pairs) && LastPair(pairs, name) == value
    requires forall i :: 0 <= i < |pairs| && pairs[i].0 == name ==> Plain(pairs[i].1, runes)
    ensures LastValue(Split(RenderPairs(pairs, runes), '\n'), name) == value
  {
    ExtractsWhatWasPrinted(pairs, runes, name);
  }

  lemma OnlyVolumes(p: Params, volumes: string)
    requires p.topology.Valid(p.Total())
    ensures var pairs := ConfigPairs(p, volumes);
            forall i :: 0 <= i < |pairs| && pairs[i].0 == VOLUMES_KEY ==> pairs[i].1 == volumes
  {
    KeysDiffer();
    PrintedFacts(p.Total(), p.topology);
  }

  /** End to end: decoding the two erasure variables of the printed file, with defaults for
      what was left out, gives the size and parity the deployment settled on. */
  lemma ErasureRoundTrip(p: Params, runes: Runes)
    requires p.topology.Valid(p.Total()) && p.Total() >= 2
    requires runes.Sound() && Ascii(runes)
    ensures var body := RenderPairs(ConfigPairs(p, VolumesText(p.Scheme(), p.hostnames, p.port, p.paths)), runes);
            Decoded(p.Total(), LastValue(Split(body, '\n'), SIZE_KEY), LastValue(Split(body, '\n'), CLASS_KEY)) ==
            Some((p.topology.ResolvedSetSize(p.Total()), p.topology.EffectiveParity(p.Total())))
    ensures AsRequested(p.Total(), p.topology.setSize, p.topology.parity,
                        p.topology.ResolvedSetSize(p.Total()), p.topology.EffectiveParity(p.Total()))
  {
    var text := VolumesText(p.Scheme(), p.hostnames, p.port, p.paths);
    var pairs := ConfigPairs(p, text);
    ConfigIs(p, text);
    KeysAreIdentifiers();
    ErasureIsPlain(p, text, runes);
    ReadsBack(pairs, runes, SIZE_KEY, LastPair(pairs, SIZE_KEY));
    ReadsBack(pairs, runes, CLASS_KEY, LastPair(pairs, CLASS_KEY));
    PrintedDecodes(p.Total(), p.topology);
  }

  lemma ErasureIsPlain(p: Params, volumes: string, runes: Runes)
    requires p.topology.Valid(p.Total()) && p.Total() >= 2 && Ascii(runes)
    ensures var pairs := ConfigPairs(p, volumes);
            forall i :: 0 <= i < |pairs| && pairs[i].0 in {SIZE_KEY, CLASS_KEY} ==> Plain(pairs[i].1, runes)
  {
    KeyFacts(p, volumes);
    var size, parity := p.topology.ResolvedSetSize(p.Total()), p.topology.EffectiveParity(p.Total());
    ItoaDigits(size);
    ItoaDigits(parity);
    assert Plain(Itoa(size), runes) && Plain("EC:" + Itoa(parity), runes);
    var head, mid, tail := Head(p, volumes), Printed(p.Total(), p.topology), Tail(p);
    assert ConfigPairs(p, volumes) == (head + mid) + tail;
    assert forall i :: 0 <= i < |mid| ==> Plain(mid[i].1, runes);
  }

  // ----- The other variables of the file

  /** The order in which the variables are printed. */
  function Place(key: string): nat {
    if key == "MINIO_CONFIG_ENV_FILE" then 0
    else if key == VOLUMES_KEY then 1
    else if key == "MINIO_REGION" then 2
    else if key == "MINIO_OPTS" then 3
    else if key == SIZE_KEY then 4
    else if key == CLASS_KEY then 5
    else 6
  }

  lemma Places()
    ensures Place("MINIO_CONFIG_ENV_FILE") == 0 && Place(VOLUMES_KEY) == 1 && Place("MINIO_REGION") == 2
    ensures Place("MINIO_OPTS") == 3 && Place(SIZE_KEY) == 4 && Place(CLASS_KEY) == 5 && Place("MINIO_SERVER_URL") == 6
  {
    KeysDiffer();
    assert "MINIO_CONFIG_ENV_FILE"[6] == 'C' && "MINIO_REGION"[6] == 'R' && "MINIO_OPTS"[6] == 'O';
    assert "MINIO_SERVER_URL"[6] == 'S';
  }

  /** Every variable is assigned at most once. */
  lemma AssignedOnce(p: Params, volumes: string)
    requires p.topology.Valid(p.Total())
    ensures var pairs := ConfigPairs(p, volumes);
            forall i, j :: 0 <= i < j < |pairs| ==> pairs[i].0 != pairs[j].0
  {
    Places();
    var head, mid, tail := Head(p, volumes), Printed(p.Total(), p.topology), Tail(p);
    assert ConfigPairs(p, volumes) == (head + mid) + tail;
    InOrder(head, mid, tail);
  }

  lemma InOrder(head: seq<Pair>, mid: seq<Pair>, tail: seq<Pair>)
    requires forall i :: 0 <= i < |head| ==> Place(head[i].0) == i && i < 4
    requires forall i :: 0 <= i < |mid| ==> 4 <= Place(mid[i].0) < 6
    requires forall i, j :: 0 <= i < j < |mid| ==> Place(mid[i].0) < Place(mid[j].0)
    requires |tail| <= 1 && forall i :: 0 <= i < |tail| ==> Place(tail[i].0) == 6
    ensures var pairs := (head + mid) + tail; forall i, j :: 0 <= i < j < |pairs| ==> pairs[i].0 != pairs[j].0
  {
    var pairs := (head + mid) + tail;
    forall i, j | 0 <= i < j < |pairs|
      ensures Place(pairs[i].0) < Place(pairs[j].0)
    {
    }
  }

  lemma {:induction false} LastPairAt(pairs: seq<Pair>, i: nat)
    requires i < |pairs| && forall j :: i < j < |pairs| ==> pairs[j].0 != pairs[i].0
    ensures LastPair(pairs, pairs[i].0) == pairs[i].1
  {
    if i < |pairs| - 1 {
      LastPairAt(pairs[..|pairs| - 1], i);
    }
  }

  /** Every assignment with a plain value is read back from the printed file. */
  lemma AssignmentReads(p: Params, volumes: string, runes: Runes, i: nat)
    requires p.topology.Valid(p.Total()) && runes.Sound()
    requires i < |ConfigPairs(p, volumes)| && Plain(ConfigPairs(p, volumes)[i].1, runes)
    ensures var pairs := ConfigPairs(p, volumes);
            LastValue(Split(RenderPairs(pairs, runes), '\n'), pairs[i].0) == pairs[i].1
  {
    var pairs := ConfigPairs(p, volumes);
    AssignedOnce(p, volumes);
    ConfigIs(p, volumes);
    LastPairAt(pairs, i);
    assert forall j :: 0 <= j < |pairs| && pairs[j].0 == pairs[i].0 ==> j == i;
    ReadsBack(pairs, runes, pairs[i].0, pairs[i].1);
  }

  /** Without an address of its own the file does not mention the server's. */
  lemma UrlIsTail(p: Params, volumes: string)
    requires p.topology.Valid(p.Total())
    ensures var pairs := ConfigPairs(p, volumes);
            if Tail(p) == [] then Lacks(pairs, "MINIO_SERVER_URL")
            else |pairs| >= 5 && pairs[|pairs| - 1] == ("MINIO_SERVER_URL", TrimSpace(p.serverURL))
  {
    Places();
    var head, mid, tail := Head(p, volumes), Printed(p.Total(), p.topology), Tail(p);
    assert ConfigPairs(p, volumes) == (head + mid) + tail;
    assert forall i :: 0 <= i < |head| ==> Place(head[i].0) < 6;
    assert forall i :: 0 <= i < |mid| ==> Place(mid[i].0) < 6;
  }

  lemma UrlReads(p: Params, volumes: string, runes: Runes)
    requires p.topology.Valid(p.Total()) && runes.Sound() && Plain(TrimSpace(p.serverURL), runes)
    ensures LastValue(Split(RenderPairs(ConfigPairs(p, volumes), runes), '\n'), "MINIO_SERVER_URL") ==
            TrimSpace(p.serverURL)
  {
    var pairs := ConfigPairs(p, volumes);
    UrlIsTail(p, volumes);
    if Tail(p) == [] {
      LastPairLacks(pairs, "MINIO_SERVER_URL");
      ConfigIs(p, volumes);
      ReadsBack(pairs, runes, "MINIO_SERVER_URL", "");
    } else {
      AssignmentReads(p, volumes, runes, |pairs| - 1);
    }
  }

  lemma PathIsPlain(runes: Runes)
    requires Ascii(runes)
    ensures Plain("/etc/minio/config.env", runes)
  {
  }

  /** The file names the secondary file, and each parameter under its own key: the region,
      and the server's address without surrounding space, which may be blank. */
  lemma SettingsRead(p: Params, volumes: string, runes: Runes)
    requires p.topology.Valid(p.Total()) && runes.Sound() && Ascii(runes)
    requires Plain(p.region, runes) && Plain(TrimSpace(p.serverURL), runes)
    ensures var lines := Split(RenderPairs(ConfigPairs(p, volumes), runes), '\n');
            && LastValue(lines, "MINIO_CONFIG_ENV_FILE") == "/etc/minio/config.env"
            && LastValue(lines, "MINIO_REGION") == p.region
            && LastValue(lines, "MINIO_SERVER_URL") == TrimSpace(p.serverURL)
  {
    PathIsPlain(runes);
    AssignmentReads(p, volumes, runes, 0);
    AssignmentReads(p, volumes, runes, 2);
    UrlReads(p, volumes, runes);
  }

  /** The server listens on the API port, its console on the console port, and it takes its
      certificates from the directory they are installed in exactly when TLS is on. */
  lemma OptionsRead(p: Params, volumes: string, runes: Runes)
    requires p.topology.Valid(p.Total()) && runes.Sound() && Ascii(runes)
    ensures var body := RenderPairs(ConfigPairs(p, volumes), runes);
            Fields(LastValue(Split(body, '\n'), "MINIO_OPTS")) ==
            ["--address", ":" + Itoa(p.port), "--console-address", ":" + Itoa(p.consolePort)]
            + if p.tls then ["--certs-dir", "/etc/minio/certs"] else []
  {
    var words := OptionWords(p);
    OptionWordsPlain(p, runes);
    OptsJoined(p);
    JoinChars(words, runes);
    TextsAreWords(words, runes);
    FieldsOfJoin(words);
    AssignmentReads(p, volumes, runes, 3);
  }

  function OptionWords(p: Params): seq<string> {
    ["--address", ":" + Itoa(p.port), "--console-address", ":" + Itoa(p.consolePort)]
    + if p.tls then ["--certs-dir", "/etc/minio/certs"] else []
  }

  lemma OptionWordsPlain(p: Params, runes: Runes)
    requires Ascii(runes)
    ensures TokenTexts(OptionWords(p), runes)
  {
    OptionsArePlain(runes);
    PortsArePlain(p.port, runes);
    PortsArePlain(p.consolePort, runes);
  }

  lemma OptionsArePlain(runes: Runes)
    requires Ascii(runes)
    ensures TokenText("--address", runes) && TokenText("--console-address", runes)
    ensures TokenText("--certs-dir", runes) && TokenText(CERTS_DIR, runes)
  {
  }

  lemma PortsArePlain(port: nat, runes: Runes)
    requires Ascii(runes)
    ensures TokenText(":" + Itoa(port), runes)
  {
    ItoaDigits(port);
  }

  lemma OptsJoined(p: Params)
    ensures Join(OptionWords(p), " ") == p.Opts()
  {
    var a, b, c, e := "--address", ":" + Itoa(p.port), "--console-address", ":" + Itoa(p.consolePort);
    JoinSnoc([a, b, c], e);
    JoinSnoc([a, b], c);
    JoinSnoc([a], b);
    assert [a] + [b] == [a, b] && [a, b] + [c] == [a, b, c] && [a, b, c] + [e] == [a, b, c, e];
    if p.tls {
      var f, g := "--certs-dir", CERTS_DIR;
      JoinSnoc([a, b, c, e], f);
      JoinSnoc([a, b, c, e, f], g);
      assert [a, b, c, e] + [f] == [a, b, c, e, f] && [a, b, c, e, f] + [g] == OptionWords(p);
      Assoc(Join([a, b, c, e], " "), " " + f, " " + g);
    } else {
      assert OptionWords(p) == [a, b, c, e];
      assert Join([a, b, c, e], " ") + "" == Join([a, b, c, e], " ");
    }
  }

  lemma {:induction false} JoinSnoc(words: seq<string>, x: string)
    requires words != []
    ensures Join(words + [x], " ") == Join(words, " ") + (" " + x)
  {
    var all := words + [x];
    assert all[1..] == words[1..] + [x];
    if |words| == 1 {
      assert all[1..] == [x];
      Assoc(words[0], " ", x);
    } else {
      JoinSnoc(words[1..], x);
      Assoc(words[0] + " ", Join(words[1..], " "), " " + x);
    }
  }

  /** Every host with every path, under the scheme that goes with TLS and on the API port. */
  ghost function Drives(p: Params): set<string> {
    set h, d | h in Cleaned(p.hostnames) && d in p.paths ::
      (if p.tls then "https" else "http") + "://" + (h + (":" + Itoa(p.port)) + d)
  }

  /** For two or more hosts the value of MINIO_VOLUMES in the printed file denotes exactly
      those drives, when neither hosts nor paths lose padding. */
  lemma DrivesRead(p: Params, runes: Runes)
    requires p.topology.Valid(p.Total()) && |Cleaned(p.hostnames)| >= 2 && p.paths != []
    requires Clean(Cleaned(p.hostnames), p.paths, runes)
    requires Paddable(Cleaned(p.hostnames)) && Paddable(p.paths)
    ensures var body := RenderPairs(ConfigPairs(p, VolumesText(p.Scheme(), p.hostnames, p.port, p.paths)), runes);
            Denoted(Fields(LastValue(Split(body, '\n'), "MINIO_VOLUMES"))) == Drives(p)
  {
    var hosts := Cleaned(p.hostnames);
    var ts := Tokens(p.Scheme(), hosts, p.port, p.paths, PatternFit(hosts), PatternFit(p.paths));
    ValueIsTokens(p, ts, runes);
    VolumesTokensRead(p, ts, runes);
    CleanIsBraceFree(p, hosts, runes);
    TokensDenote(p.Scheme(), hosts, p.port, p.paths);
    EndpointsAreDrives(p);
  }

  lemma CleanIsBraceFree(p: Params, hosts: seq<string>, runes: Runes)
    requires Clean(hosts, p.paths, runes)
    ensures NoBraces(p.Scheme()) && BraceFree(hosts) && BraceFree(p.paths)
  {
    assert NoBraces("http") && NoBraces("https");
  }

  lemma ValueIsTokens(p: Params, ts: seq<string>, runes: Runes)
    requires |Cleaned(p.hostnames)| >= 2 && p.paths != [] && Clean(Cleaned(p.hostnames), p.paths, runes)
    requires ts == Tokens(p.Scheme(), Cleaned(p.hostnames), p.port, p.paths, PatternFit(Cleaned(p.hostnames)),
                          PatternFit(p.paths))
    ensures VolumesText(p.Scheme(), p.hostnames, p.port, p.paths) == Join(ts, " ") && TokenTexts(ts, runes)
  {
    SchemeIsPlain(p, runes);
    CleanListsFixed(Cleaned(p.hostnames), p.paths, runes);
    TokensAreTexts(p.Scheme(), Cleaned(p.hostnames), p.port, p.paths, runes);
  }

  lemma VolumesTokensRead(p: Params, ts: seq<string>, runes: Runes)
    requires p.topology.Valid(p.Total()) && TokenTexts(ts, runes) && Ascii(runes) && runes.Sound()
    ensures var body := RenderPairs(ConfigPairs(p, Join(ts, " ")), runes);
            Fields(LastValue(Split(body, '\n'), "MINIO_VOLUMES")) == ts
  {
    TokensReadBack(ts, runes);
    VolumesLine(p, Join(ts, " "), runes);
  }

  lemma TokensReadBack(ts: seq<string>, runes: Runes)
    requires TokenTexts(ts, runes) && Ascii(runes)
    ensures Plain(Join(ts, " "), runes) && Fields(Join(ts, " ")) == ts
  {
    TextsAreWords(ts, runes);
    JoinChars(ts, runes);
    FieldsOfJoin(ts);
  }

  lemma EndpointsAreDrives(p: Params)
    ensures Endpoints(p.Scheme(), Cleaned(p.hostnames), p.port, p.paths) == Drives(p)
  {
    var scheme := p.Scheme();
    assert scheme == if p.tls then "https" else "http";
    forall h, d: string
      ensures Endpoint(scheme, h, p.port) + d == scheme + "://" + (h + (":" + Itoa(p.port)) + d)
    {
      Assoc(scheme + "://", h + (":" + Itoa(p.port)), d);
    }
  }
}
