/** `renderVolumes` (internal/deploy/volumes.go:17-73): the hosts and storage paths of a
    deployment as one MINIO_VOLUMES value. */
module VolumeText {
  import opened Text
  import opened Decimal
  import opened Affixes
  import opened Ellipses
  import opened Volumes
  import opened Lossless
  import opened ConfigEnv

  /** `scheme://host:port`, where the host may be a pattern. */
  function Endpoint(scheme: string, host: string, port: nat): string {
    (scheme + "://") + (host + (":" + Itoa(port)))
  }

  /** A pattern stands for the whole list it compresses. */
  function Compressed(list: seq<string>, fit: Option<string>): seq<string> {
    if fit.Some? then [fit.value] else list
  }

  function TokensOfHost(scheme: string, host: string, port: nat, paths: seq<string>): (ts: seq<string>)
    ensures |ts| == |paths| && forall i :: 0 <= i < |ts| ==> ts[i] == Endpoint(scheme, host, port) + paths[i]
  {
    seq(|paths|, i requires 0 <= i < |paths| => Endpoint(scheme, host, port) + paths[i])
  }

  /** Every host with every path, host by host. */
  function Cross(scheme: string, hosts: seq<string>, port: nat, paths: seq<string>): seq<string> {
    if hosts == [] then []
    else Cross(scheme, hosts[..|hosts| - 1], port, paths) + TokensOfHost(scheme, hosts[|hosts| - 1], port, paths)
  }

  /** The arguments of the value, given the fits of the hosts and of the paths. */
  function Tokens(scheme: string, hosts: seq<string>, port: nat, paths: seq<string>,
                  hostFit: Option<string>, pathFit: Option<string>): seq<string> {
    if |hosts| == 1 then Compressed(paths, pathFit)
    else Cross(scheme, Compressed(hosts, hostFit), port, Compressed(paths, pathFit))
  }

  ghost function VolumesText(scheme: string, hostnames: seq<string>, port: nat, paths: seq<string>): string {
    var hosts := Cleaned(hostnames);
    if hosts == [] || paths == [] then ""
    else Join(Tokens(scheme, hosts, port, paths, PatternFit(Cleaned(hosts)), PatternFit(Cleaned(paths))), " ")
  }

  lemma CrossNext(scheme: string, hosts: seq<string>, port: nat, paths: seq<string>, i: nat)
    requires i < |hosts|
    ensures Cross(scheme, hosts[..i + 1], port, paths) ==
            Cross(scheme, hosts[..i], port, paths) + TokensOfHost(scheme, hosts[i], port, paths)
  {
    assert hosts[..i + 1][..i] == hosts[..i];
  }

  /** One host with each path. */
  method EachPath(scheme: string, host: string, port: nat, paths: seq<string>) returns (parts: seq<string>)
    ensures parts == TokensOfHost(scheme, host, port, paths)
  {
    parts := [];
    for i := 0 to |paths|
      invariant |parts| == i && forall j :: 0 <= j < i ==> parts[j] == Endpoint(scheme, host, port) + paths[j]
    {
      parts := parts + [Endpoint(scheme, host, port) + paths[i]];
    }
  }

  method EachHost(scheme: string, hosts: seq<string>, port: nat, paths: seq<string>) returns (parts: seq<string>)
    ensures parts == Cross(scheme, hosts, port, paths)
  {
    parts := [];
    for i := 0 to |hosts|
      invariant parts == Cross(scheme, hosts[..i], port, paths)
    {
      CrossNext(scheme, hosts, port, paths, i);
      var each := EachPath(scheme, hosts[i], port, paths);
      parts := parts + each;
    }
    assert hosts[..|hosts|] == hosts;
  }

  lemma CrossOne(scheme: string, host: string, port: nat, paths: seq<string>)
    ensures Cross(scheme, [host], port, paths) == TokensOfHost(scheme, host, port, paths)
  {
    assert [host][..0] == [];
    assert [] + TokensOfHost(scheme, host, port, paths) == TokensOfHost(scheme, host, port, paths);
  }

  method RenderVolumes(scheme: string, hostnames: seq<string>, port: nat, paths: seq<string>) returns (text: string)
    ensures text == VolumesText(scheme, hostnames, port, paths)
  {
    var hosts := CleanList(hostnames);
    if |hosts| == 0 || |paths| == 0 {
      return "";
    }
    var pathFit := DetectNumericPattern(paths);
    if |hosts| == 1 {
      if pathFit.Some? {
        return pathFit.value;
      }
      return Join(paths, " ");
    }
    var hostFit := DetectNumericPattern(hosts);
    var parts;
    if hostFit.Some? && pathFit.Some? {
      CrossOne(scheme, hostFit.value, port, [pathFit.value]);
      parts := [Endpoint(scheme, hostFit.value, port) + pathFit.value];
    } else if hostFit.Some? {
      CrossOne(scheme, hostFit.value, port, paths);
      parts := EachPath(scheme, hostFit.value, port, paths);
    } else {
      parts := EachHost(scheme, hosts, port, Compressed(paths, pathFit));
    }
    text := Join(parts, " ");
  }

  // ----- What the arguments denote

  /** Everything some argument denotes. */
  ghost function Denoted(tokens: seq<string>): set<string> {
    if tokens == [] then {} else Denoted(tokens[..|tokens| - 1]) + Expand(tokens[|tokens| - 1])
  }

  lemma {:induction false} DenotedMember(tokens: seq<string>, x: string)
    ensures x in Denoted(tokens) <==> exists i :: 0 <= i < |tokens| && x in Expand(tokens[i])
  {
    if tokens != [] {
      var n := |tokens| - 1;
      DenotedMember(tokens[..n], x);
      if x in Denoted(tokens) && x !in Expand(tokens[n]) {
        var i :| 0 <= i < n && x in Expand(tokens[..n][i]);
        assert x in Expand(tokens[i]);
      }
      if i :| 0 <= i < |tokens| && x in Expand(tokens[i]) && i < n {
        assert tokens[..n][i] == tokens[i];
      }
    }
  }

  /** A literal list denotes itself, and so does its pattern exactly when nothing is lost. */
  lemma CompressedDenotes(list: seq<string>)
    requires list != [] && BraceFree(list)
    ensures Denoted(Compressed(list, PatternFit(list))) == Elements(list) <==> Paddable(list)
  {
    var fit := PatternFit(list);
    if fit.Some? {
      CompressionLossless(list);
      assert [fit.value][..0] == [];
    } else {
      LiteralsDenote(list);
    }
  }

  lemma LiteralsDenote(list: seq<string>)
    requires BraceFree(list)
    ensures Denoted(list) == Elements(list)
  {
    forall x
      ensures x in Denoted(list) <==> x in Elements(list)
    {
      DenotedMember(list, x);
      if i :| 0 <= i < |list| && list[i] == x {
        ExpandLiteral(list[i]);
      }
      if i :| 0 <= i < |list| && x in Expand(list[i]) {
        ExpandLiteral(list[i]);
      }
    }
  }

  ghost function Between(pre: string, xs: set<string>, mid: string, ys: set<string>): set<string> {
    set x, y | x in xs && y in ys :: pre + (x + (mid + y))
  }

  /** A pattern inside an argument multiplies with what follows it. */
  lemma ExpandProduct(pre: string, h: string, mid: string, path: string)
    requires NoBraces(pre) && NoBraces(mid) && OnePattern(h)
    ensures Expand(pre + (h + (mid + path))) == Between(pre, Expand(h), mid, Expand(path))
  {
    if NoBraces(h) {
      LiteralProduct(pre, h, mid, path);
    } else {
      var p, lo, hi, s :| IsPattern(h, p, lo, hi, s);
      PatternProduct(pre, h, mid, path, p, lo, hi, s);
    }
  }

  lemma LiteralProduct(pre: string, h: string, mid: string, path: string)
    requires NoBraces(pre) && NoBraces(mid) && NoBraces(h)
    ensures Expand(pre + (h + (mid + path))) == Between(pre, Expand(h), mid, Expand(path))
  {
    var front := pre + (h + mid);
    ExpandLiteral(h);
    ExpandAfterPrefix(front, path);
    FrontOf(pre, h, mid, path);
    forall y
      ensures front + y == pre + (h + (mid + y))
    {
      FrontOf(pre, h, mid, y);
    }
    assert h in {h};
    PrefixedIsBetween(front, pre, h, mid, Expand(path));
  }

  lemma FrontOf(pre: string, h: string, mid: string, y: string)
    ensures (pre + (h + mid)) + y == pre + (h + (mid + y))
  {
    Assoc(pre, h + mid, y);
    Assoc(h, mid, y);
  }

  lemma PrefixedIsBetween(front: string, pre: string, h: string, mid: string, ys: set<string>)
    requires forall y :: front + y == pre + (h + (mid + y))
    ensures Prefixed(front, ys) == Between(pre, {h}, mid, ys)
  {
    assert h in {h};
  }

  lemma PatternProduct(pre: string, h: string, mid: string, path: string, p: string, lo: string, hi: string, s: string)
    requires NoBraces(pre) && NoBraces(mid) && IsPattern(h, p, lo, hi, s)
    ensures Expand(pre + (h + (mid + path))) == Between(pre, Expand(h), mid, Expand(path))
  {
    PatternGrows(pre, p, lo, hi, s, mid + path);
    ExpandPattern(pre + p, lo, hi, s + (mid + path));
    Assoc(s, mid, path);
    ExpandAfterPrefix(s + mid, path);
    ExpandPattern(p, lo, hi, s);
    ExpandLiteral(s);
    CombinedIsBetween(pre, p, Labels(lo, hi), s, mid, Expand(path));
  }

  /** Text around a pattern joins its prefix and its rest. */
  lemma PatternGrows(pre: string, p: string, lo: string, hi: string, s: string, after: string)
    ensures pre + (Pattern(p, lo, hi, s) + after) == Pattern(pre + p, lo, hi, s + after)
  {
    var inner := lo + ("..." + hi);
    Assoc(p, "{" + (inner + ("}" + s)), after);
    Assoc("{", inner + ("}" + s), after);
    Assoc(inner, "}" + s, after);
    Assoc("}", s, after);
    Assoc(pre, p, "{" + (inner + ("}" + (s + after))));
  }

  lemma CombinedIsBetween(pre: string, p: string, labels: set<string>, s: string, mid: string, ys: set<string>)
    ensures Combine(pre + p, labels, Prefixed(s + mid, ys)) == Between(pre, Combine(p, labels, {s}), mid, ys)
  {
    forall l, y | l in labels && y in ys
      ensures (pre + p) + (l + ((s + mid) + y)) == pre + ((p + (l + s)) + (mid + y))
    {
      Around(pre, p, l, s, mid, y);
    }
    forall x | x in Combine(pre + p, labels, Prefixed(s + mid, ys))
      ensures x in Between(pre, Combine(p, labels, {s}), mid, ys)
    {
      var l, t :| l in labels && t in Prefixed(s + mid, ys) && x == (pre + p) + (l + t);
      var y :| y in ys && t == (s + mid) + y;
      assert s in {s} && p + (l + s) in Combine(p, labels, {s});
    }
    forall x | x in Between(pre, Combine(p, labels, {s}), mid, ys)
      ensures x in Combine(pre + p, labels, Prefixed(s + mid, ys))
    {
      var m, y :| m in Combine(p, labels, {s}) && y in ys && x == pre + (m + (mid + y));
      var l, t :| l in labels && t in {s} && m == p + (l + t);
      assert (s + mid) + y in Prefixed(s + mid, ys);
    }
  }

  lemma Around(pre: string, p: string, l: string, s: string, mid: string, y: string)
    ensures (pre + p) + (l + ((s + mid) + y)) == pre + ((p + (l + s)) + (mid + y))
  {
    Assoc(s, mid, y);
    Assoc(l, s, mid + y);
    Assoc(pre, p, (l + s) + (mid + y));
    Assoc(p, l + s, mid + y);
  }

  lemma {:induction false} DenotedAppend(a: seq<string>, b: seq<string>)
    ensures Denoted(a + b) == Denoted(a) + Denoted(b)
  {
    if b == [] {
      assert a + b == a;
    } else {
      assert (a + b)[..|a + b| - 1] == a + b[..|b| - 1];
      DenotedAppend(a, b[..|b| - 1]);
    }
  }

  lemma BetweenUnion(pre: string, xs: set<string>, xs': set<string>, mid: string, ys: set<string>, ys': set<string>)
    ensures Between(pre, xs, mid, ys) + Between(pre, xs', mid, ys) == Between(pre, xs + xs', mid, ys)
    ensures Between(pre, xs, mid, ys) + Between(pre, xs, mid, ys') == Between(pre, xs, mid, ys + ys')
  {
  }

  lemma EndpointSplit(scheme: string, host: string, port: nat, path: string)
    ensures Endpoint(scheme, host, port) + path == (scheme + "://") + (host + ((":" + Itoa(port)) + path))
  {
    Assoc(scheme + "://", host + (":" + Itoa(port)), path);
    Assoc(host, ":" + Itoa(port), path);
  }

  lemma PortIsPlain(port: nat)
    ensures NoBraces(":" + Itoa(port)) && '/' !in ":" + Itoa(port)
  {
    ItoaDigits(port);
  }

  lemma {:induction false} HostDenotes(scheme: string, host: string, port: nat, paths: seq<string>)
    requires NoBraces(scheme) && OnePattern(host)
    ensures Denoted(TokensOfHost(scheme, host, port, paths)) ==
            Between(scheme + "://", Expand(host), ":" + Itoa(port), Denoted(paths))
  {
    if paths != [] {
      var front, last := paths[..|paths| - 1], paths[|paths| - 1];
      HostDenotes(scheme, host, port, front);
      var ts := TokensOfHost(scheme, host, port, paths);
      assert ts[..|ts| - 1] == TokensOfHost(scheme, host, port, front);
      EndpointSplit(scheme, host, port, last);
      PortIsPlain(port);
      ExpandProduct(scheme + "://", host, ":" + Itoa(port), last);
      BetweenUnion(scheme + "://", Expand(host), {}, ":" + Itoa(port), Denoted(front), Expand(last));
    }
  }

  lemma {:induction false} CrossDenotes(scheme: string, hosts: seq<string>, port: nat, paths: seq<string>)
    requires NoBraces(scheme) && forall i :: 0 <= i < |hosts| ==> OnePattern(hosts[i])
    ensures Denoted(Cross(scheme, hosts, port, paths)) ==
            Between(scheme + "://", Denoted(hosts), ":" + Itoa(port), Denoted(paths))
  {
    if hosts != [] {
      var front, last := hosts[..|hosts| - 1], hosts[|hosts| - 1];
      CrossDenotes(scheme, front, port, paths);
      HostDenotes(scheme, last, port, paths);
      DenotedAppend(Cross(scheme, front, port, paths), TokensOfHost(scheme, last, port, paths));
      BetweenUnion(scheme + "://", Denoted(front), Expand(last), ":" + Itoa(port), Denoted(paths), {});
    }
  }

  lemma BoundsMakePattern(p: string, ms: seq<string>, s: string)
    requires ms != [] && DigitStrings(ms) && MiddlesFit(ms) && NoBraces(p) && NoBraces(s)
    ensures OnePattern(MiddlesPattern(p, ms, s))
  {
    BoundsAreNumbers(ms);
    var lo := MinOf(Numbers(ms));
    var l, h := Bound(ms, lo), Bound(ms, lo + |ms| - 1);
    assert IsPattern(Pattern(p, l, h, s), p, l, h, s);
  }

  lemma CompressedIsOnePattern(list: seq<string>)
    requires list != [] && BraceFree(list)
    ensures var l := Compressed(list, PatternFit(list));
            forall i :: 0 <= i < |l| ==> OnePattern(l[i])
  {
    if |list| >= 2 && Fits(list) {
      PatternIsOnePattern(list);
    }
  }

  lemma PatternIsOnePattern(list: seq<string>)
    requires |list| >= 2 && Fits(list) && BraceFree(list)
    ensures OnePattern(PatternOf(list))
  {
    var p, s := Lcp(list), Lcs(list);
    var ms := Middles(list, p, s);
    AffixesBraceFree(list);
    BoundsMakePattern(p, ms, s);
  }

  /** Every host with every path. */
  ghost function Endpoints(scheme: string, hosts: seq<string>, port: nat, paths: seq<string>): set<string> {
    set h, p | h in hosts && p in paths :: Endpoint(scheme, h, port) + p
  }

  lemma BetweenIsEndpoints(scheme: string, hosts: seq<string>, port: nat, paths: seq<string>)
    ensures Between(scheme + "://", Elements(hosts), ":" + Itoa(port), Elements(paths)) ==
            Endpoints(scheme, hosts, port, paths)
  {
    forall h, p
      ensures Endpoint(scheme, h, port) + p == (scheme + "://") + (h + ((":" + Itoa(port)) + p))
    {
      EndpointSplit(scheme, h, port, p);
    }
    forall x | x in Endpoints(scheme, hosts, port, paths)
      ensures x in Between(scheme + "://", Elements(hosts), ":" + Itoa(port), Elements(paths))
    {
      var h, p :| h in hosts && p in paths && x == Endpoint(scheme, h, port) + p;
      assert h in Elements(hosts) && p in Elements(paths);
    }
  }

  predicate Hostnames(hosts: seq<string>) {
    forall i :: 0 <= i < |hosts| ==> '/' !in hosts[i]
  }

  predicate RootedPaths(paths: seq<string>) {
    forall i :: 0 <= i < |paths| ==> HasPrefix(paths[i], "/")
  }

  /** The arguments for two or more hosts denote exactly every host with every path, in all
      four cases of pattern and literal, when neither compression loses padding; for hosts
      without a slash and rooted paths, only then. */
  lemma TokensDenote(scheme: string, hosts: seq<string>, port: nat, paths: seq<string>)
    requires |hosts| >= 2 && paths != [] && NoBraces(scheme) && BraceFree(hosts) && BraceFree(paths)
    ensures var denoted := Denoted(Tokens(scheme, hosts, port, paths, PatternFit(hosts), PatternFit(paths)));
            && (Paddable(hosts) && Paddable(paths) ==> denoted == Endpoints(scheme, hosts, port, paths))
            && (Hostnames(hosts) && RootedPaths(paths) && denoted == Endpoints(scheme, hosts, port, paths) ==>
                  Paddable(hosts) && Paddable(paths))
  {
    TokensAreBetween(scheme, hosts, port, paths);
    BetweenIsEndpoints(scheme, hosts, port, paths);
    PortIsPlain(port);
    ProductDenotes(scheme + "://", hosts, ":" + Itoa(port), paths);
  }

  lemma ProductDenotes(pre: string, hosts: seq<string>, mid: string, paths: seq<string>)
    requires hosts != [] && paths != [] && BraceFree(hosts) && BraceFree(paths) && '/' !in mid
    ensures var denoted := Between(pre, Denoted(Compressed(hosts, PatternFit(hosts))), mid,
                                   Denoted(Compressed(paths, PatternFit(paths))));
            var meant := Between(pre, Elements(hosts), mid, Elements(paths));
            && (Paddable(hosts) && Paddable(paths) ==> denoted == meant)
            && (Hostnames(hosts) && RootedPaths(paths) && denoted == meant ==> Paddable(hosts) && Paddable(paths))
  {
    CompressedDenotes(hosts);
    CompressedDenotes(paths);
    if Hostnames(hosts) && RootedPaths(paths) {
      FactorsDecide(pre, hosts, mid, paths);
    }
  }

  lemma TokensAreBetween(scheme: string, hosts: seq<string>, port: nat, paths: seq<string>)
    requires |hosts| >= 2 && paths != [] && NoBraces(scheme) && BraceFree(hosts) && BraceFree(paths)
    ensures Denoted(Tokens(scheme, hosts, port, paths, PatternFit(hosts), PatternFit(paths))) ==
            Between(scheme + "://", Denoted(Compressed(hosts, PatternFit(hosts))), ":" + Itoa(port),
                    Denoted(Compressed(paths, PatternFit(paths))))
  {
    CompressedIsOnePattern(hosts);
    CrossDenotes(scheme, Compressed(hosts, PatternFit(hosts)), port, Compressed(paths, PatternFit(paths)));
  }

  // ----- The arguments determine the hosts and paths they denote

  ghost predicate SlashFree(xs: set<string>) {
    forall x :: x in xs ==> '/' !in x
  }

  ghost predicate Rooted(ys: set<string>) {
    forall y :: y in ys ==> HasPrefix(y, "/")
  }

  /** What stands before the first slash, and what follows. */
  lemma SlashSplits(x: string, y: string, x': string, y': string)
    requires '/' !in x && '/' !in x' && HasPrefix(y, "/") && HasPrefix(y', "/") && x + y == x' + y'
    ensures x == x' && y == y'
  {
    SplitAt(x, '/', y[1..]);
    SplitAt(x', '/', y'[1..]);
    assert y == ['/'] + y[1..] && y' == ['/'] + y'[1..];
  }

  lemma BetweenSplits(pre: string, x: string, y: string, mid: string, x': string, y': string)
    requires '/' !in x && '/' !in x' && '/' !in mid && HasPrefix(y, "/") && HasPrefix(y', "/")
    requires pre + (x + (mid + y)) == pre + (x' + (mid + y'))
    ensures x == x' && y == y'
  {
    CutAppend(pre, x + (mid + y), |pre|);
    CutAppend(pre, x' + (mid + y'), |pre|);
    assert pre[|pre|..] + (x + (mid + y)) == x + (mid + y) && pre[|pre|..] + (x' + (mid + y')) == x' + (mid + y');
    Assoc(x, mid, y);
    Assoc(x', mid, y');
    SlashSplits(x + mid, y, x' + mid, y');
    assert (x + mid)[..|x|] == x && (x' + mid)[..|x'|] == x';
  }

  lemma FactorsIncluded(pre: string, xs: set<string>, xs': set<string>, mid: string, ys: set<string>, ys': set<string>)
    requires SlashFree(xs) && SlashFree(xs') && Rooted(ys) && Rooted(ys') && '/' !in mid
    requires Between(pre, xs, mid, ys) <= Between(pre, xs', mid, ys') && xs != {} && ys != {}
    ensures xs <= xs' && ys <= ys'
  {
    forall x, y | x in xs && y in ys
      ensures x in xs' && y in ys'
    {
      assert pre + (x + (mid + y)) in Between(pre, xs, mid, ys);
      var x', y' :| x' in xs' && y' in ys' && pre + (x + (mid + y)) == pre + (x' + (mid + y'));
      BetweenSplits(pre, x, y, mid, x', y');
    }
    var x0 :| x0 in xs;
    var y0 :| y0 in ys;
  }

  lemma NoFactor(pre: string, xs: set<string>, mid: string, ys: set<string>)
    ensures Between(pre, xs, mid, ys) == {} <==> xs == {} || ys == {}
  {
    if xs != {} && ys != {} {
      var x :| x in xs;
      var y :| y in ys;
      assert pre + (x + (mid + y)) in Between(pre, xs, mid, ys);
    }
  }

  lemma FactorsDecide(pre: string, hosts: seq<string>, mid: string, paths: seq<string>)
    requires hosts != [] && paths != [] && BraceFree(hosts) && BraceFree(paths) && '/' !in mid
    requires Hostnames(hosts) && RootedPaths(paths)
    ensures var hs, ps := Denoted(Compressed(hosts, PatternFit(hosts))), Denoted(Compressed(paths, PatternFit(paths)));
            Between(pre, hs, mid, ps) == Between(pre, Elements(hosts), mid, Elements(paths)) ==>
            hs == Elements(hosts) && ps == Elements(paths)
  {
    var hs, ps := Denoted(Compressed(hosts, PatternFit(hosts))), Denoted(Compressed(paths, PatternFit(paths)));
    if Between(pre, hs, mid, ps) == Between(pre, Elements(hosts), mid, Elements(paths)) {
      assert hosts[0] in Elements(hosts) && paths[0] in Elements(paths);
      NoFactor(pre, hs, mid, ps);
      NoFactor(pre, Elements(hosts), mid, Elements(paths));
      CompressedSlashFree(hosts);
      CompressedRooted(paths);
      FactorsIncluded(pre, hs, Elements(hosts), mid, ps, Elements(paths));
      FactorsIncluded(pre, Elements(hosts), hs, mid, Elements(paths), ps);
    }
  }

  lemma DenotedOne(token: string)
    ensures Denoted([token]) == Expand(token)
  {
    assert [token][..0] == [];
  }

  lemma MeantSlashFree(p: string, ms: seq<string>, s: string)
    requires ms != [] && DigitStrings(ms) && MiddlesFit(ms) && '/' !in p && '/' !in s
    ensures SlashFree(Meant(p, ms, s))
  {
    BoundsAreNumbers(ms);
    var n := MinOf(Numbers(ms));
    var lo, hi := Bound(ms, n), Bound(ms, n + |ms| - 1);
    forall x | x in Meant(p, ms, s)
      ensures '/' !in x
    {
      var l, t :| l in Labels(lo, hi) && t in {s} && x == p + (l + t);
      LabelIsDigits(lo, hi, l);
    }
  }

  lemma MeantRooted(p: string, ms: seq<string>, s: string)
    requires ms != [] && DigitStrings(ms) && MiddlesFit(ms) && HasPrefix(p, "/")
    ensures Rooted(Meant(p, ms, s))
  {
    BoundsAreNumbers(ms);
    var n := MinOf(Numbers(ms));
    CombinedRooted(p, Labels(Bound(ms, n), Bound(ms, n + |ms| - 1)), s);
  }

  lemma CombinedRooted(p: string, labels: set<string>, s: string)
    requires HasPrefix(p, "/")
    ensures Rooted(Combine(p, labels, {s}))
  {
    forall x | x in Combine(p, labels, {s})
      ensures HasPrefix(x, "/")
    {
      var l, t :| l in labels && t in {s} && x == p + (l + t);
      assert x[..1] == p[..1];
    }
  }

  lemma CompressedSlashFree(hosts: seq<string>)
    requires hosts != [] && BraceFree(hosts) && Hostnames(hosts)
    ensures SlashFree(Elements(hosts)) && SlashFree(Denoted(Compressed(hosts, PatternFit(hosts))))
  {
    if |hosts| >= 2 && Fits(hosts) {
      PatternSlashFree(hosts);
      DenotedOne(PatternOf(hosts));
    } else {
      LiteralsDenote(hosts);
      assert |hosts| == 1 ==> [hosts[0]] == hosts;
    }
  }

  lemma PatternSlashFree(hosts: seq<string>)
    requires |hosts| >= 2 && Fits(hosts) && BraceFree(hosts) && Hostnames(hosts)
    ensures SlashFree(Expand(PatternOf(hosts)))
  {
    var p, s := Lcp(hosts), Lcs(hosts);
    var ms := Middles(hosts, p, s);
    AffixesBraceFree(hosts);
    AffixesSlashFree(hosts);
    PatternExpands(p, ms, s);
    MeantSlashFree(p, ms, s);
  }

  lemma AffixesSlashFree(hosts: seq<string>)
    requires hosts != [] && Hostnames(hosts)
    ensures '/' !in Lcp(hosts) && '/' !in Lcs(hosts)
  {
    var p, s := Lcp(hosts), Lcs(hosts);
    LcpIsLongest(hosts, p);
    LcsIsLongest(hosts, s);
    if '/' in p || '/' in s {
      AffixChars(hosts[0], p, s, '/');
    }
  }

  lemma CompressedRooted(paths: seq<string>)
    requires paths != [] && BraceFree(paths) && RootedPaths(paths)
    ensures Rooted(Elements(paths)) && Rooted(Denoted(Compressed(paths, PatternFit(paths))))
  {
    if |paths| >= 2 && Fits(paths) {
      PatternRooted(paths);
      DenotedOne(PatternOf(paths));
    } else {
      LiteralsDenote(paths);
      assert |paths| == 1 ==> [paths[0]] == paths;
    }
  }

  lemma PatternRooted(paths: seq<string>)
    requires |paths| >= 2 && Fits(paths) && BraceFree(paths) && RootedPaths(paths)
    ensures Rooted(Expand(PatternOf(paths)))
  {
    var p, s := Lcp(paths), Lcs(paths);
    var ms := Middles(paths, p, s);
    AffixesBraceFree(paths);
    LcpIsLongest(paths, "/");
    PatternExpands(p, ms, s);
    MeantRooted(p, ms, s);
  }
}
