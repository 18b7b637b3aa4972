/** Which peer a redeploy copies its configuration from, written twice in
    internal/operations/orchestrated.go (1146-1172 and 1314-1349). */
module PeerSelection {
  import opened Text

  datatype Node = Node(id: string, pool: int, online: bool)

  /** Peers of the target's pool before others, online ones before others. */
  function Rank(n: Node, target: Node): nat {
    (if n.pool == target.pool then 0 else 2) + if n.online then 0 else 1
  }

  predicate Eligible(n: Node, target: Node, usable: Node -> bool) {
    n.id != target.id && usable(n)
  }

  /** The first eligible node of one rank. */
  function FirstOfRank(nodes: seq<Node>, target: Node, usable: Node -> bool, rank: nat): Option<Node> {
    if nodes == [] then None
    else if Eligible(nodes[0], target, usable) && Rank(nodes[0], target) == rank then Some(nodes[0])
    else FirstOfRank(nodes[1..], target, usable, rank)
  }

  function OrElse(a: Option<Node>, b: Option<Node>): Option<Node> {
    if a.Some? then a else b
  }

  /** The four ranks in order. */
  function Chosen(nodes: seq<Node>, target: Node, usable: Node -> bool): Option<Node> {
    OrElse(OrElse(FirstOfRank(nodes, target, usable, 0), FirstOfRank(nodes, target, usable, 1)),
           OrElse(FirstOfRank(nodes, target, usable, 2), FirstOfRank(nodes, target, usable, 3)))
  }

  /** Node `k` is eligible, no eligible node has a lower rank, and none before it the same. */
  predicate FirstOfLeastRank(nodes: seq<Node>, target: Node, usable: Node -> bool, k: nat) {
    && k < |nodes| && Eligible(nodes[k], target, usable)
    && forall j :: 0 <= j < |nodes| && Eligible(nodes[j], target, usable) ==>
         Rank(nodes[k], target) < Rank(nodes[j], target) || (Rank(nodes[k], target) == Rank(nodes[j], target) && k <= j)
  }

  lemma {:induction false} FirstOfRankAt(nodes: seq<Node>, target: Node, usable: Node -> bool, rank: nat)
    returns (k: nat)
    ensures FirstOfRank(nodes, target, usable, rank).None? ==>
              forall j :: 0 <= j < |nodes| ==> !(Eligible(nodes[j], target, usable) && Rank(nodes[j], target) == rank)
    ensures FirstOfRank(nodes, target, usable, rank).Some? ==>
              && k < |nodes| && nodes[k] == FirstOfRank(nodes, target, usable, rank).value
              && Eligible(nodes[k], target, usable) && Rank(nodes[k], target) == rank
              && forall j :: 0 <= j < k ==> !(Eligible(nodes[j], target, usable) && Rank(nodes[j], target) == rank)
  {
    k := 0;
    if nodes != [] && !(Eligible(nodes[0], target, usable) && Rank(nodes[0], target) == rank) {
      k := FirstOfRankAt(nodes[1..], target, usable, rank);
      assert forall j :: 0 < j < |nodes| ==> nodes[j] == nodes[1..][j - 1];
      k := k + 1;
    }
  }

  /** For any predicate: nothing is chosen exactly when no peer is eligible, and otherwise
      the first peer of least rank. */
  lemma ChosenIsFirstOfLeastRank(nodes: seq<Node>, target: Node, usable: Node -> bool)
    ensures var c := Chosen(nodes, target, usable);
            && (c.None? <==> forall j :: 0 <= j < |nodes| ==> !Eligible(nodes[j], target, usable))
            && (c.Some? ==> exists k: nat :: FirstOfLeastRank(nodes, target, usable, k) && nodes[k] == c.value)
  {
    var k0 := FirstOfRankAt(nodes, target, usable, 0);
    var k1 := FirstOfRankAt(nodes, target, usable, 1);
    var k2 := FirstOfRankAt(nodes, target, usable, 2);
    var k3 := FirstOfRankAt(nodes, target, usable, 3);
    if FirstOfRank(nodes, target, usable, 0).Some? {
      assert FirstOfLeastRank(nodes, target, usable, k0);
    } else if FirstOfRank(nodes, target, usable, 1).Some? {
      assert FirstOfLeastRank(nodes, target, usable, k1);
    } else if FirstOfRank(nodes, target, usable, 2).Some? {
      assert FirstOfLeastRank(nodes, target, usable, k2);
    } else if FirstOfRank(nodes, target, usable, 3).Some? {
      assert FirstOfLeastRank(nodes, target, usable, k3);
    }
  }

  /** In plain words: the target is never its own source; the choice is usable; it is from
      the target's pool if any usable peer is, and then, or within the other pools, online
      if any such peer is online. */
  lemma ChosenInWords(nodes: seq<Node>, target: Node, usable: Node -> bool)
    ensures var c := Chosen(nodes, target, usable);
            && (c.None? <==> forall n :: n in nodes && n.id != target.id ==> !usable(n))
            && (c.Some? ==>
                  && c.value in nodes && c.value.id != target.id && usable(c.value)
                  && forall n :: n in nodes && n.id != target.id && usable(n) ==>
                       && (n.pool == target.pool ==> c.value.pool == target.pool)
                       && (n.online && (n.pool == target.pool <==> c.value.pool == target.pool) ==> c.value.online))
  {
    ChosenIsFirstOfLeastRank(nodes, target, usable);
    var c := Chosen(nodes, target, usable);
    if c.Some? {
      var k: nat :| FirstOfLeastRank(nodes, target, usable, k) && nodes[k] == c.value;
      forall n | n in nodes && n.id != target.id && usable(n)
        ensures Rank(c.value, target) <= Rank(n, target)
      {
        var j :| 0 <= j < |nodes| && nodes[j] == n;
        assert Eligible(nodes[j], target, usable);
      }
    } else {
      forall n | n in nodes && n.id != target.id
        ensures !usable(n)
      {
        var j :| 0 <= j < |nodes| && nodes[j] == n;
        assert !Eligible(nodes[j], target, usable);
      }
    }
  }

  // ----- The picker with a fallback

  /** `pickPeerInPoolScope`: one pass that remembers the first offline peer. */
  method PickPeerInPoolScope(nodes: seq<Node>, target: Node, usable: Node -> bool, samePool: bool)
    returns (peer: Option<Node>)
    ensures var r := if samePool then 0 else 2;
            peer == OrElse(FirstOfRank(nodes, target, usable, r), FirstOfRank(nodes, target, usable, r + 1))
  {
    var r := if samePool then 0 else 2;
    var fallback: Option<Node> := None;
    for i := 0 to |nodes|
      invariant FirstOfRank(nodes, target, usable, r) == FirstOfRank(nodes[i..], target, usable, r)
      invariant FirstOfRank(nodes, target, usable, r + 1) ==
                OrElse(fallback, FirstOfRank(nodes[i..], target, usable, r + 1))
    {
      var n := nodes[i];
      assert nodes[i..][1..] == nodes[i + 1..];
      if n.id != target.id && samePool == (n.pool == target.pool) && usable(n) {
        if n.online {
          return Some(n);
        }
        if fallback.None? {
          fallback := Some(n);
        }
      }
    }
    return fallback;
  }

  /** `pickConfigSourcePeerWith`. */
  method PickConfigSourcePeer(nodes: seq<Node>, target: Node, usable: Node -> bool) returns (peer: Option<Node>)
    ensures peer == Chosen(nodes, target, usable)
  {
    peer := PickPeerInPoolScope(nodes, target, usable, true);
    if peer.None? {
      peer := PickPeerInPoolScope(nodes, target, usable, false);
    }
  }

  // ----- The four-fold loop

  /** A unit's properties; all blank means the unit is not loaded. */
  datatype Props = Props(user: string, group: string, environmentFiles: seq<string>)
  {
    predicate Loaded() {
      environmentFiles != [] || user != "" || group != ""
    }
  }

  predicate AnswersWithUnit(n: Node, probe: Node -> Option<Props>) {
    probe(n).Some? && probe(n).value.Loaded()
  }

  /** The properties of the chosen peer, or blank ones. */
  function PropsOf(peer: Option<Node>, probe: Node -> Option<Props>): Props {
    if peer.Some? && probe(peer.value).Some? then probe(peer.value).value else Props("", "", [])
  }

  /** The innermost loop: the first node of one pool scope and one state that answers. */
  method ProbeScope(nodes: seq<Node>, target: Node, probe: Node -> Option<Props>, sameScope: bool, onlineOnly: bool)
    returns (props: Option<Props>)
    ensures var c := FirstOfRank(nodes, target, n => AnswersWithUnit(n, probe),
                                 (if sameScope then 0 else 2) + if onlineOnly then 0 else 1);
            props == if c.Some? then probe(c.value) else None
  {
    var rank := (if sameScope then 0 else 2) + if onlineOnly then 0 else 1;
    ghost var usable := (n: Node) => AnswersWithUnit(n, probe);
    for i := 0 to |nodes|
      invariant FirstOfRank(nodes, target, usable, rank) == FirstOfRank(nodes[i..], target, usable, rank)
    {
      var n := nodes[i];
      assert nodes[i..][1..] == nodes[i + 1..];
      if n.id != target.id && sameScope == (n.pool == target.pool) && onlineOnly == n.online {
        var answer := probe(n);
        if answer.Some? && answer.value.Loaded() {
          return answer;
        }
      }
    }
    return None;
  }

  /** `probeUnitPropsFromAnyPeer`: the same peer as the picker, for peers that answer with
      the unit loaded. */
  method ProbeUnitPropsFromAnyPeer(nodes: seq<Node>, target: Node, probe: Node -> Option<Props>) returns (props: Props)
    ensures props == PropsOf(Chosen(nodes, target, n => AnswersWithUnit(n, probe)), probe)
  {
    var scopes := [true, false];
    for s := 0 to 2
      invariant s >= 1 ==> FirstOfRank(nodes, target, n => AnswersWithUnit(n, probe), 0).None?
                           && FirstOfRank(nodes, target, n => AnswersWithUnit(n, probe), 1).None?
      invariant s >= 2 ==> FirstOfRank(nodes, target, n => AnswersWithUnit(n, probe), 2).None?
                           && FirstOfRank(nodes, target, n => AnswersWithUnit(n, probe), 3).None?
    {
      var online := ProbeScope(nodes, target, probe, scopes[s], true);
      AnswerIsLoaded(nodes, target, probe, if s == 0 then 0 else 2);
      if online.Some? {
        return online.value;
      }
      var offline := ProbeScope(nodes, target, probe, scopes[s], false);
      AnswerIsLoaded(nodes, target, probe, if s == 0 then 1 else 3);
      if offline.Some? {
        return offline.value;
      }
    }
    return Props("", "", []);
  }

  lemma {:induction false} AnswerIsLoaded(nodes: seq<Node>, target: Node, probe: Node -> Option<Props>, rank: nat)
    ensures var c := FirstOfRank(nodes, target, n => AnswersWithUnit(n, probe), rank);
            c.Some? ==> AnswersWithUnit(c.value, probe)
  {
    var k := FirstOfRankAt(nodes, target, n => AnswersWithUnit(n, probe), rank);
  }

  /** The answer is blank exactly when no other node answers anything; otherwise it is the
      answer of a node in the target's pool if any such node answers, and online if any such
      node of its scope is. */
  lemma ProbedInWords(nodes: seq<Node>, target: Node, probe: Node -> Option<Props>)
    ensures var props := PropsOf(Chosen(nodes, target, n => AnswersWithUnit(n, probe)), probe);
            var blank := Props("", "", []);
            if forall n :: n in nodes && n.id != target.id ==> probe(n).None? || probe(n) == Some(blank)
            then props == blank
            else exists c :: c in nodes && c.id != target.id && props != blank && probe(c) == Some(props)
                   && forall n :: n in nodes && n.id != target.id && probe(n).Some? && probe(n) != Some(blank) ==>
                        && (n.pool == target.pool ==> c.pool == target.pool)
                        && (n.online && (n.pool == target.pool <==> c.pool == target.pool) ==> c.online)
  {
    ChosenInWords(nodes, target, n => AnswersWithUnit(n, probe));
    var blank := Props("", "", []);
    forall n | n in nodes
      ensures AnswersWithUnit(n, probe) <==> probe(n).Some? && probe(n) != Some(blank)
    {
      assert probe(n).Some? ==> (probe(n).value.Loaded() <==> probe(n).value != blank);
    }
  }
}
