/** Which hosts a cutover attempts (internal/migration/executor.go:208-246). */
module Partition {
  import opened Text

  datatype HostRow = HostRow(id: string, hostname: string)

  /** A server of the fresh status reply, with the host of its endpoint. */
  datatype Server = Server(host: string, online: bool)

  datatype Result =
    | NoneOnline
    | Split(attempted: seq<HostRow>, skipped: set<string>)

  /** The names the reply reports online, in lower case. */
  ghost function OnlineNames(servers: seq<Server>, lower: string -> string): set<string> {
    set i | 0 <= i < |servers| && servers[i].online && servers[i].host != "" :: lower(servers[i].host)
  }

  function Attempted(hosts: seq<HostRow>, online: set<string>, lower: string -> string): seq<HostRow> {
    if hosts == [] then []
    else
      Attempted(hosts[..|hosts| - 1], online, lower)
      + if lower(hosts[|hosts| - 1].hostname) in online then [hosts[|hosts| - 1]] else []
  }

  predicate DistinctIds(hosts: seq<HostRow>) {
    forall i, j :: 0 <= i < j < |hosts| ==> hosts[i].id != hosts[j].id
  }

  /** `partitionHosts`; `status` is None when the reply could not be had, and then every
      host is attempted. */
  method PartitionHosts(hosts: seq<HostRow>, status: Option<seq<Server>>, lower: string -> string)
    returns (r: Result)
    ensures status.None? ==> r == Split(hosts, {})
    ensures status.Some? ==> (r.NoneOnline? <==> OnlineNames(status.value, lower) == {})
    ensures status.Some? && r.Split? ==>
              && r.attempted == Attempted(hosts, OnlineNames(status.value, lower), lower)
              && r.skipped == set i | 0 <= i < |hosts|
                                   && lower(hosts[i].hostname) !in OnlineNames(status.value, lower) :: hosts[i].id
  {
    if status.None? {
      return Split(hosts, {});
    }
    var servers := status.value;
    var online := {};
    for i := 0 to |servers|
      invariant online == OnlineNames(servers[..i], lower)
    {
      assert servers[..i + 1] == servers[..i] + [servers[i]];
      NamesSnoc(servers[..i], servers[i], lower);
      if servers[i].online && servers[i].host != "" {
        online := online + {lower(servers[i].host)};
      }
    }
    assert servers[..|servers|] == servers;
    if online == {} {
      return NoneOnline;
    }
    var attempted, skipped := [], {};
    for i := 0 to |hosts|
      invariant attempted == Attempted(hosts[..i], online, lower)
      invariant skipped == set j | 0 <= j < i && lower(hosts[j].hostname) !in online :: hosts[j].id
    {
      assert hosts[..i + 1][..i] == hosts[..i];
      if lower(hosts[i].hostname) in online {
        attempted := attempted + [hosts[i]];
      } else {
        skipped := skipped + {hosts[i].id};
      }
    }
    assert hosts[..|hosts|] == hosts;
    r := Split(attempted, skipped);
  }

  lemma NamesSnoc(servers: seq<Server>, s: Server, lower: string -> string)
    ensures OnlineNames(servers + [s], lower) ==
            OnlineNames(servers, lower) + if s.online && s.host != "" then {lower(s.host)} else {}
  {
    var all := servers + [s];
    assert all[|servers|] == s && forall i :: 0 <= i < |servers| ==> all[i] == servers[i];
    if s.online && s.host != "" {
      assert lower(all[|servers|].host) in OnlineNames(all, lower);
    }
    forall n | n in OnlineNames(servers, lower)
      ensures n in OnlineNames(all, lower)
    {
      var i :| 0 <= i < |servers| && servers[i].online && servers[i].host != "" && lower(servers[i].host) == n;
      assert lower(all[i].host) in OnlineNames(all, lower);
    }
  }

  /** Attempted hosts are exactly the online ones, in order, with distinct ids when the
      requested hosts have them. */
  lemma {:induction false} AttemptedAreOnline(hosts: seq<HostRow>, online: set<string>, lower: string -> string)
    ensures var a := Attempted(hosts, online, lower);
            && (forall h :: h in a <==> h in hosts && lower(h.hostname) in online)
            && (DistinctIds(hosts) ==> DistinctIds(a))
  {
    if hosts != [] {
      var front, last := hosts[..|hosts| - 1], hosts[|hosts| - 1];
      AttemptedAreOnline(front, online, lower);
      assert hosts == front + [last];
      if DistinctIds(hosts) {
        assert DistinctIds(front) && forall i :: 0 <= i < |front| ==> hosts[i] == front[i] && front[i].id != last.id;
        var a := Attempted(front, online, lower);
        forall i | 0 <= i < |a|
          ensures a[i].id != last.id
        {
          assert a[i] in front;
        }
      }
    }
  }
}
