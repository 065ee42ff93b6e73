/**
 * The lookups and the grouping by server type over the loaded game server
 * configuration (framework/game/config.go).
 */
module GameConfig {
  import opened Optional

  /** One backend server entry of the servers configuration. */
  datatype ServersConfig = ServersConfig(id: string, serverType: string, handleTimeOut: int, rpcTimeOut: int, maxRunRoutineNum: int)

  /** One connector (front-end) entry. */
  datatype ConnectorConfig = ConnectorConfig(id: string, host: string, clientPort: int, frontend: bool, serverType: string)

  /**
   * The servers configuration. `typeServer` is None while the map is nil; a
   * type that is absent from the map reads as the empty list.
   */
  datatype ServersConf = ServersConf(natsUrl: string, connector: seq<ConnectorConfig>, servers: seq<ServersConfig>,
                                     typeServer: Option<map<string, seq<ServersConfig>>>)

  /** The list stored under type `t`, or the empty list when there is none. */
  function ListOf(m: map<string, seq<ServersConfig>>, t: string): seq<ServersConfig> {
    if t in m then m[t] else []
  }

  /** `m` after appending server `v` to the list of its type. */
  function AddServer(m: map<string, seq<ServersConfig>>, v: ServersConfig): map<string, seq<ServersConfig>> {
    m[v.serverType := ListOf(m, v.serverType) + [v]]
  }

  /** `m` after appending every server of `servers` to the list of its type, in order. */
  function Grouped(m: map<string, seq<ServersConfig>>, servers: seq<ServersConfig>): map<string, seq<ServersConfig>> {
    if servers == [] then m
    else
      var n := |servers| - 1;
      AddServer(Grouped(m, servers[..n]), servers[n])
  }

  /** The servers of type `t`, in order. */
  function OfType(servers: seq<ServersConfig>, t: string): (r: seq<ServersConfig>)
    ensures forall v :: v in r ==> v in servers && v.serverType == t
  {
    if servers == [] then []
    else
      var n := |servers| - 1;
      OfType(servers[..n], t) + (if servers[n].serverType == t then [servers[n]] else [])
  }

  /** The types that occur in `servers`. */
  function TypesOf(servers: seq<ServersConfig>): set<string> {
    set i | 0 <= i < |servers| :: servers[i].serverType
  }

  /** The number of servers held over all the lists of the map. */
  ghost function Total(m: map<string, seq<ServersConfig>>): nat
    decreases |m|
  {
    if m == map[] then 0
    else
      var t :| t in m;
      |m[t]| + Total(m - {t})
  }

  /** Total may count any one key first. */
  lemma {:induction false} TotalWithout(m: map<string, seq<ServersConfig>>, t: string)
    requires t in m
    ensures Total(m) == |m[t]| + Total(m - {t})
    decreases |m|
  {
    var u :| u in m && Total(m) == |m[u]| + Total(m - {u});
    if u != t {
      assert |m - {u}| == |m| - 1 && |m - {t}| == |m| - 1;
      TotalWithout(m - {u}, t);
      TotalWithout(m - {t}, u);
      assert m - {u} - {t} == m - {t} - {u};
    }
  }

  /** Adding one server adds one to the total. */
  lemma AddServerTotal(m: map<string, seq<ServersConfig>>, v: ServersConfig)
    ensures Total(AddServer(m, v)) == Total(m) + 1
  {
    var t := v.serverType;
    var m' := AddServer(m, v);
    TotalWithout(m', t);
    assert m' - {t} == m - {t};
    if t in m {
      TotalWithout(m, t);
    } else {
      assert m - {t} == m;
    }
  }

  /**
   * After grouping, every type's list is its old list (empty if absent) followed
   * by the servers of that type, in order.
   */
  lemma {:induction false} GroupedLists(m: map<string, seq<ServersConfig>>, servers: seq<ServersConfig>, t: string)
    ensures ListOf(Grouped(m, servers), t) == ListOf(m, t) + OfType(servers, t)
    decreases |servers|
  {
    if servers != [] {
      var n := |servers| - 1;
      GroupedLists(m, servers[..n], t);
    }
  }

  /**
   * Grouping never removes a type: the keys afterwards are the old keys and the
   * types that occur in the servers; a type that does not occur keeps its old list.
   */
  lemma {:induction false} GroupedKeys(m: map<string, seq<ServersConfig>>, servers: seq<ServersConfig>)
    ensures Grouped(m, servers).Keys == m.Keys + TypesOf(servers)
    ensures forall t :: t in m && t !in TypesOf(servers) ==> Grouped(m, servers)[t] == m[t]
    decreases |servers|
  {
    if servers != [] {
      var n := |servers| - 1;
      GroupedKeys(m, servers[..n]);
      assert TypesOf(servers) == TypesOf(servers[..n]) + {servers[n].serverType} by {
        forall t | t in TypesOf(servers) ensures t in TypesOf(servers[..n]) + {servers[n].serverType} {
          var i :| 0 <= i < |servers| && servers[i].serverType == t;
          if i < n {
            assert servers[..n][i] == servers[i];
          }
        }
        forall t | t in TypesOf(servers[..n]) ensures t in TypesOf(servers) {
          var i :| 0 <= i < n && servers[..n][i].serverType == t;
          assert servers[i] == servers[..n][i];
        }
      }
    }
  }

  /** Grouping adds exactly one entry per server to the total. */
  lemma {:induction false} GroupedTotal(m: map<string, seq<ServersConfig>>, servers: seq<ServersConfig>)
    ensures Total(Grouped(m, servers)) == Total(m) + |servers|
    decreases |servers|
  {
    if servers != [] {
      var n := |servers| - 1;
      GroupedTotal(m, servers[..n]);
      AddServerTotal(Grouped(m, servers[..n]), servers[n]);
    }
  }

  /** Grouping the same non-empty servers twice is not grouping them once: the operation is not idempotent. */
  lemma GroupedNotIdempotent(m: map<string, seq<ServersConfig>>, servers: seq<ServersConfig>)
    requires servers != []
    ensures Grouped(Grouped(m, servers), servers) != Grouped(m, servers)
  {
    GroupedTotal(m, servers);
    GroupedTotal(Grouped(m, servers), servers);
  }

  /** The loaded configuration (the package-level Conf); the game config values are not modelled. */
  class Config {
    var serversConf: ServersConf

    constructor (serversConf: ServersConf)
      ensures this.serversConf == serversConf
    {
      this.serversConf := serversConf;
    }

    /** The first connector whose id is `serverId`, or None (nil) when no connector has it. */
    method GetConnector(serverId: string) returns (c: Option<ConnectorConfig>)
      ensures c.None? <==> forall i :: 0 <= i < |serversConf.connector| ==> serversConf.connector[i].id != serverId
      ensures c.Some? ==> exists i :: 0 <= i < |serversConf.connector| && serversConf.connector[i] == c.value
                                      && c.value.id == serverId
                                      && forall j :: 0 <= j < i ==> serversConf.connector[j].id != serverId
    {
      var connector := serversConf.connector;
      for i := 0 to |connector|
        invariant forall j :: 0 <= j < i ==> connector[j].id != serverId
      {
        if connector[i].id == serverId {
          return Some(connector[i]);
        }
      }
      return None;
    }

    /** The first connector whose server type is `serverType`, or None (nil) when no connector has it. */
    method GetConnectorByServerType(serverType: string) returns (c: Option<ConnectorConfig>)
      ensures c.None? <==> forall i :: 0 <= i < |serversConf.connector| ==> serversConf.connector[i].serverType != serverType
      ensures c.Some? ==> exists i :: 0 <= i < |serversConf.connector| && serversConf.connector[i] == c.value
                                      && c.value.serverType == serverType
                                      && forall j :: 0 <= j < i ==> serversConf.connector[j].serverType != serverType
    {
      var connector := serversConf.connector;
      for i := 0 to |connector|
        invariant forall j :: 0 <= j < i ==> connector[j].serverType != serverType
      {
        if connector[i].serverType == serverType {
          return Some(connector[i]);
        }
      }
      return None;
    }

    /**
     * typeServerConfig: with no servers, nothing changes (a nil map stays nil);
     * otherwise the map is created if nil and every server is appended to the
     * list of its type, keeping what the map already held.
     */
    method TypeServerConfig()
      modifies this
      ensures old(serversConf.servers) == [] ==> serversConf == old(serversConf)
      ensures old(serversConf.servers) != [] ==>
                serversConf == old(serversConf).(typeServer := Some(Grouped(old(serversConf.typeServer).GetOr(map[]), old(serversConf.servers))))
    {
      if |serversConf.servers| > 0 {
        if serversConf.typeServer.None? {
          serversConf := serversConf.(typeServer := Some(map[]));
        }
        ghost var start := serversConf.typeServer.value;
        var servers := serversConf.servers;
        for i := 0 to |servers|
          invariant serversConf == old(serversConf).(typeServer := Some(Grouped(start, servers[..i])))
        {
          assert servers[..i + 1][..i] == servers[..i];
          var v := servers[i];
          var typeServer := serversConf.typeServer.value;
          serversConf := serversConf.(typeServer := Some(typeServer[v.serverType := ListOf(typeServer, v.serverType) + [v]]));
        }
        assert servers[..|servers|] == servers;
      }
    }
  }
}
