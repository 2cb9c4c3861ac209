/**
 * internal/server/server.go: the identity of a booting host and the table of hosts that
 * are waiting for a manual boot target, keyed by MAC address.
 */
module Server {
  import Text
  import opened Utils

  /** The dummy target of a host that is still waiting for a user selection. */
  const InitTarget := "NOTARGET"

  /** Seconds of inactivity after which the cleaner forgets a host (3 minutes). */
  const ExpireAfterSec := 3 * 60

  /** The data that identifies a server. */
  datatype Server = Server(mac: string, ip: string, hostname: string)

  /** A slice of servers, as sorted for the server list. */
  type Servers = seq<Server>

  /** A Server holding exactly the given MAC, IP and hostname. */
  function New(mac: string, ip: string, hostname: string): (r: Server)
    ensures r.mac == mac && r.ip == ip && r.hostname == hostname
  {
    Server(mac, ip, hostname)
  }

  /** The sort key of a server. */
  function MacOf(s: Server): string { s.mac }

  /** sort.Interface Less: order by MAC string. */
  function Less(s: Servers, i: int, j: int): bool
    requires 0 <= i < |s| && 0 <= j < |s|
  {
    Text.Less(s[i].mac, s[j].mac)
  }

  /** Less is a strict order, total over servers with different MACs. */
  lemma LessIsStrictOrder(s: Servers, i: int, j: int, k: int)
    requires 0 <= i < |s| && 0 <= j < |s| && 0 <= k < |s|
    ensures !Less(s, i, i)
    ensures Less(s, i, j) && Less(s, j, k) ==> Less(s, i, k)
    ensures s[i].mac != s[j].mac ==> Less(s, i, j) || Less(s, j, i)
  {
    Text.LessIrreflexive(s[i].mac);
    if Less(s, i, j) && Less(s, j, k) {
      Text.LessTransitive(s[i].mac, s[j].mac, s[k].mac);
    }
    if s[i].mac != s[j].mac {
      Text.LessTotal(s[i].mac, s[j].mac);
    }
  }

  /** sort.Interface Swap: exchanges positions i and j and nothing else. */
  method Swap(s: array<Server>, i: int, j: int)
    requires 0 <= i < s.Length && 0 <= j < s.Length
    modifies s
    ensures s[..] == old(s[..])[i := old(s[j])][j := old(s[i])]
  {
    s[i], s[j] := s[j], s[i];
  }

  /** What the server keeps about a host that polls without an automatic match. */
  datatype State = State(
    server: Server,
    target: string,
    environment: string,
    params: Params,
    retry: int,
    lastAccess: int)

  /** The table of booting hosts (`States` with its `Servers` map). */
  class States {
    var servers: map<string, State>

    /** Every entry is stored under its own server's MAC. */
    ghost predicate Valid()
      reads this
    {
      forall mac :: mac in servers ==> servers[mac].server.mac == mac
    }

    constructor ()
      ensures Valid() && servers == map[]
    {
      servers := map[];
    }

    /** Inserts (or replaces) the entry of server.mac as a fresh, unassigned host. */
    method AddServer(server: Server, now: int)
      requires Valid()
      modifies this
      ensures Valid()
      ensures servers == old(servers)[server.mac := State(server, InitTarget, "", map[], 1, now)]
    {
      servers := servers[server.mac := State(server, InitTarget, "", map[], 1, now)];
    }

    /** Removes the entry of mac, if any, and nothing else. */
    method DeleteServer(mac: string)
      requires Valid()
      modifies this
      ensures Valid()
      ensures servers == old(servers) - {mac}
    {
      servers := servers - {mac};
    }

    /**
     * One sweep of the state cleaner at clock reading `now` (Unix seconds): forgets
     * every host whose last access is at least ExpireAfterSec old.
     */
    method CleanExpired(now: int)
      requires Valid()
      modifies this
      ensures Valid()
      ensures servers == map mac | mac in old(servers) && old(servers)[mac].lastAccess > now - ExpireAfterSec
                               :: old(servers)[mac]
    {
      var expire := now - ExpireAfterSec;
      var pending := servers.Keys;
      while pending != {}
        invariant pending <= old(servers).Keys
        invariant Valid()
        invariant forall mac :: mac in servers <==>
          mac in old(servers) && (mac in pending || old(servers)[mac].lastAccess > expire)
        invariant forall mac :: mac in servers ==> servers[mac] == old(servers)[mac]
        decreases pending
      {
        var mac :| mac in pending;
        if servers[mac].lastAccess <= expire {
          servers := servers - {mac};
        }
        pending := pending - {mac};
      }
    }
  }
}
