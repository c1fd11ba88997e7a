/** The normalisation loop of `populateServers`: each raw server becomes one
    `vms` record. A single record is reused for every server, so its address
    list is overwritten by each network (the last network wins) and is carried
    over unchanged to a server that has no networks at all. */
module Servers {
  import opened Types

  /** The record emitted for `server` when the reused record held `carried`
      as its address list before this server was visited. */
  function NormaliseOne(server: RawServer, carried: seq<Address>): Vm {
    Vm(server.id, server.name, server.tenantId,
       if server.networks == [] then carried else Last(server.networks),
       server.status)
  }

  /** The records emitted for `servers`: one per server, in input order, with the
      identity fields copied; the address list is the server's last network's
      list, or, for a server without networks, the previous record's list
      (empty for the first record). */
  function Normalise(servers: seq<RawServer>): (vms: seq<Vm>)
    ensures |vms| == |servers|
    ensures forall i :: 0 <= i < |servers| ==>
              && vms[i].uuid == servers[i].id
              && vms[i].name == servers[i].name
              && vms[i].projectId == servers[i].tenantId
              && vms[i].status == servers[i].status
    ensures forall i :: 0 <= i < |servers| && servers[i].networks != [] ==>
              vms[i].ipAddresses == Last(servers[i].networks)
    ensures forall i :: 0 < i < |servers| && servers[i].networks == [] ==>
              vms[i].ipAddresses == vms[i - 1].ipAddresses
    ensures |servers| > 0 && servers[0].networks == [] ==> vms[0].ipAddresses == []
  {
    if servers == [] then []
    else
      var init := Normalise(servers[..|servers| - 1]);
      var carried := if init == [] then [] else Last(init).ipAddresses;
      init + [NormaliseOne(Last(servers), carried)]
  }

  /** A server's address list comes from the nearest server at or before it that
      has any network: the last network of that server, or [] when none has. */
  lemma {:induction false} AddressesFromNearestNetworkedServer(servers: seq<RawServer>, i: int, j: int)
    requires 0 <= j <= i < |servers|
    requires servers[j].networks != []
    requires forall k :: j < k <= i ==> servers[k].networks == []
    ensures Normalise(servers)[i].ipAddresses == Last(servers[j].networks)
  {
    if i > j {
      AddressesFromNearestNetworkedServer(servers, i - 1, j);
    }
  }

  /** With no networked server at or before `i`, the address list is still empty. */
  lemma {:induction false} NoNetworkedServerYet(servers: seq<RawServer>, i: int)
    requires 0 <= i < |servers|
    requires forall k :: 0 <= k <= i ==> servers[k].networks == []
    ensures Normalise(servers)[i].ipAddresses == []
  {
    if i > 0 {
      NoNetworkedServerYet(servers, i - 1);
    }
  }

  /** The loop of `populateServers` over the already-listed servers. */
  method PopulateServers(allServers: seq<RawServer>) returns (osServers: seq<Vm>)
    ensures osServers == Normalise(allServers)
  {
    osServers := [];
    var s := Vm("", "", "", [], "");
    for n := 0 to |allServers|
      invariant osServers == Normalise(allServers[..n])
      invariant n == 0 ==> s.ipAddresses == []
      invariant n > 0 ==> s == Last(osServers)
    {
      var server := allServers[n];
      s := s.(uuid := server.id, name := server.name, projectId := server.tenantId, status := server.status);
      ghost var carried := s.ipAddresses;
      for j := 0 to |server.networks|
        invariant s.ipAddresses == if j == 0 then carried else server.networks[j - 1]
        invariant s == Vm(server.id, server.name, server.tenantId, s.ipAddresses, server.status)
      {
        s := s.(ipAddresses := server.networks[j]);
      }
      assert allServers[..n + 1][..n] == allServers[..n];
      osServers := osServers + [s];
    }
    assert allServers[..|allServers|] == allServers;
  }
}
