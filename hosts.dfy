/** The inventory projector: `extractIP`, `populateHosts` and `populateVars`. */
module Hosts {
  import opened Types
  import Servers

  const Active := "ACTIVE"
  const AnsibleUser := "ubuntu"
  const SshCommonArgs := "-o StrictHostKeyChecking=no"

  /** The address `extractIP` settles on: the last entry's address, which is an
      error when there is no entry or when that address is empty. */
  function ResolveAddress(ip: seq<Address>): Result<string> {
    if ip != [] && Last(ip).addr != "" then Success(Last(ip).addr) else Failure(NoAddressFound)
  }

  /** `extractIP`: walk the list keeping the latest address seen. */
  method ExtractIP(ip: seq<Address>) returns (r: Result<string>)
    ensures r.Success? <==> ip != [] && ip[|ip| - 1].addr != ""
    ensures r.Success? ==> r.value == ip[|ip| - 1].addr
    ensures r.Failure? ==> r.error == NoAddressFound
    ensures r == ResolveAddress(ip)
  {
    var addr := "";
    for i := 0 to |ip|
      invariant addr == if i == 0 then "" else ip[i - 1].addr
    {
      addr := ip[i].addr;
    }
    if addr == "" {
      return Failure(NoAddressFound);
    }
    return Success(addr);
  }

  /** Only the last entry matters: earlier non-empty addresses neither rescue an
      empty last address nor replace a non-empty one. */
  lemma {:induction false} EarlierAddressesIgnored(earlier: seq<Address>, last: Address)
    ensures ResolveAddress(earlier + [last]) == ResolveAddress([last])
  {
  }

  /** The host map `populateHosts` builds from `vms`, or the failure it panics
      with. Records are visited in order, so a later record with the same name
      overwrites an earlier one. */
  function Project(vms: seq<Vm>): (r: Result<map<string, AnsibleHost>>)
    ensures r.Success? ==> forall name :: name in r.value ==> r.value[name].hostname == name
    ensures r.Failure? ==> r.error == NoAddressFound
  {
    if vms == [] then Success(map[])
    else
      match Project(vms[..|vms| - 1])
      case Failure(e) => Failure(e)
      case Success(hosts) =>
        var s := Last(vms);
        if s.status != Active then Success(hosts)
        else
          match ResolveAddress(s.ipAddresses)
          case Failure(e) => Failure(e)
          case Success(ip) => Success(hosts[s.name := AnsibleHost(ip, s.name)])
  }

  /** `vms[i]` is ACTIVE and no later ACTIVE record carries the same name. */
  ghost predicate LastActiveNamed(vms: seq<Vm>, name: string, i: int) {
    && 0 <= i < |vms|
    && vms[i].status == Active
    && vms[i].name == name
    && forall j :: i < j < |vms| && vms[j].status == Active ==> vms[j].name != name
  }

  /** The names of the ACTIVE records. */
  ghost function ActiveNames(vms: seq<Vm>): set<string> {
    set i | 0 <= i < |vms| && vms[i].status == Active :: vms[i].name
  }

  /** Projection fails exactly when some ACTIVE record has no usable address;
      records with any other status never cause a failure. */
  lemma {:induction false} ProjectFailsIff(vms: seq<Vm>)
    ensures Project(vms).Failure? <==>
              exists i :: 0 <= i < |vms| && vms[i].status == Active &&
                          ResolveAddress(vms[i].ipAddresses).Failure?
  {
    if vms != [] {
      var init := vms[..|vms| - 1];
      ProjectFailsIff(init);
      assert forall i :: 0 <= i < |init| ==> init[i] == vms[i];
    }
  }

  /** The keys of a successful projection are exactly the names of the ACTIVE records. */
  lemma {:induction false} ProjectKeys(vms: seq<Vm>)
    requires Project(vms).Success?
    ensures Project(vms).value.Keys == ActiveNames(vms)
  {
    if vms != [] {
      var init := vms[..|vms| - 1];
      ProjectKeys(init);
      assert forall i :: 0 <= i < |init| ==> init[i] == vms[i];
      var s := Last(vms);
      if s.status == Active {
        assert ActiveNames(vms) == ActiveNames(init) + {s.name};
      } else {
        assert ActiveNames(vms) == ActiveNames(init);
      }
    }
  }

  /** Each host entry is the last ACTIVE record of that name: its address is the
      last address of that record and its hostname is the name itself. */
  lemma {:induction false} ProjectEntry(vms: seq<Vm>, name: string, i: int)
    requires Project(vms).Success?
    requires LastActiveNamed(vms, name, i)
    ensures name in Project(vms).value
    ensures vms[i].ipAddresses != []
    ensures Project(vms).value[name] == AnsibleHost(Last(vms[i].ipAddresses).addr, name)
  {
    var init := vms[..|vms| - 1];
    assert forall k :: 0 <= k < |init| ==> init[k] == vms[k];
    if i < |vms| - 1 {
      ProjectEntry(init, name, i);
    }
  }

  /** A record whose status is not ACTIVE can be dropped without changing the
      outcome, whatever its addresses. */
  lemma {:induction false} InactiveRecordIgnored(before: seq<Vm>, s: Vm, after: seq<Vm>)
    requires s.status != Active
    ensures Project(before + [s] + after) == Project(before + after)
  {
    if after == [] {
      assert (before + [s] + after)[..|before| + 1 - 1] == before;
      assert before + after == before;
    } else {
      var init := after[..|after| - 1];
      InactiveRecordIgnored(before, s, init);
      assert (before + [s] + after)[..|before + [s] + after| - 1] == before + [s] + init;
      assert (before + after)[..|before + after| - 1] == before + init;
    }
  }

  /** `populateHosts`: the projected host map with the variables still at their
      zero value, or the failure it panics with. */
  method PopulateHosts(vms: seq<Vm>) returns (r: Result<Inventory>)
    ensures r.Success? <==> Project(vms).Success?
    ensures r.Success? ==> r.value == Inventory(Project(vms).value, NoVars)
    ensures r.Failure? ==> r.error == NoAddressFound
  {
    var hosts: map<string, AnsibleHost> := map[];
    for i := 0 to |vms|
      invariant Project(vms[..i]) == Success(hosts)
    {
      assert vms[..i + 1][..i] == vms[..i];
      var s := vms[i];
      if s.status == Active {
        var ip := ExtractIP(s.ipAddresses);
        if ip.Failure? {
          ProjectFailsIff(vms);
          return Failure(ip.error);
        }
        hosts := hosts[s.name := AnsibleHost(ip.value, s.name)];
      }
    }
    assert vms[..|vms|] == vms;
    return Success(Inventory(hosts, NoVars));
  }

  /** `populateVars`: attach the fixed connection variables, keep the hosts, and
      never fail. */
  function PopulateVars(inventory: Inventory): (r: Result<Inventory>)
    ensures r.Success?
    ensures r.value.hosts == inventory.hosts
    ensures r.value.vars == AnsibleVars("ubuntu", "-o StrictHostKeyChecking=no")
  {
    Success(inventory.(vars := AnsibleVars(AnsibleUser, SshCommonArgs)))
  }

  /** The host map of the worked example: two ACTIVE instances, the second with
      two addresses, and one instance in another state. */
  lemma ProjectExample()
    ensures
      var web1 := Vm("1", "web1", "p", [Address("", "fixed", "10.0.0.5", 4)], "ACTIVE");
      var web2 := Vm("2", "web2", "p", [Address("", "fixed", "10.0.0.6", 4), Address("", "fixed", "10.0.0.7", 4)], "ACTIVE");
      var db1 := Vm("3", "db1", "p", [], "SHUTOFF");
      Project([web1, web2, db1]) ==
        Success(map["web1" := AnsibleHost("10.0.0.5", "web1"), "web2" := AnsibleHost("10.0.0.7", "web2")])
  {
    var web1 := Vm("1", "web1", "p", [Address("", "fixed", "10.0.0.5", 4)], "ACTIVE");
    var web2 := Vm("2", "web2", "p", [Address("", "fixed", "10.0.0.6", 4), Address("", "fixed", "10.0.0.7", 4)], "ACTIVE");
    var db1 := Vm("3", "db1", "p", [], "SHUTOFF");
    assert [web1][..0] == [];
    assert Project([web1]) == Success(map["web1" := AnsibleHost("10.0.0.5", "web1")]);
    assert [web1, web2][..1] == [web1];
    assert Project([web1, web2]) ==
      Success(map["web1" := AnsibleHost("10.0.0.5", "web1"), "web2" := AnsibleHost("10.0.0.7", "web2")]);
    assert [web1, web2, db1][..2] == [web1, web2];
  }

  /** Because the normalised record is reused, the host entry of an ACTIVE server
      is the last address of the last network of the nearest server at or before
      it that has any network, even when that is another server. */
  lemma {:induction false} CarriedAddressInInventory(servers: seq<RawServer>, name: string, i: int, j: int)
    requires 0 <= j <= i < |servers|
    requires Project(Servers.Normalise(servers)).Success?
    requires LastActiveNamed(Servers.Normalise(servers), name, i)
    requires servers[j].networks != [] && Last(servers[j].networks) != []
    requires forall k :: j < k <= i ==> servers[k].networks == []
    ensures name in Project(Servers.Normalise(servers)).value
    ensures Project(Servers.Normalise(servers)).value[name].hostIp == Last(Last(servers[j].networks)).addr
  {
    Servers.AddressesFromNearestNetworkedServer(servers, i, j);
    ProjectEntry(Servers.Normalise(servers), name, i);
  }

  /** Worked example: an ACTIVE server listed without any network after a server
      with one address is reported with that address instead of failing. */
  lemma CarriedAddressReachesInventory()
    ensures
      var a := RawServer("1", "a", "p", "ACTIVE", [[Address("", "fixed", "10.0.0.5", 4)]]);
      var b := RawServer("2", "b", "p", "ACTIVE", []);
      Project(Servers.Normalise([a, b])) ==
        Success(map["a" := AnsibleHost("10.0.0.5", "a"), "b" := AnsibleHost("10.0.0.5", "b")])
  {
    var a := RawServer("1", "a", "p", "ACTIVE", [[Address("", "fixed", "10.0.0.5", 4)]]);
    var b := RawServer("2", "b", "p", "ACTIVE", []);
    var vms := Servers.Normalise([a, b]);
    assert vms[0] == Vm("1", "a", "p", [Address("", "fixed", "10.0.0.5", 4)], "ACTIVE");
    assert vms[1] == Vm("2", "b", "p", [Address("", "fixed", "10.0.0.5", 4)], "ACTIVE");
    assert vms == [vms[0], vms[1]];
    assert [vms[0]][..0] == [];
    assert Project([vms[0]]) == Success(map["a" := AnsibleHost("10.0.0.5", "a")]);
    assert vms[..1] == [vms[0]];
  }
}
