/** Records shared by every stage of the inventory generator: the provider's raw
    server listing, the normalised `vms` record, and the inventory that is
    finally serialised. */
module Types {

  /** The two fatal conditions of the modelled core: `log.Fatalf` on a missing
      environment variable, and the `panic` when an active instance has no address. */
  datatype Error = MissingEnvVar(name: string) | NoAddressFound

  datatype Result<T> = Success(value: T) | Failure(error: Error)

  /** One entry of a network's address list (`OsAddresses` element). */
  datatype Address = Address(macAddr: string, ipType: string, addr: string, version: int)

  /** A server as the compute SDK returns it, already decoded. `networks` holds one
      address list per network, in the (unspecified) order in which the Go map
      `server.Addresses` is iterated. */
  datatype RawServer = RawServer(
    id: string,
    name: string,
    tenantId: string,
    status: string,
    networks: seq<seq<Address>>)

  /** The normalised instance record (`vms`). */
  datatype Vm = Vm(
    uuid: string,
    name: string,
    projectId: string,
    ipAddresses: seq<Address>,
    status: string)

  /** One inventory host (`Ansiblehost`). */
  datatype AnsibleHost = AnsibleHost(hostIp: string, hostname: string)

  /** The connection variables of the inventory (`Ansiblevars`). */
  datatype AnsibleVars = AnsibleVars(ansibleUser: string, ansibleSshCommonArgs: string)

  /** The inventory under its top-level `all` key (`AllHosts.All`). */
  datatype Inventory = Inventory(hosts: map<string, AnsibleHost>, vars: AnsibleVars)

  /** The zero value of `Ansiblevars`, which `populateHosts` leaves in place. */
  const NoVars := AnsibleVars("", "")

  /** The last element of a non-empty sequence. */
  function Last<T>(s: seq<T>): T
    requires s != []
  {
    s[|s| - 1]
  }
}
