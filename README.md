# OpenStack-Ansible-Inventory: a verified model of the inventory pipeline

The program lists the VM instances of an OpenStack project and writes an Ansible
inventory. It can also write a shell script that clears stale `known_hosts`
entries. This project models the logic between the cloud SDK and the files it
writes, following `main.go`:

- `startup` checks the configuration (`startup.dfy`). The process environment is an
  explicit `map<string, string>`; an unset variable reads as `""`, as with
  `os.Getenv`. The OS_DOMAIN_NAME shim runs first. The eleven required variables are
  then scanned in list order. The first empty one ends the run with
  `MissingEnvVar(name)`, which models `log.Fatalf`.
- The normalisation loop of `populateServers` (`servers.dfy`) turns each listed
  server into a `vms` record. A single record is reused for every server. Its
  address list is overwritten by each network, so the last network wins. A server
  with no networks keeps the previous server's list.
- `extractIP`, `populateHosts` and `populateVars` (`hosts.dfy`). The `panic` on an
  ACTIVE instance without an address is the result `Failure(NoAddressFound)`.
- The text of the reset script from `createSSHResetScript` (`reset_script.dfy`).
  Go visits the host map in an unspecified order. So the method promises the script
  of *some* enumeration of the map's keys. Any two enumerations give the same
  multiset of lines.

Each loop of the source is a `method` with loop invariants. Each method is proved
against a specification function: `Normalise`, `ResolveAddress`, `Project`,
`Script`, or `DomainShim` with the first-missing predicate. The lemmas state what
the program promises about those functions.

Three behaviours of `main.go` that are easy to misread, and that the model keeps
as written:

- `extractIP` (main.go:195-199) keeps only the last `Addr` of the list. It fails
  whenever that last address is empty, even when an earlier entry has a non-empty
  one.
- The `ssh-keygen -R` arguments written by `createSSHResetScript` (main.go:255-261)
  are not quoted, although the format comment above the function
  (main.go:246-248) shows them in double quotes.
- `populateHosts` does not reject duplicate instance names: the assignment at
  main.go:222 lets the later ACTIVE record overwrite the earlier one.

A consequence of the check order, proved as a postcondition of `Startup.Startup`:
the run can never fail naming OS_DOMAIN_NAME. OS_USER_DOMAIN_NAME is checked
earlier in the list, and the shim copies it whenever it is set.

## Model

| member | source | states |
|---|---|---|
| `Startup.DomainShim` | main.go:84-87 | OS_DOMAIN_NAME becomes OS_USER_DOMAIN_NAME when the domain name was empty or the user domain name is set. Otherwise the environment is unchanged. No other variable is ever affected. |
| `Startup.ShimmedDomainMissing` | main.go:85-87 | After the shim, OS_DOMAIN_NAME is empty exactly when both domain variables were empty. |
| `Startup.Startup` | main.go:67-94 | Success exactly when every required variable is non-empty after the shim; the shimmed environment is returned. Otherwise the error names the first required variable, in list order, that is empty. That name is never OS_DOMAIN_NAME. |
| `Servers.Normalise` | main.go:160-183 | One record per server, in input order. ID, name, tenant and status are copied. The address list is the last network's list. A server with no networks repeats the previous record's list, or gets `[]` if it is first. |
| `Servers.AddressesFromNearestNetworkedServer` | main.go:160-183 | A record's address list is the last network's list of the nearest server at or before it that has any network. |
| `Servers.NoNetworkedServerYet` | main.go:160-183 | If no server up to and including this one has a network, the record's address list is empty. |
| `Servers.PopulateServers` | main.go:160-183 | The loop with the reused record `s` and its inner loop over networks produces exactly `Normalise` of the servers. |
| `Hosts.ExtractIP` | main.go:193-205 | Succeeds exactly when the list is non-empty and its last `Addr` is non-empty, and then returns that last `Addr`. Otherwise it returns the "no address" error. |
| `Hosts.EarlierAddressesIgnored` | main.go:194-203 | Only the last entry decides the result. An earlier non-empty address neither prevents the error nor replaces the last address. |
| `Hosts.Project` | main.go:208-227 | In a successful projection every host's `Hostname` equals its key. The only failure is "no address". |
| `Hosts.ProjectFailsIff` | main.go:213-218 | Projection fails if and only if some ACTIVE record has no usable address. Inactive records never cause a failure. |
| `Hosts.ProjectKeys` | main.go:211-224 | The keys of the host map are exactly the names of the records whose status is exactly "ACTIVE". |
| `Hosts.ProjectEntry` | main.go:215-222 | The entry for a name comes from the last ACTIVE record with that name. `HostIp` is that record's last address and `Hostname` is the name. Later duplicates overwrite earlier ones. |
| `Hosts.InactiveRecordIgnored` | main.go:213-214 | Inserting a record whose status is not "ACTIVE" anywhere in the input does not change the outcome, whatever its addresses. |
| `Hosts.PopulateHosts` | main.go:208-227 | The loop returns the projected host map with zero-valued vars. It fails with "no address" exactly when the projection fails. |
| `Hosts.PopulateVars` | main.go:231-236 | Always succeeds. Sets `ansible_user` to "ubuntu" and `ansible_ssh_common_args` to "-o StrictHostKeyChecking=no". Leaves the host map unchanged. |
| `Hosts.ProjectExample` | main.go:208-227 | Worked example: web1 (one address) and web2 (two addresses) are ACTIVE, db1 is SHUTOFF. The map holds web1 → 10.0.0.5 and web2 → 10.0.0.7. db1 is absent. |
| `Hosts.CarriedAddressInInventory` | main.go:160-222 | When the projection succeeds, the host entry of the last ACTIVE server with a given name has as its `HostIp` the last address of the last network of the nearest server at or before it that has any network, even when that is another server. |
| `Hosts.CarriedAddressReachesInventory` | main.go:160-224 | Worked example: server a (ACTIVE, one network with 10.0.0.5) is followed by server b (ACTIVE, no networks). The inventory maps both a and b to 10.0.0.5 instead of failing. |
| `ResetScript.ScriptLines` | main.go:255-262 | Two lines per enumerated host. |
| `ResetScript.ScriptStep` | main.go:255-262 | Visiting one more host appends its address line, then its name line, to the script. |
| `ResetScript.ScriptLineAt` | main.go:255-262 | For the i-th host, line 2i removes its `HostIp`. Line 2i+1 removes its `Hostname`, or `Hostname + "." + domain` when the domain is non-empty. |
| `ResetScript.CreateSSHResetScript` | main.go:251-262 | The built text is the shebang followed by the lines of some order that lists every host key exactly once. |
| `ResetScript.ScriptOrderIndependent` | main.go:255-262 | Any two such orders give the same multiset of lines. |
| `ResetScript.ScriptLineCount` | main.go:252-262 | When no address, hostname or domain contains a line break, the script has exactly 1 + 2·&#124;hosts&#124; lines. |
| `ResetScript.ScriptExample` | main.go:252-262 | Worked example: one host web1 / 10.0.0.5 with domain example.com. The script is the shebang, the line removing 10.0.0.5, and the line removing web1.example.com. |

## Left out

- Authentication and client setup (`osAuth`, `AuthOptionsFromEnv`, `AuthenticatedClient`, `NewComputeV2`, `servers.List(...).AllPages()`, `ExtractServers`, main.go:96-158). These are SDK and network calls. Their output is the input sequence of `RawServer` values, and their failures are not modelled.
- The JSON marshal/unmarshal of each network's addresses (main.go:169-177). Addresses arrive already decoded. A decode failure, which the program only prints, is not modelled.
- `yaml.Marshal` and the nesting of the inventory under the `all` key. `Inventory` is the content of `AllHosts.All`; serialisation is an external library.
- File writes, file modes, `fmt.Println` output, the DEBUG and SSH_RESET flag checks and the rest of `main` (main.go:264-309). These are I/O and process exit; only the script's text is modelled.
- Go map iteration order. A server's networks are a sequence in some order. The host map's order is left open by an existential enumeration in `ResetScript.CreateSSHResetScript`.
- Startup.Startup: the environment is passed in and returned as a value. `os.Setenv` changing the global process environment is not modelled as shared state.
