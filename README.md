# sc-redis launcher core, in Dafny

sc-redis runs one redis server inside a Linux container. Its helpers lease a
host id from a pool kept in `/etc/scredis_ips.json` and release it again.
They also write a `container.json` that says which namespaces, devices,
mounts, capabilities and network interfaces the container gets. Inside the
container, the init stage takes the user's command from the arguments after
`--`. The intended flow leases an id and then writes the specification with
the bridged address; the integration test launches with `-i 10.0.5.22`
(integration_test.go:69). The `main.go` in this repository calls
`findUserArgs` (main.go:145) but does not call the pool helpers or
`writeContainerJSON`, as "## Left out" notes.

This project models the three sequential pieces of that core and proves
properties about them:

- `utils.dfy`, module `Utils` (from `utils.go`):
  - `FindUserArgs` is the argument splitter.
  - The id pool is a class `Pool`. Its field `inUse: seq<int>` stands for the
    pool file, and a missing file is the empty sequence.
  - `AvailableIpAddrId` builds the 252-slot presence vector as an `array<bool>`
    and scans it in the helper method `FirstFreeId`. It then appends the id it
    found.
  - `ReleaseIpAddr` searches for the first index of the id and splices it out.
  - Both methods are proved against the specification functions `LowestFree`
    and `RemoveFirst`. The lemmas state the pool's properties in terms of
    those functions: range, lowest-free choice, exhaustion, exclusivity,
    release after allocation, double release and reuse.
- `container_json.dfy`, module `ContainerJson` (from `container_json.go`): the
  template and its network fragments are modelled as a `ContainerSpec` datatype.
  `BuildSpec(ipAddr)` makes the one decision the source makes. A non-empty
  address adds the `NEWNET` namespace and the two network interfaces. The
  template leaves some fields out of an entry (`minor_number`, `path`,
  `file_mode`), and those are `None` here.
- `wrappers.dfy`, module `Wrappers`: `Option` and `Result`.

The ids handed out are 2..253. The comment at `utils.go:71` says "range is
2 .. 254", but the presence vector has 252 slots, and the model follows the
code. `NeverHandsOut254` and `ExhaustedWith254Free` state the consequence.
The code never checks a supplied address against the subnet or the id range.
The veth entry carries the address verbatim, and the model does not validate
it either.

## Model

| member | source | states |
|---|---|---|
| `Utils.FindUserArgs` | utils.go:32-43 | the result is a suffix of the arguments; it is exactly the arguments after the first `--`, and empty when there is no `--` |
| `Utils.LowestFree` | utils.go:71-82 | the id chosen is in 2..253 and not in use, every lower id from 2 is in use, and there is none exactly when every id in 2..253 is in use |
| `Utils.LowestFreeIsUnique` | utils.go:76-82 | the lowest-free choice is determined: any in-range free id below which all ids are taken is the one chosen |
| `Utils.FirstFreeId` | utils.go:71-85 | filling the presence vector from the list and scanning it for the first unset slot yields the lowest free id, or -1 exactly when the pool is exhausted |
| `Utils.RemoveFirst` | utils.go:101-111 | taking out the first occurrence shortens the list by one when the id is present, leaves it unchanged when the id is absent, and adds no id |
| `Utils.RemoveFirstRemovesOneCopy` | utils.go:101-111 | as multisets, the result is the list minus one copy of the id: no other entry is lost |
| `Utils.RemoveFirstAt` | utils.go:101-111 | when the first occurrence is at index k, the result is the list spliced at k, with the other entries in their order |
| `Utils.Pool.constructor` | utils.go:45-63 | the pool holds the stored list (empty for a missing file), and it is valid exactly when every stored id is in 2..253 |
| `Utils.Pool.AvailableIpAddrId` | utils.go:65-94 | on a valid pool, an allocation returns the lowest free id and appends it to the stored list; it fails with NoMoreIpAddr and leaves the list unchanged when all 252 ids are in use; a list without duplicates stays without duplicates; the new list is `Step(old, Allocate)` |
| `Utils.Pool.ReleaseIpAddr` | utils.go:96-114 | the stored list becomes the old list with the first occurrence of the id removed (unchanged if absent), which is `Step(old, Release(id))`, and validity is kept |
| `Utils.AllocatePreservesNoDuplicates` | utils.go:72-87 | appending the chosen id keeps the list in range and free of duplicates |
| `Utils.ReleasePreservesNoDuplicates` | utils.go:101-111 | on a list without duplicates, a release leaves no copy of the id, keeps the list free of duplicates and keeps it in range |
| `Utils.ReleaseUndoesAllocate` | utils.go:87-111 | releasing an id that was just appended, and was absent before, gives back the original list |
| `Utils.DoubleReleaseIsHarmless` | utils.go:101-110 | on a list without duplicates, releasing the same id twice equals releasing it once |
| `Utils.ReleasedIdIsReusable` | utils.go:71-111 | on a list without duplicates, after an in-range id is released, the next allocation succeeds and returns that id or a lower one |
| `Utils.NeverHandsOut254` | utils.go:71-79 | id 254 is never chosen, whatever the comment says |
| `Utils.ExhaustedWith254Free` | utils.go:71-85 | with ids 2..253 all in use, allocation fails although 254 is free |
| `Utils.IdSet` | utils.go:71-74 | the ids a list holds (the slots the presence vector marks) number at most the list's length, and exactly its length when no id is stored twice |
| `Utils.PoolCapacity` | utils.go:71-85 | on an in-range list, exhaustion needs at least 252 stored ids; a list without duplicates holds at most 252, and allocation fails on it exactly when it holds 252 |
| `Utils.RunKeepsLeasesExclusive` | utils.go:65-113 | for any sequence of allocations and releases from an in-range list without duplicates, no id is ever leased twice and all ids stay in range; the pool methods ensure each call leaves the list as `Step` says, so this covers the class |
| `ContainerJson.BuildSpec` | container_json.go:230-253 | the `NEWNET` namespace entry is present, and the `networks` block is present, each exactly when the address is non-empty; every namespace entry is true |
| `ContainerJson.NetworksWithAddress` | container_json.go:207-224 | with an address there are exactly two interfaces: the loopback (`127.0.0.1/0`, gateway `localhost`, mtu 1500), with no bridge and no veth prefix, then a veth on bridge `scredis0` with prefix `veth`, gateway `10.0.5.1`, mtu 1500 and the given address verbatim |
| `ContainerJson.NoNetworkWithoutAddress` | container_json.go:194-203 | without an address there is no `networks` block and the namespaces are exactly NEWIPC, NEWNS, NEWPID and NEWUTS |
| `ContainerJson.BaseNamespacesAlwaysOn` | container_json.go:194-200 | NEWIPC, NEWNS, NEWPID and NEWUTS are always present and true, and NEWNET is the only other possible entry |
| `ContainerJson.OnlyNetworkDependsOnAddress` | container_json.go:10-205 | two specifications built from any two addresses agree on everything except the network namespace and the interfaces |
| `ContainerJson.FixedContents` | container_json.go:12-129 | the 12 capabilities in their order, 14 allowed devices (by number), cgroup `redis` under `sc-redis`, restricted syscalls, no tty and user `root` |
| `ContainerJson.DeviceNodesAreAllowed` | container_json.go:27-179 | every device node created in the container is also an allowed cgroup device, with permissions `rwm` and file mode 438 |
| `ContainerJson.OnlyTmpMount` | container_json.go:180-185 | there is exactly one mount, a tmpfs on `/tmp` |
| `ContainerJson.EnvironmentMatchesHostname` | container_json.go:187-193 | the environment is the four fixed entries in order, and its `HOSTNAME=` entry agrees with the hostname `redis` |

## Left out

- File I/O of the pool: reading, JSON decoding and writing `/etc/scredis_ips.json` (`loadInUseIPAddrIDs`, the marshal and `WriteFile` in both pool operations). These are replaced by the field `inUse`. The model has no error results for a failed read, decode or write, and so does not capture a write that fails after the list was computed.
- Utils.Pool.AvailableIpAddrId: requires every stored id to be in 2..253. The source does not return an error for an out-of-range id; it aborts with an index-out-of-range panic at `utils.go:73`.
- Cross-process races on the pool file: the code takes no lock. The model covers single-threaded allocate and release only.
- Rendering to JSON bytes: `text/template` execution, `os.Create` of `container.json`, and `loadConfig`. The model builds the structured document. `text/template` inserts the address without escaping (`container_json.go:216`). An address containing `"`, `\` or a control character can therefore give a malformed file. It can also give a well-formed file whose decoded contents differ from `BuildSpec`'s. For example, a quote can close the address string and inject further keys, and the decoder keeps the last of any duplicated key. Such a file can decode with another hostname, another set of interfaces or another address. A backslash escape also changes the value: an address ending in `\u0032` decodes to the character `2`, not to the six characters written. `NetworksWithAddress`, `OnlyNetworkDependsOnAddress` and the other `ContainerJson` lemmas describe the template's fields. They hold of the file as loaded only for addresses free of those characters.
- Address validation, subnet checks and the conversion from id to `10.0.5.N`: none of these exist in this code.
- The wiring in `main.go`: it never calls `availableIPAddrID`, `releaseIpAddr` or `writeContainerJSON`, and at `main.go:80` it writes the template text without rendering it. The model covers the helpers on their own and not a launch that uses them.
- `main.go`: the init-stage dispatch, the container runtime's exec and init calls, signal forwarding, changing directory and locking the thread, and root filesystem extraction. These are OS calls, foreign library calls and concurrency. `exportRootfs` in `utils.go` is root filesystem extraction as well.
- `net_bridge.go`: enabling IP forwarding and the netlink calls that create the bridge, give it an address and bring it up. These are foreign side effects.
