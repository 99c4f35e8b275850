# IPPool admission checks, modelled in Dafny

This project models the admission webhook that validates `IPPool` objects in
the Harvester VM DHCP controller. An IPPool describes an IPv4 DHCP pool: a
subnet plus an optional range start and end, an optional DHCP server address
and an optional router (gateway) address.

- On **Create** and **Update**, the webhook checks the request in this order,
  and the first failure is the answer:
  1. the pool is parsed;
  2. the attached NetworkAttachmentDefinition is looked up;
  3. the range bounds are checked, then the server address, then the router
     address.
- On Update, a pool that already carries a deletion timestamp is let through
  at once.
- Only Update hands the server check the addresses the pool has already
  allocated.
- On **Delete**, the webhook refuses while any VirtualMachineNetworkConfig
  still uses the pool. The error names each such configuration as
  `namespace/name`, joined by `", "`.

Files:

- `outcomes.dfy`: `Option`, `Result`, and `Outcome` (pass, or fail with an
  error).
- `text.dfy`: `strings.Join`, splitting a name at its last `/`, and decimal
  printing.
- `ipv4.dfy`: addresses as `bv32`, and subnet membership by prefix mask.
  Also the subnet's network and broadcast addresses, and the dotted-decimal
  form.
- `validator.dfy`: the checks and the pipelines, together with:
  - a reference definition of the rules. Each role has an ordered list of
    rules, and a check reports the *first* broken rule of the *first* role
    whose address breaks one;
  - proofs, in both directions, that the if-chains of the source compute
    exactly that.
- `scenarios.dfy`: concrete pools in 192.168.0.0/24 with their exact error
  texts.

The loops of the source become methods proved against a specification
function:

- the allocated-address search of `checkServerIP` is `CheckServerIP`, proved
  against `ServerVerdict`;
- the name collection of `checkVmNetCfgs` is `CheckVmNetCfgs`, proved against
  `DeleteVerdict`.

`Create` and `Update` are methods proved against the `Admit` pipeline
function.

Where each Go function lives in the model (all in `validator.dfy`):

| Go | Dafny |
|---|---|
| `checkPoolRange` | `CheckPoolRange`, with the shared subnet rules in `CheckInSubnet` |
| `checkServerIP` | `ServerVerdict` (specification) and `CheckServerIP` (the loop) |
| `checkRouter` | `CheckRouter` |
| `checkNAD` | `NadKey` (namespace defaulting) and `CheckNAD` (the lookup) |
| `Create`, `Update` | the methods `Create` and `Update`, specified by `Admit`, whose address stages are `AddressChecks` |
| `checkVmNetCfgs` | `DeleteVerdict` (specification) and `CheckVmNetCfgs` (the loop) |
| the `fmt.Errorf` texts | `ViolationMessage`, built from `Lead`, `Dotted` and `Tail`; `InUseMessage` |

The checks never consult a pool's network and broadcast addresses beyond
taking them as given fields. `WellFormed` states that they are the subnet's
all-zeros and all-ones host addresses. Only the lemma that depends on this
requires it.

## Model

| member | source | states |
|---|---|---|
| IPPoolValidator.CheckPoolRangeAccepts | pkg/webhook/ippool/validator.go:139-168 | checkPoolRange passes exactly when each present bound is inside the subnet and differs from the network and broadcast addresses |
| IPPoolValidator.CheckPoolRangeRejects | pkg/webhook/ippool/validator.go:139-168 | checkPoolRange fails with violation v exactly when v names the first broken rule of the start address, or, with the start address absent or fine, of the end address |
| IPPoolValidator.CheckInSubnetSpec | pkg/webhook/ippool/validator.go:140-151 | the three shared rules are tried in the order subnet, network, broadcast; the check passes iff none is broken and otherwise reports the first broken one |
| IPPoolValidator.CheckServerIP | pkg/webhook/ippool/validator.go:170-198 | the early-return loop over the allocated addresses decides what ServerVerdict says |
| IPPoolValidator.ServerVerdictAccepts | pkg/webhook/ippool/validator.go:170-198 | the server check passes exactly when the server address is absent or breaks none of its five rules |
| IPPoolValidator.ServerVerdictRejects | pkg/webhook/ippool/validator.go:170-198 | the server check fails with v exactly when v is the first of its five rules, in source order, that the server address breaks |
| IPPoolValidator.CheckRouterAccepts | pkg/webhook/ippool/validator.go:200-218 | checkRouter passes exactly when the router address is absent or breaks none of its three rules |
| IPPoolValidator.CheckRouterRejects | pkg/webhook/ippool/validator.go:200-218 | checkRouter reports the first rule the router breaks; the address reported for the broadcast rule (the broadcast address) equals the router address |
| IPPoolValidator.FirstBrokenUnique | pkg/webhook/ippool/validator.go:139-218 | at most one rule is the first broken one, so every check has one well-defined answer |
| IPPoolValidator.AbsentAddressesPass | pkg/webhook/ippool/validator.go:140-203 | an absent start or end skips its three rules (the range check is then the other bound's check alone, or passes); an absent server or router makes its check pass |
| IPPoolValidator.OutsideSubnetRejected | pkg/webhook/ippool/validator.go:141-206 | a present address outside the subnet is rejected as not within subnet in every role; for the end address, unless the start address is rejected first |
| IPPoolValidator.ReservedAddressRefused | pkg/webhook/ippool/validator.go:141-214 | in any pool, an address equal to the network or broadcast address is rejected in every role (by that rule, or by the subnet rule before it) |
| IPPoolValidator.ReservedAddressRejected | pkg/webhook/ippool/validator.go:145-214 | in a well-formed pool, an address equal to the network or broadcast address breaks exactly that rule first, in every role |
| IPPoolValidator.ServerRouterAsymmetry | pkg/webhook/ippool/validator.go:187-217 | a valid server address equal to the router address is refused by the server check but passes the router check |
| IPPoolValidator.CheckRouterIgnoresServer | pkg/webhook/ippool/validator.go:200-218 | the router check's answer does not depend on the server address |
| IPPoolValidator.AllocationRule | pkg/webhook/ippool/validator.go:187-195 | with no allocated addresses the allocation rule never fires; with some, it only adds a rejection after the four earlier server rules hold, and only when the server address is in the list |
| IPPoolValidator.NadKeyUnqualified | pkg/webhook/ippool/validator.go:129-133 | a network name without "/" is looked up under its full name in namespace "default" |
| IPPoolValidator.NadKeyQualified | pkg/webhook/ippool/validator.go:129-136 | "ns/name" is looked up as namespace ns and name name, an empty ns meaning "default" |
| IPPoolValidator.Create | pkg/webhook/ippool/validator.go:35-62 | Create returns what the pipeline Admit decides with an empty allocated list |
| IPPoolValidator.Update | pkg/webhook/ippool/validator.go:64-101 | Update passes a pool being deleted before any check, and otherwise returns what Admit decides with the pool's allocated addresses |
| IPPoolValidator.EarlierRolesOk | pkg/webhook/ippool/validator.go:49-58 | the roles checked before a given one, in the order start, end, server, router, are exactly those listed |
| IPPoolValidator.AddressChecksAccept | pkg/webhook/ippool/validator.go:49-59 | range, server and router checks together pass exactly when every present address breaks none of the rules of its role |
| IPPoolValidator.AddressChecksReject | pkg/webhook/ippool/validator.go:49-59 | they fail with v exactly when v is the first broken rule of the first role, in order start, end, server, router, that breaks one |
| IPPoolValidator.AdmitAccepts | pkg/webhook/ippool/validator.go:35-62 | a pool is admitted exactly when it parses, its network exists and all its addresses are acceptable |
| IPPoolValidator.AdmitRejects | pkg/webhook/ippool/validator.go:74-98 | parse failure first, then the lookup error unchanged, then the first address violation decides the error |
| IPPoolValidator.AddressChecksAllocationFail | pkg/webhook/ippool/validator.go:88-96 | what the address checks reject without allocated addresses they reject with them, for the same reason unless it concerns the router; never for allocation |
| IPPoolValidator.AddressChecksAllocationPass | pkg/webhook/ippool/validator.go:88-96 | of what they accept without allocated addresses, they reject with them exactly the pools whose server address is allocated |
| IPPoolValidator.CreateIgnoresAllocation | pkg/webhook/ippool/validator.go:53 | Admit without the allocated addresses (Create) never reports an allocated server; for a pool not being deleted, Admit with the pool's allocated addresses (Update) rejects whatever Create rejects, and of what Create accepts exactly the pools whose server address is allocated |
| IPPoolValidator.CheckVmNetCfgs | pkg/webhook/ippool/validator.go:220-239 | the name-collecting loop decides what DeleteVerdict says |
| IPPoolValidator.DeleteGate | pkg/webhook/ippool/validator.go:224-238 | deletion passes exactly when the lookup succeeds with no configuration; a lookup error is returned unchanged; any user gives the still-used error |
| IPPoolValidator.DeleteNamesEveryUser | pkg/webhook/ippool/validator.go:231-236 | the still-used message contains every user's "namespace/name" at its position |
| IPPoolValidator.DeleteNamesInOrder | pkg/webhook/ippool/validator.go:232-236 | in the message each name is followed by ", " and then by the next user's name, in list order |
| Text.JoinContains | pkg/webhook/ippool/validator.go:236 | strings.Join keeps every element, at its offset, with the separator after each but the last |
| Text.JoinLength | pkg/webhook/ippool/validator.go:236 | the joined string ends where its last element ends |
| Text.LastIndexOf | pkg/webhook/ippool/validator.go:130 | finds the last occurrence of a character, and none exactly when it does not occur |
| Text.RSplit | pkg/webhook/ippool/validator.go:130 | splitting at the last separator: the parts rejoin to the input and the second part holds no separator; without one, the namespace part is empty |
| Text.RSplitJoined | pkg/webhook/ippool/validator.go:130 | splitting "front/back" with no "/" in back gives front and back back |
| Text.DecimalString | pkg/webhook/ippool/validator.go:142 | an address byte prints as a non-empty digit string without leading zeros |
| Text.DecimalRoundTrip | pkg/webhook/ippool/validator.go:142 | reading back a printed number gives the number |
| IPv4.OctetsRebuild | pkg/webhook/ippool/validator.go:142 | the four printed bytes, shifted back into place, are the address |
| IPv4.OctetsDetermine | pkg/webhook/ippool/validator.go:142 | addresses with the same four bytes are equal |
| IPv4.DecimalInjective | pkg/webhook/ippool/validator.go:142 | different byte values print as different decimal strings |
| IPv4.LastDotUnique | pkg/webhook/ippool/validator.go:142 | a dotted string splits at its last dot in only one way |
| IPv4.DottedInjective | pkg/webhook/ippool/validator.go:142-214 | different addresses print differently, so the address in every rejection message identifies the rejected address |
| IPv4.ReservedAddressesInSubnet | pkg/webhook/ippool/validator.go:145-150 | a subnet's network and broadcast addresses lie inside it, so the network and broadcast rules are reached |
| Scenarios.ExampleAdmitted | pkg/webhook/ippool/validator.go:35-62 | 192.168.0.0/24 with range .10-.200, server .2 and router .1 is well formed and admitted |
| Scenarios.OtherNamespaceNotFound | pkg/webhook/ippool/validator.go:45-46 | "other/vlan1" is looked up in namespace "other" and the cache's not-found error is returned |
| Scenarios.BroadcastServerRejected | pkg/webhook/ippool/validator.go:183-184 | server .255 is rejected as the broadcast address |
| Scenarios.BroadcastServerMessage | pkg/webhook/ippool/validator.go:184 | its message is "server ip 192.168.0.255 cannot be the same as broadcast ip" |
| Scenarios.OutsideStartRejected | pkg/webhook/ippool/validator.go:141-142 | start 192.168.1.5 is rejected as outside the subnet |
| Scenarios.OutsideStartMessage | pkg/webhook/ippool/validator.go:142 | its message is "start ip 192.168.1.5 is not within subnet" |
| Scenarios.BroadcastRouterRejected | pkg/webhook/ippool/validator.go:213-214 | router .255 is rejected as the broadcast address |
| Scenarios.BroadcastRouterMessage | pkg/webhook/ippool/validator.go:214 | its message is "router ip 192.168.0.255 is the same as broadcast ip" |
| Scenarios.AllocatedServerOnlyFailsUpdate | pkg/webhook/ippool/validator.go:53-92 | an allocated server address passes Create and fails Update as already allocated |
| Scenarios.AllocatedServerMessage | pkg/webhook/ippool/validator.go:193 | its message is "server ip 192.168.0.2 is already allocated" |
| Scenarios.TwoUsersBlockDeletion | pkg/webhook/ippool/validator.go:231-236 | two users default/vm1 and team/vm2 give the full still-used message |
| Scenarios.DottedBroadcast | pkg/webhook/ippool/validator.go:184 | 0xC0A800FF prints as 192.168.0.255 |
| Scenarios.DottedOutside | pkg/webhook/ippool/validator.go:142 | 0xC0A80105 prints as 192.168.1.5 |
| Scenarios.DottedServer | pkg/webhook/ippool/validator.go:193 | 0xC0A80002 prints as 192.168.0.2 |

## Left out

- Parsing an IPPool into pool information (`util.LoadPool`) and reading its
  allocated addresses (`util.LoadAllocated`): these are not part of this
  model. The parse outcome and the allocated list are fields of `IPPool`,
  and a parse error is carried as a plain string.
- The NetworkAttachmentDefinition cache and `VmnetcfgGetter.WhoUseIPPool`
  become oracle inputs. They are a lookup function, and a list or an error.
  Their implementations are not part of this model.
- wrangler's `kv.RSplit` is not part of this model. `RSplit` assumes it
  splits at the last `/`, without one gives an empty namespace, and trims
  nothing. Network names with exactly one `/` and no surrounding spaces are
  covered. Names with two or more `/`, or with surrounding whitespace, are
  outside what the model covers: there the real function may split
  elsewhere or trim.
- Logging, the wrapping of errors with the `CreateErr` and `DeleteErr`
  formats (not part of this model), the type assertions on the request
  objects, and `Resource()` registration. This is admission-framework glue;
  `Delete` is `checkVmNetCfgs` plus that wrapping, so `CheckVmNetCfgs`
  stands for it.
- IPv6, `netip.Addr` representation details and `net.IPNet.Contains` on
  byte slices. Every address is plain IPv4 (`bv32`), so:
  - the `As4()` comparisons and the plain `==` used against allocated
    addresses agree;
  - the panics `As4()` raises on other forms do not arise.
- `ViolationMessage` renders a violation as Go's format strings do. The
  printed address is proved to identify the address (`DottedInjective`).
  The wording of each message is pinned down by the concrete message lemmas
  in `scenarios.dfy`, not by a general lemma.
