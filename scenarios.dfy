/** Concrete pools in 192.168.0.0/24 (network 192.168.0.0, broadcast
    192.168.0.255) run through the checks, with the exact error texts. */
module Scenarios {
  import opened Outcomes
  import opened Text
  import opened IPv4
  import opened IPPoolValidator

  const Net: Addr := 0xC0A8_0000        // 192.168.0.0
  const Bcast: Addr := 0xC0A8_00FF      // 192.168.0.255

  /** start 192.168.0.10, end 192.168.0.200, server 192.168.0.2, router 192.168.0.1 */
  const Example: PoolInfo := PoolInfo(
    Subnet(Net, 24), Net, Bcast,
    Some(0xC0A8_000A), Some(0xC0A8_00C8), Some(0xC0A8_0002), Some(0xC0A8_0001))

  /** A network cache holding only default/vlan1. */
  function OnlyVlan1(namespace: string, name: string): Option<LookupError>
  {
    if namespace == "default" && name == "vlan1" then None else Some(NotFound(namespace, name))
  }

  /** The example pool is well formed and passes Create, and Update too when
      nothing is allocated. */
  lemma ExampleAdmitted()
    ensures WellFormed(Example)
    ensures Admit(IPPool("vlan1", false, Success(Example), []), [], OnlyVlan1) == Pass
  {
    NadKeyUnqualified("vlan1");
  }

  /** A network name qualified with another namespace is looked up there, and
      the cache's error is returned as is. */
  lemma OtherNamespaceNotFound()
    ensures Admit(IPPool("other/vlan1", false, Success(Example), []), [], OnlyVlan1)
      == Fail(Lookup(NotFound("other", "vlan1")))
  {
    NadKeyQualified("other", "vlan1");
    assert "other" + "/" + "vlan1" == "other/vlan1";
  }

  /** A server address equal to the broadcast address. */
  lemma BroadcastServerRejected()
    ensures AddressChecks(Example.(server := Some(Bcast)), []) == Fail(Violation(Server, SameAsBroadcast, Bcast))
  {
    var pi := Example.(server := Some(Bcast));
    assert CheckPoolRange(pi) == Pass;
  }

  lemma BroadcastServerMessage()
    ensures ViolationMessage(Violation(Server, SameAsBroadcast, Bcast))
      == "server ip " + "192.168.0.255" + " cannot be the same as broadcast ip"
  {
    DottedBroadcast();
  }

  /** A start address outside the subnet. */
  lemma OutsideStartRejected()
    ensures AddressChecks(Example.(start := Some(0xC0A8_0105)), []) == Fail(Violation(Start, NotWithinSubnet, 0xC0A8_0105))
  {
    assert !Contains(Example.subnet, 0xC0A8_0105);
  }

  lemma OutsideStartMessage()
    ensures ViolationMessage(Violation(Start, NotWithinSubnet, 0xC0A8_0105))
      == "start ip " + "192.168.1.5" + " is not within subnet"
  {
    DottedOutside();
  }

  /** A router address equal to the broadcast address: the message prints the
      broadcast address, which is the router address. */
  lemma BroadcastRouterRejected()
    ensures AddressChecks(Example.(router := Some(Bcast)), []) == Fail(Violation(Router, SameAsBroadcast, Bcast))
  {
    var pi := Example.(router := Some(Bcast));
    assert CheckPoolRange(pi) == Pass;
    assert ServerVerdict(pi, []) == Pass;
  }

  lemma BroadcastRouterMessage()
    ensures ViolationMessage(Violation(Router, SameAsBroadcast, Bcast))
      == "router ip " + "192.168.0.255" + " is the same as broadcast ip"
  {
    DottedBroadcast();
  }

  /** A server address that is already allocated passes Create but not Update. */
  lemma AllocatedServerOnlyFailsUpdate()
    ensures var pool := IPPool("vlan1", false, Success(Example), [0xC0A8_0014, 0xC0A8_0002]);
      && Admit(pool, [], OnlyVlan1) == Pass
      && Admit(pool, pool.allocatedIPs, OnlyVlan1) == Fail(Invalid(Violation(Server, AlreadyAllocated, 0xC0A8_0002)))
  {
    NadKeyUnqualified("vlan1");
    assert CheckPoolRange(Example) == Pass;
    assert ServerVerdict(Example, []) == Pass;
    assert (0xC0A8_0002 as Addr) in [0xC0A8_0014 as Addr, 0xC0A8_0002];
  }

  lemma AllocatedServerMessage()
    ensures ViolationMessage(Violation(Server, AlreadyAllocated, 0xC0A8_0002))
      == "server ip " + "192.168.0.2" + " is already allocated"
  {
    DottedServer();
  }

  /** Two configurations still use the pool. */
  lemma TwoUsersBlockDeletion()
    ensures DeleteVerdict(Success([VmNetCfgRef("default", "vm1"), VmNetCfgRef("team", "vm2")]))
      == Fail(StillUsed("it's still used by VirtualMachineNetworkConfig(s) "
                        + "default/vm1, team/vm2"
                        + ", which must be removed at first"))
  {
    var cs := [VmNetCfgRef("default", "vm1"), VmNetCfgRef("team", "vm2")];
    assert QualifiedName(cs[0]) == "default/vm1";
    assert QualifiedName(cs[1]) == "team/vm2";
    assert QualifiedNames(cs) == ["default/vm1", "team/vm2"];
    assert Join(["team/vm2"], ", ") == "team/vm2";
    assert "default/vm1" + ", " + "team/vm2" == "default/vm1, team/vm2";
  }

  lemma DottedBroadcast()
    ensures Dotted(0xC0A8_00FF) == "192.168.0.255"
  {
    assert Octet(0xC0A8_00FF, 0) == 192;
    assert Octet(0xC0A8_00FF, 1) == 168;
    assert Octet(0xC0A8_00FF, 2) == 0;
    assert Octet(0xC0A8_00FF, 3) == 255;
    assert DecimalString(192) == "192";
    assert DecimalString(168) == "168";
    assert DecimalString(0) == "0";
    assert DecimalString(255) == "255";
  }

  lemma DottedOutside()
    ensures Dotted(0xC0A8_0105) == "192.168.1.5"
  {
    assert Octet(0xC0A8_0105, 0) == 192 && Octet(0xC0A8_0105, 1) == 168;
    assert Octet(0xC0A8_0105, 2) == 1 && Octet(0xC0A8_0105, 3) == 5;
    assert DecimalString(192) == "192" && DecimalString(168) == "168";
    assert DecimalString(1) == "1" && DecimalString(5) == "5";
  }

  lemma DottedServer()
    ensures Dotted(0xC0A8_0002) == "192.168.0.2"
  {
    assert Octet(0xC0A8_0002, 0) == 192 && Octet(0xC0A8_0002, 1) == 168;
    assert Octet(0xC0A8_0002, 2) == 0 && Octet(0xC0A8_0002, 3) == 2;
    assert DecimalString(192) == "192" && DecimalString(168) == "168";
    assert DecimalString(0) == "0" && DecimalString(2) == "2";
  }
}
