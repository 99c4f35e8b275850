/** The admission checks for an IPv4 DHCP pool (IPPool): the address rules for
    the range bounds, the server address and the router address, the lookup
    of the attached network, the Create/Update pipelines that run them in a
    fixed order, and the gate that refuses deleting a pool that is in use. */
module IPPoolValidator {
  import opened Outcomes
  import opened Text
  import opened IPv4

  // ---------------------------------------------------------------------------
  // Data model
  // ---------------------------------------------------------------------------

  /** The role an address plays in a pool; it heads every rejection message. */
  datatype Role = Start | End | Server | Router

  /** The address rules, declared in the order the checks apply them. */
  datatype Rule = NotWithinSubnet | SameAsNetwork | SameAsBroadcast | SameAsRouter | AlreadyAllocated

  /** A broken rule: which address, in which role, broke which rule. `addr` is
      the address the error message prints. */
  datatype Violation = Violation(role: Role, rule: Rule, addr: Addr)

  /** A parsed pool as the checks see it. `network` and `broadcast` come with
      the pool; an absent optional address is `None`. */
  datatype PoolInfo = PoolInfo(
    subnet: Subnet,
    network: Addr,
    broadcast: Addr,
    start: Option<Addr>,
    end: Option<Addr>,
    server: Option<Addr>,
    router: Option<Addr>)

  /** The network and broadcast addresses are the subnet's all-zeros and
      all-ones host addresses. */
  predicate WellFormed(pi: PoolInfo)
  {
    pi.network == NetworkOf(pi.subnet) && pi.broadcast == BroadcastOf(pi.subnet)
  }

  /** Why a lookup in a cache failed. */
  datatype LookupError = NotFound(namespace: string, name: string) | Unavailable(reason: string)

  /** The NetworkAttachmentDefinition cache: for a namespace and a name, `None`
      when the definition exists, otherwise the error the cache returns. */
  type NadLookup = (string, string) -> Option<LookupError>

  /** Every reason a request can be refused. */
  datatype Error =
    | LoadFailed(reason: string)      // the pool could not be parsed
    | Lookup(cause: LookupError)      // a cache lookup failed, propagated as is
    | Invalid(violation: Violation)   // an address rule is broken
    | StillUsed(message: string)      // deletion while configurations use the pool

  /** An IPPool object as the pipelines see it: the network it serves, whether
      a deletion timestamp is set, the outcome of parsing it into a PoolInfo,
      and the addresses its status records as allocated (empty without an
      IPv4 status). */
  datatype IPPool = IPPool(
    networkName: string,
    deleting: bool,
    loaded: Result<PoolInfo, string>,
    allocatedIPs: seq<Addr>)

  /** A VirtualMachineNetworkConfig that uses a pool. */
  datatype VmNetCfgRef = VmNetCfgRef(namespace: string, name: string)

  // ---------------------------------------------------------------------------
  // The rules, as a reference independent of the checks' if-chains
  // ---------------------------------------------------------------------------

  /** Position of a rule in the order of evaluation. */
  function Rank(rule: Rule): nat
  {
    match rule
    case NotWithinSubnet => 0
    case SameAsNetwork => 1
    case SameAsBroadcast => 2
    case SameAsRouter => 3
    case AlreadyAllocated => 4
  }

  /** The rules that apply to an address in a role: the server address alone
      must also differ from the router and from every allocated address. */
  function RulesOf(role: Role): set<Rule>
  {
    if role == Server then SubnetRules + {SameAsRouter, AlreadyAllocated} else SubnetRules
  }

  /** The rules every address role shares. */
  const SubnetRules: set<Rule> := {NotWithinSubnet, SameAsNetwork, SameAsBroadcast}

  /** Whether address `a` of pool `pi` breaks `rule`. */
  predicate Breaks(rule: Rule, a: Addr, pi: PoolInfo, allocatedIPs: seq<Addr>)
  {
    match rule
    case NotWithinSubnet => !Contains(pi.subnet, a)
    case SameAsNetwork => a == pi.network
    case SameAsBroadcast => a == pi.broadcast
    case SameAsRouter => pi.router == Some(a)
    case AlreadyAllocated => a in allocatedIPs
  }

  /** `rule` is the first rule of `role`, in evaluation order, that `a` breaks. */
  predicate FirstBroken(role: Role, rule: Rule, a: Addr, pi: PoolInfo, allocatedIPs: seq<Addr>)
  {
    && rule in RulesOf(role)
    && Breaks(rule, a, pi, allocatedIPs)
    && forall earlier :: earlier in RulesOf(role) && Rank(earlier) < Rank(rule) ==> !Breaks(earlier, a, pi, allocatedIPs)
  }

  /** `a` breaks no rule of `role`. */
  predicate Acceptable(role: Role, a: Addr, pi: PoolInfo, allocatedIPs: seq<Addr>)
  {
    forall rule :: rule in RulesOf(role) ==> !Breaks(rule, a, pi, allocatedIPs)
  }

  /** The address the pool gives to `role`. */
  function AddrOf(pi: PoolInfo, role: Role): Option<Addr>
  {
    match role
    case Start => pi.start
    case End => pi.end
    case Server => pi.server
    case Router => pi.router
  }

  /** The address of `role` is absent or breaks none of its rules. */
  predicate RoleOk(pi: PoolInfo, role: Role, allocatedIPs: seq<Addr>)
  {
    AddrOf(pi, role).Some? ==> Acceptable(role, AddrOf(pi, role).value, pi, allocatedIPs)
  }

  /** Position of a role in the order the pipelines check them. */
  function RoleRank(role: Role): nat
  {
    match role
    case Start => 0
    case End => 1
    case Server => 2
    case Router => 3
  }

  /** Every present address of the pool breaks none of its rules. */
  predicate AllRolesOk(pi: PoolInfo, allocatedIPs: seq<Addr>)
  {
    forall role :: RoleOk(pi, role, allocatedIPs)
  }

  // ---------------------------------------------------------------------------
  // The checks
  // ---------------------------------------------------------------------------

  /** The three subnet rules, in order, for an address in `role`. */
  function CheckInSubnet(role: Role, a: Addr, pi: PoolInfo): Outcome<Violation>
  {
    if !Contains(pi.subnet, a) then Fail(Violation(role, NotWithinSubnet, a))
    else if a == pi.network then Fail(Violation(role, SameAsNetwork, a))
    else if a == pi.broadcast then Fail(Violation(role, SameAsBroadcast, a))
    else Pass
  }

  /** checkPoolRange: the start address first, then the end address; an
      absent bound is skipped. */
  function CheckPoolRange(pi: PoolInfo): Outcome<Violation>
  {
    var startCheck := if pi.start.Some? then CheckInSubnet(Start, pi.start.value, pi) else Pass;
    if startCheck.Fail? then startCheck
    else if pi.end.Some? then CheckInSubnet(End, pi.end.value, pi)
    else Pass
  }

  /** What checkServerIP decides: an absent server address passes; otherwise
      the subnet rules, then the router, then the allocated addresses. */
  function ServerVerdict(pi: PoolInfo, allocatedIPs: seq<Addr>): Outcome<Violation>
  {
    if pi.server.None? then Pass
    else
      var s := pi.server.value;
      var subnetCheck := CheckInSubnet(Server, s, pi);
      if subnetCheck.Fail? then subnetCheck
      else if pi.router.Some? && s == pi.router.value then Fail(Violation(Server, SameAsRouter, s))
      else if s in allocatedIPs then Fail(Violation(Server, AlreadyAllocated, s))
      else Pass
  }

  /** checkServerIP, searching the allocated addresses in order and stopping
      at the first match. */
  method CheckServerIP(pi: PoolInfo, allocatedIPs: seq<Addr>) returns (r: Outcome<Violation>)
    ensures r == ServerVerdict(pi, allocatedIPs)
  {
    if pi.server.None? {
      return Pass;
    }
    var s := pi.server.value;
    r := CheckInSubnet(Server, s, pi);
    if r.Fail? {
      return;
    }
    if pi.router.Some? && s == pi.router.value {
      return Fail(Violation(Server, SameAsRouter, s));
    }
    for i := 0 to |allocatedIPs|
      invariant s !in allocatedIPs[..i]
    {
      if s == allocatedIPs[i] {
        return Fail(Violation(Server, AlreadyAllocated, s));
      }
    }
    assert allocatedIPs[..|allocatedIPs|] == allocatedIPs;
    return Pass;
  }

  /** checkRouter. The broadcast rule reports the broadcast address, which at
      that point equals the router address. */
  function CheckRouter(pi: PoolInfo): Outcome<Violation>
  {
    if pi.router.None? then Pass
    else
      var r := pi.router.value;
      if !Contains(pi.subnet, r) then Fail(Violation(Router, NotWithinSubnet, r))
      else if r == pi.network then Fail(Violation(Router, SameAsNetwork, r))
      else if r == pi.broadcast then Fail(Violation(Router, SameAsBroadcast, pi.broadcast))
      else Pass
  }

  // ---------------------------------------------------------------------------
  // The checks agree with the reference
  // ---------------------------------------------------------------------------

  /** At most one rule is the first one broken. */
  lemma FirstBrokenUnique(role: Role, r1: Rule, r2: Rule, a: Addr, pi: PoolInfo, allocatedIPs: seq<Addr>)
    requires FirstBroken(role, r1, a, pi, allocatedIPs) && FirstBroken(role, r2, a, pi, allocatedIPs)
    ensures r1 == r2
  {
    assert Rank(r1) == Rank(r2);
  }

  /** The subnet rules fail with the first of the three rules the address
      breaks, and pass when it breaks none of them. */
  lemma CheckInSubnetSpec(role: Role, a: Addr, pi: PoolInfo, allocatedIPs: seq<Addr>)
    ensures CheckInSubnet(role, a, pi).Pass? <==>
      forall rule :: rule in SubnetRules ==> !Breaks(rule, a, pi, allocatedIPs)
    ensures CheckInSubnet(role, a, pi).Fail? ==>
      var v := CheckInSubnet(role, a, pi).error;
      && v.role == role && v.addr == a && v.rule in SubnetRules
      && FirstBroken(role, v.rule, a, pi, allocatedIPs)
  {
  }

  /** checkPoolRange accepts exactly when every present bound breaks none of
      its rules (the allocated addresses concern the server alone). */
  lemma {:induction false} CheckPoolRangeAccepts(pi: PoolInfo, allocatedIPs: seq<Addr>)
    ensures CheckPoolRange(pi).Pass? <==> RoleOk(pi, Start, allocatedIPs) && RoleOk(pi, End, allocatedIPs)
  {
    if pi.start.Some? {
      CheckInSubnetSpec(Start, pi.start.value, pi, allocatedIPs);
    }
    if pi.end.Some? {
      CheckInSubnetSpec(End, pi.end.value, pi, allocatedIPs);
    }
  }

  /** checkPoolRange reports the first rule broken by the start address, or,
      when the start address is absent or fine, the first rule broken by the
      end address. */
  lemma {:induction false} CheckPoolRangeRejects(pi: PoolInfo, allocatedIPs: seq<Addr>, v: Violation)
    ensures CheckPoolRange(pi) == Fail(v) <==>
      && (v.role == Start || v.role == End)
      && AddrOf(pi, v.role) == Some(v.addr)
      && FirstBroken(v.role, v.rule, v.addr, pi, allocatedIPs)
      && (v.role == End ==> RoleOk(pi, Start, allocatedIPs))
  {
    if pi.start.Some? {
      CheckInSubnetSpec(Start, pi.start.value, pi, allocatedIPs);
    }
    if pi.end.Some? {
      CheckInSubnetSpec(End, pi.end.value, pi, allocatedIPs);
    }
    var r := CheckPoolRange(pi);
    if v.role == Start && pi.start == Some(v.addr) && FirstBroken(Start, v.rule, v.addr, pi, allocatedIPs) {
      assert r == CheckInSubnet(Start, v.addr, pi);
      FirstBrokenUnique(Start, v.rule, r.error.rule, v.addr, pi, allocatedIPs);
    } else if v.role == End && pi.end == Some(v.addr) && FirstBroken(End, v.rule, v.addr, pi, allocatedIPs) && RoleOk(pi, Start, allocatedIPs) {
      assert r == CheckInSubnet(End, v.addr, pi);
      FirstBrokenUnique(End, v.rule, r.error.rule, v.addr, pi, allocatedIPs);
    }
  }

  /** checkServerIP accepts exactly when the server address is absent or
      breaks none of its five rules. */
  lemma {:induction false} ServerVerdictAccepts(pi: PoolInfo, allocatedIPs: seq<Addr>)
    ensures ServerVerdict(pi, allocatedIPs).Pass? <==> RoleOk(pi, Server, allocatedIPs)
  {
    if pi.server.Some? {
      var s := pi.server.value;
      CheckInSubnetSpec(Server, s, pi, allocatedIPs);
      if ServerVerdict(pi, allocatedIPs).Pass? {
        forall rule | rule in RulesOf(Server)
          ensures !Breaks(rule, s, pi, allocatedIPs)
        {
          assert rule in SubnetRules || rule == SameAsRouter || rule == AlreadyAllocated;
        }
      } else {
        var rule := ServerVerdict(pi, allocatedIPs).error.rule;
        assert rule in RulesOf(Server) && Breaks(rule, s, pi, allocatedIPs);
      }
    }
  }

  /** checkServerIP reports the first of its five rules the server address
      breaks: the router and allocation rules are reached only when the
      subnet rules hold. */
  lemma {:induction false} ServerVerdictRejects(pi: PoolInfo, allocatedIPs: seq<Addr>, v: Violation)
    ensures ServerVerdict(pi, allocatedIPs) == Fail(v) <==>
      && v.role == Server
      && pi.server == Some(v.addr)
      && FirstBroken(Server, v.rule, v.addr, pi, allocatedIPs)
  {
    if pi.server.Some? {
      CheckInSubnetSpec(Server, pi.server.value, pi, allocatedIPs);
    }
    var r := ServerVerdict(pi, allocatedIPs);
    if v.role == Server && pi.server == Some(v.addr) && FirstBroken(Server, v.rule, v.addr, pi, allocatedIPs) {
      assert r.Fail?;
      FirstBrokenUnique(Server, v.rule, r.error.rule, v.addr, pi, allocatedIPs);
    }
  }

  /** checkRouter accepts exactly when the router address is absent or breaks
      none of its rules. */
  lemma {:induction false} CheckRouterAccepts(pi: PoolInfo, allocatedIPs: seq<Addr>)
    ensures CheckRouter(pi).Pass? <==> RoleOk(pi, Router, allocatedIPs)
  {
    if pi.router.Some? {
      CheckInSubnetSpec(Router, pi.router.value, pi, allocatedIPs);
    }
  }

  /** checkRouter reports the first rule the router address breaks, and the
      address it reports is the router address, also for the broadcast rule. */
  lemma {:induction false} CheckRouterRejects(pi: PoolInfo, allocatedIPs: seq<Addr>, v: Violation)
    ensures CheckRouter(pi) == Fail(v) <==>
      && v.role == Router
      && pi.router == Some(v.addr)
      && FirstBroken(Router, v.rule, v.addr, pi, allocatedIPs)
  {
    if pi.router.Some? {
      var a := pi.router.value;
      CheckInSubnetSpec(Router, a, pi, allocatedIPs);
      assert CheckRouter(pi) == CheckInSubnet(Router, a, pi);
      var r := CheckRouter(pi);
      if v.role == Router && pi.router == Some(v.addr) && FirstBroken(Router, v.rule, v.addr, pi, allocatedIPs) {
        FirstBrokenUnique(Router, v.rule, r.error.rule, v.addr, pi, allocatedIPs);
      }
    }
  }

  // ---------------------------------------------------------------------------
  // Properties of the individual checks
  // ---------------------------------------------------------------------------

  /** An absent address is never checked. */
  lemma AbsentAddressesPass(pi: PoolInfo, allocatedIPs: seq<Addr>)
    ensures pi.start.None? && pi.end.None? ==> CheckPoolRange(pi) == Pass
    ensures pi.start.None? && pi.end.Some? ==> CheckPoolRange(pi) == CheckInSubnet(End, pi.end.value, pi)
    ensures pi.start.Some? && pi.end.None? ==> CheckPoolRange(pi) == CheckInSubnet(Start, pi.start.value, pi)
    ensures pi.server.None? ==> ServerVerdict(pi, allocatedIPs) == Pass
    ensures pi.router.None? ==> CheckRouter(pi) == Pass
  {
  }

  /** A present address outside the subnet is rejected as not within the
      subnet; for the end address, unless the start address was rejected first. */
  lemma OutsideSubnetRejected(pi: PoolInfo, allocatedIPs: seq<Addr>)
    ensures pi.start.Some? && !Contains(pi.subnet, pi.start.value) ==>
      CheckPoolRange(pi) == Fail(Violation(Start, NotWithinSubnet, pi.start.value))
    ensures pi.end.Some? && !Contains(pi.subnet, pi.end.value) ==>
      CheckPoolRange(pi).Fail? &&
      (RoleOk(pi, Start, []) ==> CheckPoolRange(pi) == Fail(Violation(End, NotWithinSubnet, pi.end.value)))
    ensures pi.server.Some? && !Contains(pi.subnet, pi.server.value) ==>
      ServerVerdict(pi, allocatedIPs) == Fail(Violation(Server, NotWithinSubnet, pi.server.value))
    ensures pi.router.Some? && !Contains(pi.subnet, pi.router.value) ==>
      CheckRouter(pi) == Fail(Violation(Router, NotWithinSubnet, pi.router.value))
  {
    if pi.start.Some? {
      CheckInSubnetSpec(Start, pi.start.value, pi, []);
    }
  }

  /** In any pool, an address equal to the network or the broadcast address
      is rejected in every role: it breaks the reserved rule, or the subnet
      rule before it. */
  lemma ReservedAddressRefused(pi: PoolInfo, role: Role, allocatedIPs: seq<Addr>)
    requires AddrOf(pi, role) == Some(pi.network) || AddrOf(pi, role) == Some(pi.broadcast)
    ensures !RoleOk(pi, role, allocatedIPs)
  {
    var a := AddrOf(pi, role).value;
    assert Breaks(if a == pi.network then SameAsNetwork else SameAsBroadcast, a, pi, allocatedIPs);
  }

  /** In a well-formed pool the reserved addresses lie in the subnet, so such
      an address is rejected for exactly that reason, in every role. */
  lemma {:induction false} ReservedAddressRejected(pi: PoolInfo, role: Role, allocatedIPs: seq<Addr>)
    requires WellFormed(pi)
    requires AddrOf(pi, role) == Some(pi.network) || AddrOf(pi, role) == Some(pi.broadcast)
    ensures var a := AddrOf(pi, role).value;
      FirstBroken(role, if a == pi.network then SameAsNetwork else SameAsBroadcast, a, pi, allocatedIPs)
  {
    ReservedAddressesInSubnet(pi.subnet);
  }

  /** The server address may not equal a present router address, but the
      router check never looks at the server address: a server address equal
      to a valid router address is rejected by checkServerIP only. */
  lemma ServerRouterAsymmetry(pi: PoolInfo, allocatedIPs: seq<Addr>)
    requires pi.server.Some? && pi.router == pi.server
    requires Contains(pi.subnet, pi.server.value)
    requires pi.server.value != pi.network && pi.server.value != pi.broadcast
    ensures ServerVerdict(pi, allocatedIPs) == Fail(Violation(Server, SameAsRouter, pi.server.value))
    ensures CheckRouter(pi) == Pass
  {
  }

  /** checkRouter depends on the router address alone, never on the server's. */
  lemma CheckRouterIgnoresServer(pi: PoolInfo, server: Option<Addr>)
    ensures CheckRouter(pi.(server := server)) == CheckRouter(pi)
  {
  }

  /** With no allocated addresses the allocation rule never fires; with some,
      it only adds rejections, and only once every earlier server rule holds. */
  lemma {:induction false} AllocationRule(pi: PoolInfo, allocatedIPs: seq<Addr>)
    ensures ServerVerdict(pi, []).Fail? ==> ServerVerdict(pi, []).error.rule != AlreadyAllocated
    ensures ServerVerdict(pi, []).Fail? ==> ServerVerdict(pi, allocatedIPs) == ServerVerdict(pi, [])
    ensures ServerVerdict(pi, []).Pass? ==>
      (ServerVerdict(pi, allocatedIPs).Pass? <==> pi.server.None? || pi.server.value !in allocatedIPs)
    ensures ServerVerdict(pi, []).Pass? && pi.server.Some? && pi.server.value in allocatedIPs ==>
      ServerVerdict(pi, allocatedIPs) == Fail(Violation(Server, AlreadyAllocated, pi.server.value))
  {
  }

  // ---------------------------------------------------------------------------
  // The attached network (checkNAD)
  // ---------------------------------------------------------------------------

  /** The namespace used for a network name without one. */
  const DefaultNamespace: string := "default"

  /** The namespace and name checkNAD looks up: the network name is split at
      its last "/", and an empty namespace becomes "default". */
  function NadKey(networkName: string): (string, string)
  {
    var (namespace, name) := RSplit(networkName, '/');
    (if namespace == "" then DefaultNamespace else namespace, name)
  }

  /** checkNAD: the cache's answer for the network's namespace and name. */
  function CheckNAD(networkName: string, lookup: NadLookup): Option<LookupError>
  {
    lookup(NadKey(networkName).0, NadKey(networkName).1)
  }

  /** An unqualified network name is looked up in namespace "default". */
  lemma NadKeyUnqualified(networkName: string)
    requires '/' !in networkName
    ensures NadKey(networkName) == (DefaultNamespace, networkName)
  {
  }

  /** A qualified name is looked up under its own namespace and name, the
      name being what follows the last "/"; an empty namespace still means
      "default". */
  lemma {:induction false} NadKeyQualified(namespace: string, name: string)
    requires '/' !in name
    ensures NadKey(namespace + "/" + name) == (if namespace == "" then DefaultNamespace else namespace, name)
  {
    RSplitJoined(namespace, '/', name);
  }

  // ---------------------------------------------------------------------------
  // Create and Update
  // ---------------------------------------------------------------------------

  /** The address checks of Create and Update in their order: range, server,
      router; the first violation is reported. */
  function AddressChecks(pi: PoolInfo, allocatedIPs: seq<Addr>): Outcome<Violation>
  {
    var range := CheckPoolRange(pi);
    if range.Fail? then range
    else
      var server := ServerVerdict(pi, allocatedIPs);
      if server.Fail? then server
      else CheckRouter(pi)
  }

  /** The admission pipeline of Create and Update on a pool that is not being
      deleted: parse, look up the network, then the address checks; the first
      error is returned and nothing after it runs. */
  function Admit(pool: IPPool, allocatedIPs: seq<Addr>, lookup: NadLookup): Outcome<Error>
  {
    match pool.loaded
    case Failure(reason) => Fail(LoadFailed(reason))
    case Success(pi) =>
      var nad := CheckNAD(pool.networkName, lookup);
      if nad.Some? then Fail(Lookup(nad.value))
      else
        var checks := AddressChecks(pi, allocatedIPs);
        if checks.Fail? then Fail(Invalid(checks.error)) else Pass
  }

  /** Create: no allocated addresses are passed to the server check. */
  method Create(pool: IPPool, lookup: NadLookup) returns (r: Outcome<Error>)
    ensures r == Admit(pool, [], lookup)
  {
    if pool.loaded.Failure? {
      return Fail(LoadFailed(pool.loaded.error));
    }
    var pi := pool.loaded.value;
    var nad := CheckNAD(pool.networkName, lookup);
    if nad.Some? {
      return Fail(Lookup(nad.value));
    }
    var range := CheckPoolRange(pi);
    if range.Fail? {
      return Fail(Invalid(range.error));
    }
    var server := CheckServerIP(pi, []);
    if server.Fail? {
      return Fail(Invalid(server.error));
    }
    var router := CheckRouter(pi);
    if router.Fail? {
      return Fail(Invalid(router.error));
    }
    return Pass;
  }

  /** Update: a pool being deleted is accepted before anything is checked;
      otherwise the pool's allocated addresses are passed to the server check. */
  method Update(pool: IPPool, lookup: NadLookup) returns (r: Outcome<Error>)
    ensures pool.deleting ==> r == Pass
    ensures !pool.deleting ==> r == Admit(pool, pool.allocatedIPs, lookup)
  {
    if pool.deleting {
      return Pass;
    }
    if pool.loaded.Failure? {
      return Fail(LoadFailed(pool.loaded.error));
    }
    var pi := pool.loaded.value;
    var nad := CheckNAD(pool.networkName, lookup);
    if nad.Some? {
      return Fail(Lookup(nad.value));
    }
    var range := CheckPoolRange(pi);
    if range.Fail? {
      return Fail(Invalid(range.error));
    }
    var server := CheckServerIP(pi, pool.allocatedIPs);
    if server.Fail? {
      return Fail(Invalid(server.error));
    }
    var router := CheckRouter(pi);
    if router.Fail? {
      return Fail(Invalid(router.error));
    }
    return Pass;
  }

  /** The roles checked before `role` are all fine. */
  lemma EarlierRolesOk(pi: PoolInfo, role: Role, allocatedIPs: seq<Addr>)
    ensures (forall earlier :: RoleRank(earlier) < RoleRank(role) ==> RoleOk(pi, earlier, allocatedIPs)) <==>
      match role
      case Start => true
      case End => RoleOk(pi, Start, allocatedIPs)
      case Server => RoleOk(pi, Start, allocatedIPs) && RoleOk(pi, End, allocatedIPs)
      case Router => RoleOk(pi, Start, allocatedIPs) && RoleOk(pi, End, allocatedIPs) && RoleOk(pi, Server, allocatedIPs)
  {
    assert RoleRank(Start) == 0 && RoleRank(End) == 1 && RoleRank(Server) == 2;
  }

  /** The address checks pass exactly when every present address breaks none
      of the rules of its role. */
  lemma {:induction false} AddressChecksAccept(pi: PoolInfo, allocatedIPs: seq<Addr>)
    ensures AddressChecks(pi, allocatedIPs).Pass? <==> AllRolesOk(pi, allocatedIPs)
  {
    CheckPoolRangeAccepts(pi, allocatedIPs);
    ServerVerdictAccepts(pi, allocatedIPs);
    CheckRouterAccepts(pi, allocatedIPs);
    if AllRolesOk(pi, allocatedIPs) {
      assert RoleOk(pi, Start, allocatedIPs) && RoleOk(pi, End, allocatedIPs);
      assert RoleOk(pi, Server, allocatedIPs) && RoleOk(pi, Router, allocatedIPs);
    }
  }

  /** The address checks report the first rule broken by the first role, in
      the order start, end, server, router, whose address breaks a rule. */
  lemma {:induction false} AddressChecksReject(pi: PoolInfo, allocatedIPs: seq<Addr>, v: Violation)
    ensures AddressChecks(pi, allocatedIPs) == Fail(v) <==>
      && AddrOf(pi, v.role) == Some(v.addr)
      && FirstBroken(v.role, v.rule, v.addr, pi, allocatedIPs)
      && forall earlier :: RoleRank(earlier) < RoleRank(v.role) ==> RoleOk(pi, earlier, allocatedIPs)
  {
    CheckPoolRangeAccepts(pi, allocatedIPs);
    CheckPoolRangeRejects(pi, allocatedIPs, v);
    ServerVerdictAccepts(pi, allocatedIPs);
    ServerVerdictRejects(pi, allocatedIPs, v);
    CheckRouterRejects(pi, allocatedIPs, v);
    EarlierRolesOk(pi, v.role, allocatedIPs);
  }

  /** A pool is admitted exactly when it parses, its network exists and every
      present address breaks none of the rules of its role. */
  lemma {:induction false} AdmitAccepts(pool: IPPool, allocatedIPs: seq<Addr>, lookup: NadLookup)
    ensures Admit(pool, allocatedIPs, lookup).Pass? <==>
      && pool.loaded.Success?
      && CheckNAD(pool.networkName, lookup).None?
      && AllRolesOk(pool.loaded.value, allocatedIPs)
  {
    if pool.loaded.Success? {
      AddressChecksAccept(pool.loaded.value, allocatedIPs);
    }
  }

  /** The first failing stage decides the error: a parse failure, then a
      failed network lookup (propagated unchanged), then the first address
      violation. */
  lemma {:induction false} AdmitRejects(pool: IPPool, allocatedIPs: seq<Addr>, lookup: NadLookup, v: Violation)
    ensures pool.loaded.Failure? ==> Admit(pool, allocatedIPs, lookup) == Fail(LoadFailed(pool.loaded.error))
    ensures pool.loaded.Success? && CheckNAD(pool.networkName, lookup).Some? ==>
      Admit(pool, allocatedIPs, lookup) == Fail(Lookup(CheckNAD(pool.networkName, lookup).value))
    ensures Admit(pool, allocatedIPs, lookup) == Fail(Invalid(v)) <==>
      && pool.loaded.Success?
      && CheckNAD(pool.networkName, lookup).None?
      && AddrOf(pool.loaded.value, v.role) == Some(v.addr)
      && FirstBroken(v.role, v.rule, v.addr, pool.loaded.value, allocatedIPs)
      && forall earlier :: RoleRank(earlier) < RoleRank(v.role) ==> RoleOk(pool.loaded.value, earlier, allocatedIPs)
  {
    if pool.loaded.Success? {
      AddressChecksReject(pool.loaded.value, allocatedIPs, v);
    }
  }

  /** A pool the address checks reject without the allocated addresses is
      rejected with them too, for the same reason unless that reason concerns
      the router; and the reason is never an allocated server address. */
  lemma {:induction false} AddressChecksAllocationFail(pi: PoolInfo, allocatedIPs: seq<Addr>)
    requires AddressChecks(pi, []).Fail?
    ensures AddressChecks(pi, []).error.rule != AlreadyAllocated
    ensures AddressChecks(pi, allocatedIPs).Fail?
    ensures AddressChecks(pi, []).error.role != Router ==> AddressChecks(pi, allocatedIPs) == AddressChecks(pi, [])
  {
    var range := CheckPoolRange(pi);
    var without := ServerVerdict(pi, []);
    var with := ServerVerdict(pi, allocatedIPs);
    var router := CheckRouter(pi);
    assert AddressChecks(pi, []) == if range.Fail? then range else if without.Fail? then without else router;
    assert AddressChecks(pi, allocatedIPs) == if range.Fail? then range else if with.Fail? then with else router;
    if range.Fail? {
      if pi.start.Some? && CheckInSubnet(Start, pi.start.value, pi).Fail? {
        CheckInSubnetSpec(Start, pi.start.value, pi, []);
      } else {
        CheckInSubnetSpec(End, pi.end.value, pi, []);
      }
    } else if without.Fail? {
      AllocationRule(pi, allocatedIPs);
    } else {
      AllocationRule(pi, allocatedIPs);
      assert router.error.role == Router;
      CheckInSubnetSpec(Router, pi.router.value, pi, []);
    }
  }

  /** Of the pools the address checks accept without the allocated addresses,
      exactly those whose server address is allocated are rejected with them. */
  lemma {:induction false} AddressChecksAllocationPass(pi: PoolInfo, allocatedIPs: seq<Addr>)
    requires AddressChecks(pi, []).Pass?
    ensures if pi.server.Some? && pi.server.value in allocatedIPs
      then AddressChecks(pi, allocatedIPs) == Fail(Violation(Server, AlreadyAllocated, pi.server.value))
      else AddressChecks(pi, allocatedIPs) == Pass
  {
    AllocationRule(pi, allocatedIPs);
    assert CheckPoolRange(pi).Pass? && ServerVerdict(pi, []).Pass? && CheckRouter(pi).Pass?;
  }

  /** The admission pipeline without the allocated addresses (as Create runs
      it) never reports an allocated server address. For a pool not being
      deleted, Update runs it with the pool's allocated addresses: it then
      rejects whatever Create rejects, for the same reason unless Create got as
      far as the router check (Update may stop earlier, at an allocated server
      address); and of the pools Create accepts, it rejects exactly those
      whose server address is allocated. A pool being deleted passes Update
      before any of this runs. */
  lemma {:induction false} CreateIgnoresAllocation(pool: IPPool, lookup: NadLookup)
    ensures var created := Admit(pool, [], lookup);
      created.Fail? && created.error.Invalid? ==> created.error.violation.rule != AlreadyAllocated
    ensures var created := Admit(pool, [], lookup);
      created.Fail? ==>
        && Admit(pool, pool.allocatedIPs, lookup).Fail?
        && (!(created.error.Invalid? && created.error.violation.role == Router) ==>
              Admit(pool, pool.allocatedIPs, lookup) == created)
    ensures Admit(pool, [], lookup).Pass? ==>
      var s := pool.loaded.value.server;
      if s.Some? && s.value in pool.allocatedIPs
      then Admit(pool, pool.allocatedIPs, lookup) == Fail(Invalid(Violation(Server, AlreadyAllocated, s.value)))
      else Admit(pool, pool.allocatedIPs, lookup) == Pass
  {
    if pool.loaded.Success? && CheckNAD(pool.networkName, lookup).None? {
      if AddressChecks(pool.loaded.value, []).Fail? {
        AddressChecksAllocationFail(pool.loaded.value, pool.allocatedIPs);
      } else {
        AddressChecksAllocationPass(pool.loaded.value, pool.allocatedIPs);
      }
    }
  }

  // ---------------------------------------------------------------------------
  // Delete (checkVmNetCfgs)
  // ---------------------------------------------------------------------------

  /** How a dependent configuration is named in the error: "namespace/name". */
  function QualifiedName(c: VmNetCfgRef): string
  {
    c.namespace + "/" + c.name
  }

  /** The qualified names of the configurations, in order. */
  function QualifiedNames(cs: seq<VmNetCfgRef>): seq<string>
  {
    seq(|cs|, i requires 0 <= i < |cs| => QualifiedName(cs[i]))
  }

  const InUsePrefix: string := "it's still used by VirtualMachineNetworkConfig(s) "
  const InUseSuffix: string := ", which must be removed at first"
  const NameSeparator: string := ", "

  /** The error text for a pool still used by the configurations `names`. */
  function InUseMessage(names: seq<string>): string
  {
    InUsePrefix + Join(names, NameSeparator) + InUseSuffix
  }

  /** What deleting a pool decides, given the outcome of looking up the
      configurations that use it: a failed lookup is propagated, any user
      blocks the deletion, and no user lets it through. */
  function DeleteVerdict(dependents: Result<seq<VmNetCfgRef>, LookupError>): Outcome<Error>
  {
    match dependents
    case Failure(e) => Fail(Lookup(e))
    case Success(cs) => if |cs| == 0 then Pass else Fail(StillUsed(InUseMessage(QualifiedNames(cs))))
  }

  /** checkVmNetCfgs, collecting the qualified names one configuration at a time. */
  method CheckVmNetCfgs(dependents: Result<seq<VmNetCfgRef>, LookupError>) returns (r: Outcome<Error>)
    ensures r == DeleteVerdict(dependents)
  {
    if dependents.Failure? {
      return Fail(Lookup(dependents.error));
    }
    var cs := dependents.value;
    if |cs| > 0 {
      var names: seq<string> := [];
      for i := 0 to |cs|
        invariant |names| == i
        invariant forall j :: 0 <= j < i ==> names[j] == QualifiedName(cs[j])
      {
        names := names + [QualifiedName(cs[i])];
      }
      assert names == QualifiedNames(cs);
      return Fail(StillUsed(InUseMessage(names)));
    }
    return Pass;
  }

  /** Deletion is accepted exactly when the lookup succeeds and finds no
      configuration; a failed lookup is returned unchanged. */
  lemma DeleteGate(dependents: Result<seq<VmNetCfgRef>, LookupError>)
    ensures DeleteVerdict(dependents).Pass? <==> dependents == Success([])
    ensures dependents.Failure? ==> DeleteVerdict(dependents) == Fail(Lookup(dependents.error))
    ensures dependents.Success? && |dependents.value| > 0 ==> DeleteVerdict(dependents).error.StillUsed?
  {
  }

  /** Where the name of configuration `i` starts in the deletion error. */
  function MentionAt(cs: seq<VmNetCfgRef>, i: nat): nat
    requires i < |cs|
  {
    |InUsePrefix| + JoinOffset(QualifiedNames(cs), NameSeparator, i)
  }

  /** The deletion error names every configuration that uses the pool, as
      "namespace/name", in list order. */
  lemma {:induction false} DeleteNamesEveryUser(cs: seq<VmNetCfgRef>, i: nat)
    requires i < |cs|
    ensures DeleteVerdict(Success(cs)).Fail? && DeleteVerdict(Success(cs)).error.StillUsed?
    ensures var msg := DeleteVerdict(Success(cs)).error.message;
      && MentionAt(cs, i) + |QualifiedName(cs[i])| <= |msg|
      && msg[MentionAt(cs, i)..MentionAt(cs, i) + |QualifiedName(cs[i])|] == QualifiedName(cs[i])
  {
    var names := QualifiedNames(cs);
    JoinContains(names, NameSeparator, i);
    var k := JoinOffset(names, NameSeparator, i);
    SliceInMiddle(InUsePrefix, Join(names, NameSeparator), InUseSuffix, k, k + |names[i]|);
  }

  /** In the deletion error each name is followed by ", " and then by the
      next name, so the names appear in list order without overlapping. */
  lemma {:induction false} DeleteNamesInOrder(cs: seq<VmNetCfgRef>, i: nat)
    requires i + 1 < |cs|
    ensures DeleteVerdict(Success(cs)).Fail? && DeleteVerdict(Success(cs)).error.StillUsed?
    ensures var msg := DeleteVerdict(Success(cs)).error.message;
      var end := MentionAt(cs, i) + |QualifiedName(cs[i])|;
      && MentionAt(cs, i + 1) == end + |NameSeparator|
      && end + |NameSeparator| <= |msg|
      && msg[end..end + |NameSeparator|] == NameSeparator
  {
    var names := QualifiedNames(cs);
    JoinContains(names, NameSeparator, i);
    JoinOffsetStep(names, NameSeparator, i);
    var e := JoinOffset(names, NameSeparator, i) + |names[i]|;
    SliceInMiddle(InUsePrefix, Join(names, NameSeparator), InUseSuffix, e, e + |NameSeparator|);
  }

  // ---------------------------------------------------------------------------
  // Error messages
  // ---------------------------------------------------------------------------

  /** The text before the address: "<role> ip ". */
  function Lead(role: Role): string
  {
    match role
    case Start => "start ip "
    case End => "end ip "
    case Server => "server ip "
    case Router => "router ip "
  }

  /** The text after the address. The server's messages say "cannot be"
      where the others say "is". */
  function Tail(role: Role, rule: Rule): string
  {
    match rule
    case NotWithinSubnet => " is not within subnet"
    case SameAsNetwork =>
      if role == Server then " cannot be the same as network ip" else " is the same as network ip"
    case SameAsBroadcast =>
      if role == Server then " cannot be the same as broadcast ip" else " is the same as broadcast ip"
    case SameAsRouter => " cannot be the same as router ip"
    case AlreadyAllocated => " is already allocated"
  }

  /** The text of a rule violation: the role, the address in dotted decimal
      and the wording of the rule. */
  function ViolationMessage(v: Violation): string
  {
    Lead(v.role) + Dotted(v.addr) + Tail(v.role, v.rule)
  }
}
