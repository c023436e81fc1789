/** The operator command handlers of sharpd: the route install and remove
    commands, which overwrite the process-wide route descriptor `sg.r` and
    hand a request to the route helpers; the nexthop watch commands; the
    VRF label command; and the route data dump.

    Calls into code outside the handlers (the install and remove helpers,
    the nexthop tracker, the zebra nexthop watch, vrf_label_add) are
    modelled as Requests, in the order the handler issues them. The
    nexthop-group registry and the VRF table are passed in as maps. */
module SharpVty {
  import opened Prefixes
  import opened Nexthops
  import opened Timevals

  datatype Option<T> = None | Some(value: T)

  /** The CLI return codes the handlers use. */
  datatype CmdStatus = CmdSuccess | CmdWarning | CmdWarningConfigFailed

  datatype Afi = AfiIp | AfiIp6

  type VrfId = nat

  const VRF_DEFAULT: VrfId := 0

  /** MPLS_LABEL_NONE, the label value that asks for the label to be
      removed. */
  const MPLS_LABEL_NONE: nat := 0xFFFF_FFFF

  /** A call a handler makes into code outside this file, with its
      arguments. */
  datatype Request =
    | InstallRoutesHelper(prefix: Prefix, inst: nat, nexthops: seq<Nexthop>, routes: nat)
    | RemoveRoutesHelper(prefix: Prefix, inst: nat, routes: nat)
    | NhTrackerGet(prefix: Prefix)
    | ZebraNexthopWatch(prefix: Prefix, watch: bool, connected: bool)
    | VrfLabelAdd(vrfId: VrfId, afi: Afi, mplsLabel: nat)

  /** A handler's return code and the calls it made. */
  datatype Reply = Reply(status: CmdStatus, requests: seq<Request>)

  /* ---------------------------------------------------------------- */
  /* The route descriptor sg.r                                         */
  /* ---------------------------------------------------------------- */

  /** The value of the route descriptor, field by field. */
  datatype Descriptor = Descriptor(
    origPrefix: Prefix,
    totalRoutes: nat,
    installedRoutes: nat,
    removedRoutes: nat,
    repeat: nat,
    nhop: Nexthop,
    nhopGroup: GroupRef,
    inst: nat,
    tStart: Timeval,
    tEnd: Timeval)

  /** The descriptor at process start: a zero-initialised global. */
  const InitialDescriptor: Descriptor :=
    Descriptor(ZeroPrefix, 0, 0, 0, 0, ZeroNexthop, NullGroup, 0,
               Timeval(0, 0), Timeval(0, 0))

  /** What the handlers keep true of the descriptor: the prefix is zero or a
      host prefix, the descriptor holds a single nexthop exactly when the
      group points at it, the repeat budget is 0 or an even count of at
      least two cycles, and the instance fits its 8-bit field. */
  predicate Consistent(d: Descriptor)
  {
    (d.origPrefix == ZeroPrefix || IsHostPrefix(d.origPrefix)) &&
    (d.nhopGroup.OwnNexthop? <==> d.nhop.ntype != NexthopTypeUnset) &&
    (d.repeat == 0 || (d.repeat % 2 == 0 && 4 <= d.repeat <= 2000)) &&
    d.inst <= 255
  }

  /** The nexthops the descriptor's group pointer reaches. */
  function RunNexthops(d: Descriptor): seq<Nexthop>
  {
    GroupNexthops(d.nhopGroup, d.nhop)
  }

  /* ---------------------------------------------------------------- */
  /* install routes                                                    */
  /* ---------------------------------------------------------------- */

  /** The parsed arguments of "sharp install routes": an absent address is
      all-zero, an absent nexthop-group None, an absent instance or repeat
      0. */
  datatype InstallArgs = InstallArgs(
    start4: InAddr,
    start6: In6Addr,
    nexthop4: InAddr,
    nexthop6: In6Addr,
    nexthopGroup: Option<string>,
    routes: int,
    instance: int,
    rpt: int)

  /** The ranges the command grammar enforces before the handler runs. */
  predicate InstallArgsInRange(a: InstallArgs)
  {
    1 <= a.routes <= 1000000 &&
    0 <= a.instance <= 255 &&
    (a.rpt == 0 || 2 <= a.rpt <= 1000)
  }

  /** The repeat budget: one install and one remove step per requested
      cycle, 0 when no repeat was asked for. */
  function RepeatBudget(rpt: int): (r: nat)
    requires rpt == 0 || 2 <= rpt <= 1000
    ensures r == 2 * rpt
    ensures r == 0 || (r % 2 == 0 && 4 <= r <= 2000)
  {
    if rpt >= 2 then rpt * 2 else 0
  }

  /** True when the command names a nexthop-group the registry lacks. */
  predicate UnknownGroup(a: InstallArgs, registry: map<string, seq<Nexthop>>)
  {
    a.nexthopGroup.Some? && a.nexthopGroup.value !in registry
  }

  /** The descriptor after "sharp install routes", its return code and the
      calls it made. The counters, the repeat budget and the prefix are
      overwritten and the nexthop cleared before the nexthop-group lookup,
      so an unknown group leaves them overwritten. */
  function InstallEffect(d: Descriptor, a: InstallArgs, registry: map<string, seq<Nexthop>>)
    : (o: (Descriptor, Reply))
    requires InstallArgsInRange(a)
    ensures o.0.totalRoutes == a.routes && o.0.installedRoutes == 0
    ensures o.0.repeat == 2 * a.rpt
    ensures o.0.origPrefix == StartPrefix(a.start4, a.start6)
    ensures o.0.removedRoutes == d.removedRoutes
    ensures o.0.tStart == d.tStart && o.0.tEnd == d.tEnd
    ensures o.1.status == CmdWarning <==> UnknownGroup(a, registry)
    ensures o.1.status != CmdWarningConfigFailed
    ensures o.1.status == CmdWarning ==>
      o.1.requests == [] && o.0.inst == d.inst &&
      o.0.nhop == ZeroNexthop && o.0.nhopGroup == NullGroup
    ensures a.nexthopGroup.Some? ==> o.0.nhop == ZeroNexthop
    ensures a.nexthopGroup.None? ==>
      o.0.nhop == GatewayNexthop(a.nexthop4, a.nexthop6) && o.0.nhopGroup == OwnNexthop
    ensures o.1.status == CmdSuccess ==>
      o.0.inst == a.instance &&
      RunNexthops(o.0) == (if a.nexthopGroup.Some? then registry[a.nexthopGroup.value]
                        else [GatewayNexthop(a.nexthop4, a.nexthop6)]) &&
      o.1.requests == [InstallRoutesHelper(o.0.origPrefix, a.instance, RunNexthops(o.0), a.routes)]
    ensures o.1.status == CmdSuccess && a.nexthopGroup.Some? ==>
      o.0.nhopGroup == Registered(registry[a.nexthopGroup.value])
  {
    var prefix := StartPrefix(a.start4, a.start6);
    var cleared := d.(totalRoutes := a.routes, installedRoutes := 0,
                      repeat := RepeatBudget(a.rpt), origPrefix := prefix,
                      nhop := ZeroNexthop, nhopGroup := NullGroup);
    if UnknownGroup(a, registry) then
      (cleared, Reply(CmdWarning, []))
    else
      var bound :=
        if a.nexthopGroup.Some? then cleared.(nhopGroup := Registered(registry[a.nexthopGroup.value]))
        else cleared.(nhop := GatewayNexthop(a.nexthop4, a.nexthop6), nhopGroup := OwnNexthop);
      var d' := bound.(inst := a.instance);
      (d', Reply(CmdSuccess, [InstallRoutesHelper(prefix, d'.inst, RunNexthops(d'), a.routes)]))
  }

  /* ---------------------------------------------------------------- */
  /* remove routes                                                     */
  /* ---------------------------------------------------------------- */

  /** The parsed arguments of "sharp remove routes". */
  datatype RemoveArgs = RemoveArgs(start4: InAddr, start6: In6Addr, routes: int, instance: int)

  predicate RemoveArgsInRange(a: RemoveArgs)
  {
    1 <= a.routes <= 1000000 && 0 <= a.instance <= 255
  }

  /** The descriptor after "sharp remove routes" and the one call it makes:
      only the total, the removed counter and the instance are written; the
      start prefix goes to the remove helper but is not recorded. */
  function RemoveEffect(d: Descriptor, a: RemoveArgs): (o: (Descriptor, Reply))
    requires RemoveArgsInRange(a)
    ensures o.0.totalRoutes == a.routes && o.0.removedRoutes == 0 && o.0.inst == a.instance
    ensures o.0.origPrefix == d.origPrefix && o.0.installedRoutes == d.installedRoutes
    ensures o.0.repeat == d.repeat && o.0.nhop == d.nhop && o.0.nhopGroup == d.nhopGroup
    ensures o.0.tStart == d.tStart && o.0.tEnd == d.tEnd
    ensures o.1.status == CmdSuccess
    ensures o.1.requests == [RemoveRoutesHelper(StartPrefix(a.start4, a.start6), a.instance, a.routes)]
  {
    var d' := d.(totalRoutes := a.routes, removedRoutes := 0, inst := a.instance);
    (d', Reply(CmdSuccess, [RemoveRoutesHelper(StartPrefix(a.start4, a.start6), d'.inst, a.routes)]))
  }

  /* ---------------------------------------------------------------- */
  /* Properties of the two commands                                    */
  /* ---------------------------------------------------------------- */

  lemma InitialConsistent()
    ensures Consistent(InitialDescriptor)
  {
  }

  /** An install keeps the descriptor consistent, on success and on an
      unknown nexthop-group alike (where the instance keeps its old value). */
  lemma InstallPreservesConsistent(d: Descriptor, a: InstallArgs, registry: map<string, seq<Nexthop>>)
    requires InstallArgsInRange(a)
    requires Consistent(d)
    ensures Consistent(InstallEffect(d, a, registry).0)
  {
  }

  lemma RemovePreservesConsistent(d: Descriptor, a: RemoveArgs)
    requires RemoveArgsInRange(a)
    requires Consistent(d)
    ensures Consistent(RemoveEffect(d, a).0)
  {
  }

  /** On an unknown nexthop-group the install has already overwritten the
      total, the installed counter, the repeat budget and the prefix and
      cleared both nexthop fields; only these differ from the old
      descriptor, and the instance keeps its old value. */
  lemma UnknownGroupOverwritesPartially(d: Descriptor, a: InstallArgs, registry: map<string, seq<Nexthop>>)
    requires InstallArgsInRange(a) && UnknownGroup(a, registry)
    ensures InstallEffect(d, a, registry).0 ==
      d.(totalRoutes := a.routes, installedRoutes := 0, repeat := 2 * a.rpt,
         origPrefix := StartPrefix(a.start4, a.start6),
         nhop := ZeroNexthop, nhopGroup := NullGroup)
  {
  }

  /** Issuing the same install command twice leaves the same descriptor and
      makes the same calls as issuing it once. */
  lemma InstallIdempotent(d: Descriptor, a: InstallArgs, registry: map<string, seq<Nexthop>>)
    requires InstallArgsInRange(a)
    ensures InstallEffect(InstallEffect(d, a, registry).0, a, registry) == InstallEffect(d, a, registry)
  {
  }

  /** Removing right after installing from the same start address leaves
      the install's prefix, nexthops and repeat budget in place and asks to
      remove from the prefix the install recorded. */
  lemma RemoveAfterInstallKeepsRun(d: Descriptor, a: InstallArgs, registry: map<string, seq<Nexthop>>, r: RemoveArgs)
    requires InstallArgsInRange(a) && RemoveArgsInRange(r)
    requires r.start4 == a.start4 && r.start6 == a.start6
    ensures var installed := InstallEffect(d, a, registry).0;
            var (removed, reply) := RemoveEffect(installed, r);
            removed.origPrefix == installed.origPrefix &&
            RunNexthops(removed) == RunNexthops(installed) &&
            removed.repeat == installed.repeat &&
            reply.requests == [RemoveRoutesHelper(installed.origPrefix, r.instance, r.routes)]
  {
  }

  /** The counters are not kept within the total: a remove command resets
      the total and the removed counter but keeps the installed counter of
      an earlier, larger run. */
  lemma RemoveLeavesInstalledAboveTotal()
    ensures var d := InitialDescriptor.(totalRoutes := 100, installedRoutes := 100);
            var a := RemoveArgs(INADDR_ANY, IN6ADDR_ANY, 5, 0);
            var d' := RemoveEffect(d, a).0;
            d'.installedRoutes > d'.totalRoutes
  {
  }

  /* ---------------------------------------------------------------- */
  /* The commands that do not touch the descriptor                     */
  /* ---------------------------------------------------------------- */

  /** "sharp watch nexthop X:X::X:X [connected]": register the /128 host
      prefix with the tracker, then ask zebra to watch it. */
  function WatchNexthopV6(nhop: In6Addr, connected: bool): (r: Reply)
    ensures r.status == CmdSuccess && |r.requests| == 2
    ensures r.requests[0].NhTrackerGet? && r.requests[1].ZebraNexthopWatch?
    ensures var p := r.requests[0].prefix;
            IsHostPrefix(p) && p.family == AfInet6 && p.prefixlen == 128 && Addr6(p) == nhop &&
            r.requests[1] == ZebraNexthopWatch(p, true, connected)
  {
    var p := HostPrefix6(nhop);
    Reply(CmdSuccess, [NhTrackerGet(p), ZebraNexthopWatch(p, true, connected)])
  }

  /** "sharp watch nexthop A.B.C.D [connected]": the same with the /32 host
      prefix. */
  function WatchNexthopV4(nhop: InAddr, connected: bool): (r: Reply)
    ensures r.status == CmdSuccess && |r.requests| == 2
    ensures r.requests[0].NhTrackerGet? && r.requests[1].ZebraNexthopWatch?
    ensures var p := r.requests[0].prefix;
            IsHostPrefix(p) && p.family == AfInet && p.prefixlen == 32 && Addr4(p) == nhop &&
            r.requests[1] == ZebraNexthopWatch(p, true, connected)
  {
    var p := HostPrefix4(nhop);
    Reply(CmdSuccess, [NhTrackerGet(p), ZebraNexthopWatch(p, true, connected)])
  }

  /** The VRF table, through its two lookups: by id and by name. */
  datatype VrfTable = VrfTable(ids: set<VrfId>, byName: map<string, VrfId>)

  /** "default" is looked up as VRF_DEFAULT by id, any other name by name. */
  function LookupVrf(name: string, vrfs: VrfTable): (r: Option<VrfId>)
    ensures name == "default" ==> (r.Some? <==> VRF_DEFAULT in vrfs.ids)
    ensures name == "default" && r.Some? ==> r.value == VRF_DEFAULT
    ensures name != "default" ==> (r.Some? <==> name in vrfs.byName)
    ensures name != "default" && r.Some? ==> r.value == vrfs.byName[name]
  {
    if name == "default" then
      if VRF_DEFAULT in vrfs.ids then Some(VRF_DEFAULT) else None
    else if name in vrfs.byName then Some(vrfs.byName[name]) else None
  }

  /** The label sent to zebra: 0 asks for removal and becomes
      MPLS_LABEL_NONE, any other label of the grammar's range is sent as it
      is. */
  function LabelToSend(mplsLabel: nat): (l: nat)
    requires mplsLabel <= 100000
    ensures l == MPLS_LABEL_NONE <==> mplsLabel == 0
    ensures mplsLabel != 0 ==> l == mplsLabel
  {
    if mplsLabel == 0 then MPLS_LABEL_NONE else mplsLabel
  }

  /** "sharp label <ip|ipv6> vrf NAME label (0-100000)". */
  function VrfLabel(ipv4: bool, name: string, mplsLabel: nat, vrfs: VrfTable): (r: Reply)
    requires mplsLabel <= 100000
    ensures r.status == CmdWarningConfigFailed <==> LookupVrf(name, vrfs).None?
    ensures r.status != CmdWarning
    ensures r.status == CmdWarningConfigFailed ==> r.requests == []
    ensures r.status == CmdSuccess ==>
      r.requests == [VrfLabelAdd(LookupVrf(name, vrfs).value,
                                 if ipv4 then AfiIp else AfiIp6,
                                 LabelToSend(mplsLabel))]
  {
    var afi := if ipv4 then AfiIp else AfiIp6;
    match LookupVrf(name, vrfs)
    case None => Reply(CmdWarningConfigFailed, [])
    case Some(id) => Reply(CmdSuccess, [VrfLabelAdd(id, afi, LabelToSend(mplsLabel))])
  }

  /** The start-prefix code both route handlers share: clear a local
      prefix, then write family, length and address for IPv4 when the IPv4
      start address is not all-zero, for IPv6 otherwise. */
  method FillStartPrefix(start4: InAddr, start6: In6Addr) returns (prefix: Prefix)
    ensures prefix == StartPrefix(start4, start6)
  {
    prefix := ZeroPrefix;
    if start4 != INADDR_ANY {
      prefix := prefix.(family := AfInet);
      prefix := prefix.(prefixlen := 32);
      prefix := prefix.(u := start4 + prefix.u[4..]);
      assert prefix.u[4..] == Zeros(12);
    } else {
      prefix := prefix.(family := AfInet6);
      prefix := prefix.(prefixlen := 128);
      prefix := prefix.(u := start6);
    }
  }

  /* ---------------------------------------------------------------- */
  /* The descriptor object                                             */
  /* ---------------------------------------------------------------- */

  /** `sg.r`, the route descriptor the handlers update in place. The
      timestamps are written by the zebra client, not by these handlers. */
  class RouteData {
    var origPrefix: Prefix
    var totalRoutes: nat
    var installedRoutes: nat
    var removedRoutes: nat
    var repeat: nat
    var nhop: Nexthop
    var nhopGroup: GroupRef
    var inst: nat
    var tStart: Timeval
    var tEnd: Timeval

    /** The calls the handlers have made, oldest first. */
    ghost var requests: seq<Request>

    function View(): Descriptor
      reads this
    {
      Descriptor(origPrefix, totalRoutes, installedRoutes, removedRoutes, repeat,
                 nhop, nhopGroup, inst, tStart, tEnd)
    }

    constructor ()
      ensures View() == InitialDescriptor && requests == []
    {
      origPrefix := ZeroPrefix;
      totalRoutes, installedRoutes, removedRoutes, repeat := 0, 0, 0, 0;
      nhop := ZeroNexthop;
      nhopGroup := NullGroup;
      inst := 0;
      tStart, tEnd := Timeval(0, 0), Timeval(0, 0);
      requests := [];
    }

    /** The install_routes handler, overwriting the fields in the order the
        source does and returning early on an unknown nexthop-group. */
    method InstallRoutes(a: InstallArgs, registry: map<string, seq<Nexthop>>) returns (status: CmdStatus)
      requires InstallArgsInRange(a)
      modifies this
      ensures View() == InstallEffect(old(View()), a, registry).0
      ensures status == InstallEffect(old(View()), a, registry).1.status
      ensures requests == old(requests) + InstallEffect(old(View()), a, registry).1.requests
    {
      totalRoutes := a.routes;
      installedRoutes := 0;

      if a.rpt >= 2 {
        repeat := a.rpt * 2;
      } else {
        repeat := 0;
      }

      origPrefix := ZeroPrefix;
      nhop := ZeroNexthop;
      nhopGroup := NullGroup;

      var prefix := FillStartPrefix(a.start4, a.start6);
      origPrefix := prefix;

      if a.nexthopGroup.Some? {
        var name := a.nexthopGroup.value;
        if name !in registry {
          status := CmdWarning;
          return;
        }
        nhopGroup := Registered(registry[name]);
      } else {
        if a.nexthop4 != INADDR_ANY {
          nhop := nhop.(gate := a.nexthop4 + nhop.gate[4..]);
          nhop := nhop.(ntype := NexthopTypeIpv4);
        } else {
          nhop := nhop.(gate := a.nexthop6);
          nhop := nhop.(ntype := NexthopTypeIpv6);
        }
        nhopGroup := OwnNexthop;
      }

      inst := a.instance;
      var rts := a.routes;
      requests := requests + [InstallRoutesHelper(prefix, inst, GroupNexthops(nhopGroup, nhop), rts)];
      status := CmdSuccess;
    }

    /** The remove_routes handler. */
    method RemoveRoutes(a: RemoveArgs) returns (status: CmdStatus)
      requires RemoveArgsInRange(a)
      modifies this
      ensures View() == RemoveEffect(old(View()), a).0
      ensures status == CmdSuccess
      ensures requests == old(requests) + RemoveEffect(old(View()), a).1.requests
    {
      totalRoutes := a.routes;
      removedRoutes := 0;

      var prefix := FillStartPrefix(a.start4, a.start6);

      inst := a.instance;
      var rts := a.routes;
      requests := requests + [RemoveRoutesHelper(prefix, inst, rts)];
      status := CmdSuccess;
    }

    /** The install_routes_data_dump handler: the values it prints, with the
        elapsed time of the last run; it changes nothing. */
    method DataDump() returns (prefix: Prefix, total: nat, installed: nat, removed: nat, elapsed: Timeval)
      ensures prefix == origPrefix && total == totalRoutes
      ensures installed == installedRoutes && removed == removedRoutes
      ensures Micros(elapsed) == Micros(tEnd) - Micros(tStart)
      ensures Normalized(tEnd) && Normalized(tStart) ==> Normalized(elapsed)
      ensures elapsed == TimerSub(tEnd, tStart)
    {
      elapsed := TimerSub(tEnd, tStart);
      prefix, total, installed, removed := origPrefix, totalRoutes, installedRoutes, removedRoutes;
    }
  }
}
