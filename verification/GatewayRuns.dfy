/**
 The gateway store as an object fed by pings and ticks, and what it knows after any run of them.
 Only the WebRTC service is followed.
 */
module GatewayRuns {
  import opened Options
  import opened NodeLists
  import opened GatewayStore

  datatype Stats = Stats(live: nat, max: nat, active: bool)
  datatype Origin = Media | Gateway(zone: nat, location: Option<Location>)
  datatype PingEvent = PingEvent(cpu: nat, memory: nat, disk: nat, origin: Origin, webrtc: Option<Stats>)
  datatype Limits = Limits(maxCpu: nat, maxMemory: nat, maxDisk: nat)

  predicate WithinLimits(lim: Limits, p: PingEvent) {
    p.cpu < lim.maxCpu && p.memory < lim.maxMemory && p.disk < lim.maxDisk
  }

  /** The percentage is divided by a positive maximum. */
  predicate Computable(p: PingEvent) {
    p.webrtc.Some? && p.webrtc.value.active ==> p.webrtc.value.max > 0
  }

  function NodeUsage(lim: Limits, p: PingEvent): Option<nat> {
    if WithinLimits(lim, p) then Some(p.cpu) else None
  }

  /**
   The larger of the processor's and the service's load.  The latter is computed in 32 bits, which
   wrap around as in a release build, and keeps only its low eight bits.
   */
  function WebrtcUsage(lim: Limits, p: PingEvent): Option<nat>
    requires Computable(p)
  {
    if !WithinLimits(lim, p) || p.webrtc.None? || !p.webrtc.value.active then None
    else
      var load := (((p.webrtc.value.live * 100) % 0x1_0000_0000) / p.webrtc.value.max) % 256;
      Some(if p.cpu >= load then p.cpu else load)
  }

  // ---------------------------------------------------------------- one event

  datatype Event = Pinged(now: nat, from: nat, ping: PingEvent) | Ticked(now: nat)

  predicate EventOk(e: Event) {
    e.Pinged? ==> Computable(e.ping)
  }

  function OnPing(lim: Limits, s: Store, now: nat, from: nat, p: PingEvent): Store
    requires Computable(p)
  {
    var node, webrtc := NodeUsage(lim, p), WebrtcUsage(lim, p);
    match p.origin
    case Media =>
      if node.Some? && webrtc.Some? && p.webrtc.Some? then s.(localSources := Ping(s.localSources, now, from, webrtc.value))
      else s.(localSources := Remove(s.localSources, from))
    case Gateway(zone, location) =>
      if zone == s.zone then s
      else if node.Some? && webrtc.Some? && location.Some? && p.webrtc.Some? then
        s.(zoneSources := PingZone(s.zoneSources, now, zone, from, node.value, location.value, webrtc.value),
           localSources := Sort(s.localSources))
      else s.(zoneSources := RemoveGateway(s.zoneSources, zone, from))
  }

  function OnTick(s: Store, now: nat): Store {
    s.(localSources := Unexpired(s.localSources, now), zoneSources := UnexpiredZones(s.zoneSources, now))
  }

  function Next(lim: Limits, s: Store, e: Event): Store
    requires EventOk(e)
  {
    match e
    case Pinged(now, from, p) => OnPing(lim, s, now, from, p)
    case Ticked(now) => OnTick(s, now)
  }

  // ---------------------------------------------------------------- the store as an object

  class GatewayStoreObject {
    const zone: nat
    const location: Location
    const limits: Limits
    var localSources: seq<NodeSource>
    var zoneSources: seq<ZoneSource>

    ghost function View(): Store
      reads this
    {
      Store(zone, location, localSources, zoneSources)
    }

    constructor (zone: nat, location: Location, limits: Limits)
      ensures View() == Store(zone, location, [], []) && this.limits == limits
    {
      this.zone, this.location, this.limits := zone, location, limits;
      localSources, zoneSources := [], [];
    }

    static method FindNodeIndex(list: seq<NodeSource>, node: nat) returns (r: Option<nat>)
      ensures r == Find(list, node)
    {
      for i := 0 to |list|
        invariant Find(list[..i], node).None?
      {
        assert list[..i + 1][..i] == list[..i];
        if list[i].node == node {
          var f := Find(list, node);
          assert forall j :: 0 <= j < i ==> list[..i][j] == list[j];
          assert f.Some?;
          return Some(i);
        }
      }
      assert list[..|list|] == list;
      return None;
    }

    static method FindZoneIndex(zones: seq<ZoneSource>, zone: nat) returns (r: Option<nat>)
      ensures r == FindZone(zones, zone)
    {
      for i := 0 to |zones|
        invariant FindZone(zones[..i], zone).None?
      {
        assert zones[..i + 1][..i] == zones[..i];
        if zones[i].zone == zone {
          var f := FindZone(zones, zone);
          assert forall j :: 0 <= j < i ==> zones[..i][j] == zones[j];
          assert f.Some?;
          return Some(i);
        }
      }
      assert zones[..|zones|] == zones;
      return None;
    }

    method NodePing(now: nat, node: nat, usage: nat)
      modifies this`localSources
      ensures localSources == Ping(old(localSources), now, node, usage)
    {
      var i := FindNodeIndex(localSources, node);
      if i.Some? {
        localSources := localSources[i.value := NodeSource(node, usage, now)];
      } else {
        localSources := localSources + [NodeSource(node, usage, now)];
      }
      localSources := Sort(localSources);
    }

    method RemoveNode(node: nat)
      modifies this`localSources
      ensures localSources == Remove(old(localSources), node)
    {
      var i := FindNodeIndex(localSources, node);
      if i.Some? {
        localSources := localSources[..i.value] + localSources[i.value + 1..];
      }
    }

    method GatewayPing(now: nat, from: nat, zone: nat, gatewayUsage: nat, location: Location, usage: nat)
      modifies this
      ensures zoneSources == PingZone(old(zoneSources), now, zone, from, gatewayUsage, location, usage)
      ensures localSources == Sort(old(localSources))
    {
      var i := FindZoneIndex(zoneSources, zone);
      if i.Some? {
        var z := zoneSources[i.value];
        var g := FindNodeIndex(z.gateways, from);
        var gateways := if g.Some? then z.gateways[g.value := NodeSource(from, gatewayUsage, now)]
                        else z.gateways + [NodeSource(from, gatewayUsage, now)];
        zoneSources := zoneSources[i.value := z.(usage := usage, lastUpdated := now, gateways := Sort(gateways))];
      } else {
        zoneSources := zoneSources + [ZoneSource(zone, usage, location, now, [NodeSource(from, gatewayUsage, now)])];
      }
      localSources := Sort(localSources);
    }

    method DropGateway(zone: nat, gateway: nat)
      modifies this`zoneSources
      ensures zoneSources == RemoveGateway(old(zoneSources), zone, gateway)
    {
      var i := FindZoneIndex(zoneSources, zone);
      if i.Some? {
        var z := zoneSources[i.value];
        var g := FindNodeIndex(z.gateways, gateway);
        if g.Some? {
          z := z.(gateways := z.gateways[..g.value] + z.gateways[g.value + 1..]);
        }
        if z.gateways == [] {
          zoneSources := zoneSources[..i.value] + zoneSources[i.value + 1..];
        } else {
          zoneSources := zoneSources[i.value := z];
        }
      }
    }

    method PingReceived(now: nat, from: nat, p: PingEvent)
      requires Computable(p)
      modifies this
      ensures View() == OnPing(limits, old(View()), now, from, p)
    {
      var node, webrtc := NodeUsage(limits, p), WebrtcUsage(limits, p);
      match p.origin {
        case Media =>
          if node.Some? && webrtc.Some? && p.webrtc.Some? {
            NodePing(now, from, webrtc.value);
          } else {
            RemoveNode(from);
          }
        case Gateway(z, at) =>
          if z == zone {
            return;
          }
          if node.Some? && webrtc.Some? && at.Some? && p.webrtc.Some? {
            GatewayPing(now, from, z, node.value, at.value, webrtc.value);
          } else {
            DropGateway(z, from);
          }
      }
    }

    method Tick(now: nat)
      modifies this
      ensures View() == OnTick(old(View()), now)
    {
      localSources := Unexpired(localSources, now);
      var kept := [];
      for i := 0 to |zoneSources|
        invariant kept == UnexpiredZones(zoneSources[..i], now)
      {
        assert zoneSources[..i + 1][..i] == zoneSources[..i];
        var z := zoneSources[i];
        z := z.(gateways := Unexpired(z.gateways, now));
        if z.gateways != [] {
          kept := kept + [z];
        }
      }
      assert zoneSources[..|zoneSources|] == zoneSources;
      zoneSources := kept;
    }

    method Best(at: Option<Location>) returns (minNode: Option<nat>)
      ensures minNode == BestFor(View(), at)
    {
      var here := if at.Some? then at.value else location;
      var minDis := Distance(location, here);
      minNode := First(localSources);
      for i := 0 to |zoneSources|
        invariant (minNode, minDis) == Nearest(zoneSources[..i], here, First(localSources), Distance(location, here))
      {
        assert zoneSources[..i + 1][..i] == zoneSources[..i];
        var dis := Distance(here, zoneSources[i].location);
        if minNode.None? || minDis > dis {
          minDis := dis;
          minNode := First(zoneSources[i].gateways);
        }
      }
      assert zoneSources[..|zoneSources|] == zoneSources;
    }

    method Dest(dest: nat) returns (r: Option<nat>)
      ensures r == DestFor(View(), dest)
    {
      if ZoneOf(dest) == zone {
        var i := FindNodeIndex(localSources, dest);
        return if i.Some? then Some(dest) else None;
      } else {
        var i := FindZoneIndex(zoneSources, ZoneOf(dest));
        return if i.Some? then First(zoneSources[i.value].gateways) else None;
      }
    }
  }

  // ---------------------------------------------------------------- the registry of latest pings

  function RegistryNext(lim: Limits, own: nat, r: Registry, e: Event): Registry
    requires EventOk(e)
  {
    match e
    case Ticked(now) => Registry(Fresh(r.local, now), FreshInfo(r.zones, now))
    case Pinged(now, from, p) =>
      match p.origin
      case Media => r.(local := if WebrtcUsage(lim, p).Some? then r.local[from := Entry(WebrtcUsage(lim, p).value, now)] else r.local - {from})
      case Gateway(zone, location) =>
        if zone == own then r
        else if WebrtcUsage(lim, p).Some? && location.Some? then
          r.(zones := PingInfo(r.zones, now, zone, from, p.cpu, location.value))
        else r.(zones := RemoveInfo(r.zones, zone, from))
  }

  lemma {:induction false} SortKeeps(list: seq<NodeSource>)
    requires ByUsage(list)
    ensures Sort(list) == list
  {
    if list != [] {
      SortKeeps(list[..|list| - 1]);
    }
  }

  lemma NextRefines(lim: Limits, s: Store, r: Registry, e: Event)
    requires Refines(s, r) && EventOk(e)
    ensures Refines(Next(lim, s, e), RegistryNext(lim, s.zone, r, e))
  {
    match e
    case Ticked(now) =>
      UnexpiredRepresents(s.localSources, now);
      UnexpiredZonesRefine(s.zoneSources, now);
    case Pinged(now, from, p) =>
      match p.origin
      case Media =>
        if WebrtcUsage(lim, p).Some? {
          PingRepresents(s.localSources, r.local, now, from, WebrtcUsage(lim, p).value);
        } else {
          RemoveRepresents(s.localSources, r.local, from);
        }
      case Gateway(zone, location) =>
        SortKeeps(s.localSources);
        if WebrtcUsage(lim, p).Some? && location.Some? {
          PingZoneRefines(s.zoneSources, now, zone, from, p.cpu, location.value, WebrtcUsage(lim, p).value);
        } else {
          RemoveGatewayRefines(s.zoneSources, zone, from);
        }
  }

  // ---------------------------------------------------------------- runs

  ghost predicate RunOk(events: seq<Event>) {
    |events| > 0 ==> RunOk(events[..|events| - 1]) && EventOk(events[|events| - 1])
  }

  function After(lim: Limits, zone: nat, location: Location, events: seq<Event>): Store
    requires RunOk(events)
  {
    if events == [] then Store(zone, location, [], [])
    else
      Next(lim, After(lim, zone, location, events[..|events| - 1]), events[|events| - 1])
  }

  function RegistryAfter(lim: Limits, own: nat, events: seq<Event>): Registry
    requires RunOk(events)
  {
    if events == [] then Registry(map[], map[])
    else
      RegistryNext(lim, own, RegistryAfter(lim, own, events[..|events| - 1]), events[|events| - 1])
  }

  /** After every run the sorted lists agree with the plain map of latest pings. */
  lemma {:induction false} RunRefines(lim: Limits, zone: nat, location: Location, events: seq<Event>)
    requires RunOk(events)
    ensures Refines(After(lim, zone, location, events), RegistryAfter(lim, zone, events))
    ensures After(lim, zone, location, events).zone == zone && After(lim, zone, location, events).location == location
  {
    if events != [] {
      var n := |events| - 1;
      RunRefines(lim, zone, location, events[..n]);
      NextRefines(lim, After(lim, zone, location, events[..n]), RegistryAfter(lim, zone, events[..n]), events[n]);
    }
  }

  // ---------------------------------------------------------------- said of the pings' own fields

  /** The ping is within every limit and its node offers the service. */
  predicate Accepted(lim: Limits, p: PingEvent) {
    && p.cpu < lim.maxCpu && p.memory < lim.maxMemory && p.disk < lim.maxDisk
    && p.webrtc.Some? && p.webrtc.value.active
  }

  function Max(a: nat, b: nat): nat {
    if a < b then b else a
  }

  /** How full the service is, in percent. */
  function TruePercent(stats: Stats): nat
    requires stats.max > 0
  {
    stats.live * 100 / stats.max
  }

  /** The same, as 32 bits and then eight bits keep it. */
  function Percent(p: PingEvent): nat
    requires Computable(p)
  {
    if p.webrtc.None? || !p.webrtc.value.active then 0
    else (p.webrtc.value.live * 100 % 0x1_0000_0000) / p.webrtc.value.max % 0x100
  }

  /** A node is kept if and only if its ping is accepted, with the larger of the two loads. */
  lemma KeptLoad(lim: Limits, p: PingEvent)
    requires Computable(p)
    ensures WebrtcUsage(lim, p).Some? <==> Accepted(lim, p)
    ensures Accepted(lim, p) ==> WebrtcUsage(lim, p).value == Max(p.cpu, Percent(p)) && NodeUsage(lim, p) == Some(p.cpu)
  {
  }

  /** Where nothing wraps, the percentage is the true one. */
  lemma PercentIsTrue(p: PingEvent)
    requires Computable(p) && p.webrtc.Some? && p.webrtc.value.active
    requires p.webrtc.value.live * 100 < 0x1_0000_0000 && TruePercent(p.webrtc.value) < 0x100
    ensures Percent(p) == TruePercent(p.webrtc.value)
  {
  }

  datatype Heard = Heard(at: nat, ping: PingEvent)

  /** The latest ping of a node of the own zone, if it was accepted and no tick has expired it since. */
  function Latest(lim: Limits, events: seq<Event>, node: nat): (h: Option<Heard>)
    requires RunOk(events)
    ensures h.Some? ==> Computable(h.value.ping) && Accepted(lim, h.value.ping)
  {
    if events == [] then None
    else
      var before := Latest(lim, events[..|events| - 1], node);
      match events[|events| - 1]
      case Ticked(now) => if before.Some? && before.value.at + PING_TIMEOUT > now then before else None
      case Pinged(now, from, p) =>
        if p.origin != Media || from != node then before
        else if Accepted(lim, p) then Some(Heard(now, p))
        else None
  }

  /** The same for a gateway of another zone. */
  function LatestGateway(lim: Limits, own: nat, events: seq<Event>, zone: nat, gateway: nat): Option<Heard>
    requires RunOk(events)
  {
    if events == [] then None
    else
      var before := LatestGateway(lim, own, events[..|events| - 1], zone, gateway);
      match events[|events| - 1]
      case Ticked(now) => if before.Some? && before.value.at + PING_TIMEOUT > now then before else None
      case Pinged(now, from, p) =>
        if p.origin == Media || p.origin.zone != zone || zone == own || from != gateway then before
        else if Accepted(lim, p) && p.origin.location.Some? then Some(Heard(now, p))
        else None
  }

  /** What is listed for a node: the larger of its loads. */
  function NodeEntry(h: Option<Heard>): Option<Entry>
    requires h.Some? ==> Computable(h.value.ping)
  {
    if h.Some? then Some(Entry(Max(h.value.ping.cpu, Percent(h.value.ping)), h.value.at)) else None
  }

  /** What is listed for a gateway: its processor's load. */
  function GatewayEntry(h: Option<Heard>): Option<Entry> {
    if h.Some? then Some(Entry(h.value.ping.cpu, h.value.at)) else None
  }

  function Lookup(m: map<nat, Entry>, n: nat): Option<Entry> {
    if n in m then Some(m[n]) else None
  }

  function LookupGateway(zones: map<nat, ZoneInfo>, zone: nat, gateway: nat): Option<Entry> {
    if zone in zones then Lookup(zones[zone].gateways, gateway) else None
  }

  /** After every run a node is listed exactly with what its latest ping said. */
  lemma {:induction false} RegistryIsLatest(lim: Limits, own: nat, events: seq<Event>, node: nat)
    requires RunOk(events)
    ensures Lookup(RegistryAfter(lim, own, events).local, node) == NodeEntry(Latest(lim, events, node))
  {
    if events != [] {
      var n := |events| - 1;
      if events[n].Pinged? { KeptLoad(lim, events[n].ping); }
      RegistryIsLatest(lim, own, events[..n], node);
    }
  }

  ghost predicate NoEmptyZone(zones: map<nat, ZoneInfo>) {
    forall z :: z in zones ==> zones[z].gateways != map[]
  }

  lemma PingLookup(zones: map<nat, ZoneInfo>, now: nat, zone: nat, gateway: nat, usage: nat, location: Location)
    requires NoEmptyZone(zones)
    ensures var after := PingInfo(zones, now, zone, gateway, usage, location);
      && NoEmptyZone(after)
      && forall z, g :: LookupGateway(after, z, g) ==
           if z == zone && g == gateway then Some(Entry(usage, now)) else LookupGateway(zones, z, g)
  {
    assert gateway in PingInfo(zones, now, zone, gateway, usage, location)[zone].gateways;
  }

  lemma RemoveLookup(zones: map<nat, ZoneInfo>, zone: nat, gateway: nat)
    requires NoEmptyZone(zones)
    ensures var after := RemoveInfo(zones, zone, gateway);
      && NoEmptyZone(after)
      && forall z, g :: LookupGateway(after, z, g) == if z == zone && g == gateway then None else LookupGateway(zones, z, g)
  {
    if zone in zones {
      var left := zones[zone].gateways - {gateway};
      assert forall g :: g in left <==> g in zones[zone].gateways && g != gateway;
    }
  }

  lemma FreshLookup(zones: map<nat, ZoneInfo>, now: nat, z: nat, g: nat)
    ensures NoEmptyZone(FreshInfo(zones, now))
    ensures var was := LookupGateway(zones, z, g);
      LookupGateway(FreshInfo(zones, now), z, g) ==
        if was.Some? && was.value.lastUpdated + PING_TIMEOUT > now then was else None
  {
    if z in zones {
      var left := Fresh(zones[z].gateways, now);
      assert left == map[] ==> g !in left;
    }
  }

  /** And so is a gateway of another zone; a zone is listed only while it has a gateway. */
  lemma {:induction false} RegistryIsLatestGateway(lim: Limits, own: nat, events: seq<Event>, zone: nat, gateway: nat)
    requires RunOk(events)
    ensures var zones := RegistryAfter(lim, own, events).zones;
      && LookupGateway(zones, zone, gateway) == GatewayEntry(LatestGateway(lim, own, events, zone, gateway))
      && NoEmptyZone(zones)
  {
    if events != [] {
      var n := |events| - 1;
      RegistryIsLatestGateway(lim, own, events[..n], zone, gateway);
      var zones := RegistryAfter(lim, own, events[..n]).zones;
      match events[n]
      case Ticked(now) => FreshLookup(zones, now, zone, gateway);
      case Pinged(now, from, p) =>
        KeptLoad(lim, p);
        match p.origin
        case Media =>
        case Gateway(z, location) =>
          if location.Some? {
            PingLookup(zones, now, z, from, p.cpu, location.value);
          }
          RemoveLookup(zones, z, from);
    }
  }

  // ---------------------------------------------------------------- the choice after a run

  ghost predicate NothingLive(lim: Limits, own: nat, events: seq<Event>)
    requires RunOk(events)
  {
    && (forall n :: Latest(lim, events, n).None?)
    && (forall z, g :: LatestGateway(lim, own, events, z, g).None?)
  }

  /** The larger of a ping's two loads. */
  function LoadOf(h: Heard): nat
    requires Computable(h.ping)
  {
    Max(h.ping.cpu, Percent(h.ping))
  }

  /** A live node of the own zone, no busier at its latest ping than any other. */
  ghost predicate LeastLocal(lim: Limits, events: seq<Event>, node: nat)
    requires RunOk(events)
  {
    var here := Latest(lim, events, node);
    here.Some? && forall n :: var there := Latest(lim, events, n); there.Some? ==> LoadOf(here.value) <= LoadOf(there.value)
  }

  /** The figures of the ping do not wrap. */
  predicate Exact(p: PingEvent) {
    p.webrtc.Some? && p.webrtc.value.active && p.webrtc.value.max > 0
    && p.webrtc.value.live * 100 < 0x1_0000_0000 && TruePercent(p.webrtc.value) < 0x100
  }

  /** Where the figures do not wrap, no live node has a smaller maximum of processor load and percentage. */
  lemma LeastTrulyLoaded(lim: Limits, events: seq<Event>, node: nat, other: nat)
    requires RunOk(events) && LeastLocal(lim, events, node)
    requires Latest(lim, events, other).Some? && Exact(Latest(lim, events, node).value.ping) && Exact(Latest(lim, events, other).value.ping)
    ensures var a, b := Latest(lim, events, node).value.ping, Latest(lim, events, other).value.ping;
      Max(a.cpu, TruePercent(a.webrtc.value)) <= Max(b.cpu, TruePercent(b.webrtc.value))
  {
    PercentIsTrue(Latest(lim, events, node).value.ping);
    PercentIsTrue(Latest(lim, events, other).value.ping);
  }

  /** A live gateway of the zone, no busier at its latest ping than any other of it. */
  ghost predicate LeastGateway(lim: Limits, own: nat, events: seq<Event>, zone: nat, gateway: nat)
    requires RunOk(events)
  {
    var here := LatestGateway(lim, own, events, zone, gateway);
    here.Some? && forall g :: var there := LatestGateway(lim, own, events, zone, g); there.Some? ==> here.value.ping.cpu <= there.value.ping.cpu
  }

  lemma RegistryIsAllLatest(lim: Limits, own: nat, events: seq<Event>)
    requires RunOk(events)
    ensures forall n :: Lookup(RegistryAfter(lim, own, events).local, n) == NodeEntry(Latest(lim, events, n))
    ensures forall z, g :: LookupGateway(RegistryAfter(lim, own, events).zones, z, g) == GatewayEntry(LatestGateway(lim, own, events, z, g))
    ensures NoEmptyZone(RegistryAfter(lim, own, events).zones)
  {
    forall n ensures Lookup(RegistryAfter(lim, own, events).local, n) == NodeEntry(Latest(lim, events, n)) {
      RegistryIsLatest(lim, own, events, n);
    }
    forall z, g ensures LookupGateway(RegistryAfter(lim, own, events).zones, z, g) == GatewayEntry(LatestGateway(lim, own, events, z, g)) {
      RegistryIsLatestGateway(lim, own, events, z, g);
    }
    RegistryIsLatestGateway(lim, own, events, 0, 0);
  }

  lemma LeastLocalIs(lim: Limits, own: nat, events: seq<Event>, node: nat)
    requires RunOk(events) && LeastUsedIn(RegistryAfter(lim, own, events).local, node)
    ensures LeastLocal(lim, events, node)
  {
    var m := RegistryAfter(lim, own, events).local;
    RegistryIsLatest(lim, own, events, node);
    forall n | Latest(lim, events, n).Some?
      ensures m[node].usage <= LoadOf(Latest(lim, events, n).value)
    {
      RegistryIsLatest(lim, own, events, n);
    }
  }

  lemma LeastGatewayIs(lim: Limits, own: nat, events: seq<Event>, zone: nat, gateway: nat)
    requires RunOk(events) && zone in RegistryAfter(lim, own, events).zones
    requires LeastUsedIn(RegistryAfter(lim, own, events).zones[zone].gateways, gateway)
    ensures LeastGateway(lim, own, events, zone, gateway)
  {
    var m := RegistryAfter(lim, own, events).zones[zone].gateways;
    RegistryIsLatestGateway(lim, own, events, zone, gateway);
    forall g | LatestGateway(lim, own, events, zone, g).Some?
      ensures m[gateway].usage <= LatestGateway(lim, own, events, zone, g).value.ping.cpu
    {
      RegistryIsLatestGateway(lim, own, events, zone, g);
    }
  }

  lemma NothingKnownIff(lim: Limits, own: nat, events: seq<Event>)
    requires RunOk(events)
    ensures var r := RegistryAfter(lim, own, events);
      r.local == map[] && r.zones == map[] <==> NothingLive(lim, own, events)
  {
    RegistryIsAllLatest(lim, own, events);
    var r := RegistryAfter(lim, own, events);
    if r.local != map[] {
      var n :| n in r.local;
      assert Lookup(r.local, n).Some?;
    }
    if r.zones != map[] {
      var z :| z in r.zones;
      var g :| g in r.zones[z].gateways;
      assert LookupGateway(r.zones, z, g).Some?;
    }
  }

  // ---------------------------------------------------------------- where a zone is

  ghost predicate HasGateway(lim: Limits, own: nat, events: seq<Event>, zone: nat)
    requires RunOk(events)
  {
    exists g :: LatestGateway(lim, own, events, zone, g).Some?
  }

  /** The location in the ping that first made the zone known, since it last had no live gateway. */
  ghost function FirstHeard(lim: Limits, own: nat, events: seq<Event>, zone: nat): Option<Location>
    requires RunOk(events)
  {
    if events == [] || !HasGateway(lim, own, events, zone) then None
    else
      var init, e := events[..|events| - 1], events[|events| - 1];
      if HasGateway(lim, own, init, zone) then FirstHeard(lim, own, init, zone)
      else if e.Pinged? && e.ping.origin.Gateway? then e.ping.origin.location
      else None
  }

  lemma ZoneStep(lim: Limits, own: nat, r: Registry, e: Event, zone: nat)
    requires EventOk(e) && zone in RegistryNext(lim, own, r, e).zones
    ensures var location := RegistryNext(lim, own, r, e).zones[zone].location;
      if zone in r.zones then location == r.zones[zone].location
      else e.Pinged? && e.ping.origin.Gateway? && e.ping.origin.location == Some(location)
  {
  }

  lemma KnownIff(lim: Limits, own: nat, events: seq<Event>, zone: nat)
    requires RunOk(events)
    ensures zone in RegistryAfter(lim, own, events).zones <==> HasGateway(lim, own, events, zone)
  {
    var zones := RegistryAfter(lim, own, events).zones;
    RegistryIsLatestGateway(lim, own, events, zone, 0);
    if zone in zones {
      var g :| g in zones[zone].gateways;
      RegistryIsLatestGateway(lim, own, events, zone, g);
    }
    if g :| LatestGateway(lim, own, events, zone, g).Some? {
      RegistryIsLatestGateway(lim, own, events, zone, g);
    }
  }

  /** After every run a zone is known with the location it was first heard at. */
  lemma {:induction false} LocationIsFirstHeard(lim: Limits, own: nat, events: seq<Event>, zone: nat)
    requires RunOk(events)
    ensures var zones := RegistryAfter(lim, own, events).zones;
      FirstHeard(lim, own, events, zone) == if zone in zones then Some(zones[zone].location) else None
  {
    KnownIff(lim, own, events, zone);
    if events != [] {
      var init, e := events[..|events| - 1], events[|events| - 1];
      KnownIff(lim, own, init, zone);
      LocationIsFirstHeard(lim, own, init, zone);
      if zone in RegistryAfter(lim, own, events).zones {
        ZoneStep(lim, own, RegistryAfter(lim, own, init), e, zone);
      }
    }
  }

  /** The zone is at least as near as every other known one. */
  ghost predicate NearestZone(lim: Limits, own: nat, events: seq<Event>, at: Location, zone: nat)
    requires RunOk(events)
  {
    var here := FirstHeard(lim, own, events, zone);
    here.Some? && forall z :: var there := FirstHeard(lim, own, events, z); there.Some? ==> Distance(at, here.value) <= Distance(at, there.value)
  }

  /** No known zone is strictly nearer than `home`. */
  ghost predicate HomeNearest(lim: Limits, own: nat, events: seq<Event>, at: Location, home: real)
    requires RunOk(events)
  {
    forall z :: var there := FirstHeard(lim, own, events, z); there.Some? ==> home <= Distance(at, there.value)
  }

  ghost predicate LocalLive(lim: Limits, events: seq<Event>)
    requires RunOk(events)
  {
    exists n :: Latest(lim, events, n).Some?
  }

  lemma HomeNearestSays(lim: Limits, own: nat, events: seq<Event>, at: Location, home: real, zone: nat)
    requires RunOk(events) && HomeNearest(lim, own, events, at, home) && zone in RegistryAfter(lim, own, events).zones
    ensures home <= Distance(at, RegistryAfter(lim, own, events).zones[zone].location)
  {
    LocationIsFirstHeard(lim, own, events, zone);
    assert FirstHeard(lim, own, events, zone).Some?;
  }

  lemma HomeNearestFrom(lim: Limits, own: nat, events: seq<Event>, at: Location, home: real)
    requires RunOk(events) && NoneNearer(RegistryAfter(lim, own, events).zones, at, home)
    ensures HomeNearest(lim, own, events, at, home)
  {
    forall z | FirstHeard(lim, own, events, z).Some?
      ensures home <= Distance(at, FirstHeard(lim, own, events, z).value)
    {
      LocationIsFirstHeard(lim, own, events, z);
      assert z in RegistryAfter(lim, own, events).zones;
    }
  }

  lemma HomeNearestIff(lim: Limits, own: nat, events: seq<Event>, at: Location, home: real)
    requires RunOk(events)
    ensures HomeNearest(lim, own, events, at, home) <==> NoneNearer(RegistryAfter(lim, own, events).zones, at, home)
  {
    var zones := RegistryAfter(lim, own, events).zones;
    if HomeNearest(lim, own, events, at, home) {
      forall z | z in zones
        ensures home <= Distance(at, zones[z].location)
      {
        HomeNearestSays(lim, own, events, at, home, z);
      }
    }
    if NoneNearer(zones, at, home) {
      HomeNearestFrom(lim, own, events, at, home);
    }
  }

  lemma NearestZoneIs(lim: Limits, own: nat, events: seq<Event>, at: Location, zone: nat)
    requires RunOk(events) && NearestZoneIn(RegistryAfter(lim, own, events).zones, at, zone)
    ensures NearestZone(lim, own, events, at, zone)
  {
    LocationIsFirstHeard(lim, own, events, zone);
    var here := FirstHeard(lim, own, events, zone).value;
    forall z | FirstHeard(lim, own, events, z).Some?
      ensures Distance(at, here) <= Distance(at, FirstHeard(lim, own, events, z).value)
    {
      LocationIsFirstHeard(lim, own, events, z);
    }
  }

  lemma LocalLiveIff(lim: Limits, own: nat, events: seq<Event>)
    requires RunOk(events)
    ensures LocalLive(lim, events) <==> RegistryAfter(lim, own, events).local != map[]
  {
    var m := RegistryAfter(lim, own, events).local;
    if m != map[] {
      var n :| n in m;
      RegistryIsLatest(lim, own, events, n);
    }
    if n :| Latest(lim, events, n).Some? {
      RegistryIsLatest(lim, own, events, n);
    }
  }

  /**
   After every run of pings and ticks, said of the pings alone: a node is found exactly when some node
   or gateway is live.  It is a least used live node of the own zone, if there is one and no known zone
   is strictly nearer; else a least used live gateway of a nearest zone, each zone being where it was
   first heard.
   */
  lemma BestAfterRun(lim: Limits, zone: nat, location: Location, events: seq<Event>, asked: Option<Location>)
    requires RunOk(events)
    ensures var s := After(lim, zone, location, events);
      var best, at := BestFor(s, asked), if asked.Some? then asked.value else location;
      && (best.None? <==> NothingLive(lim, zone, events))
      && (best.Some? ==>
            if LocalLive(lim, events) && HomeNearest(lim, zone, events, at, Distance(location, at)) then
              LeastLocal(lim, events, best.value)
            else
              exists z :: NearestZone(lim, zone, events, at, z) && LeastGateway(lim, zone, events, z, best.value))
  {
    var s, r := After(lim, zone, location, events), RegistryAfter(lim, zone, events);
    var at := if asked.Some? then asked.value else location;
    RunRefines(lim, zone, location, events);
    BestForIs(s, r, asked);
    NothingKnownIff(lim, zone, events);
    LocalLiveIff(lim, zone, events);
    HomeNearestIff(lim, zone, events, at, Distance(location, at));
    var best := BestFor(s, asked);
    if best.Some? {
      if LocalLive(lim, events) && HomeNearest(lim, zone, events, at, Distance(location, at)) {
        LeastLocalIs(lim, zone, events, best.value);
      } else {
        var z :| NearestZoneIn(r.zones, at, z) && LeastUsedIn(r.zones[z].gateways, best.value);
        NearestZoneIs(lim, zone, events, at, z);
        LeastGatewayIs(lim, zone, events, z, best.value);
      }
    }
  }
}
