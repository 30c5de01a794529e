/**
 A gateway's view of where a service runs: nodes of its own zone and gateways of other zones
 (packages/media_gateway/src/store/service.rs and packages/media_gateway/src/store.rs).

 `ServiceStore` keeps sorted lists; `Registry` is the plain map of latest pings they stand for.
 Distances are compared by their squares, which order them alike; rounding is not modelled.
 */
module GatewayStore {
  import opened Options
  import opened NodeLists

  datatype Location = Location(lat: real, lon: real)

  datatype ZoneSource = ZoneSource(zone: nat, usage: nat, location: Location, lastUpdated: nat, gateways: seq<NodeSource>)

  datatype Store = Store(zone: nat, location: Location, localSources: seq<NodeSource>, zoneSources: seq<ZoneSource>)

  function Distance(a: Location, b: Location): real {
    (a.lat - b.lat) * (a.lat - b.lat) + (a.lon - b.lon) * (a.lon - b.lon)
  }

  /** What lies further along both axes is further away. */
  lemma DistanceGrows(a: Location, b: Location, c: Location)
    requires a.lat <= b.lat <= c.lat && a.lon <= b.lon <= c.lon && b != c
    ensures Distance(b, a) < Distance(c, a)
  {
    SquareGrows(b.lat - a.lat, c.lat - a.lat);
    SquareGrows(b.lon - a.lon, c.lon - a.lon);
  }

  lemma Positive(x: real, y: real)
    requires x > 0.0 && y > 0.0
    ensures x * y > 0.0
  {
  }

  lemma SquareGrows(x: real, y: real)
    requires 0.0 <= x <= y
    ensures x * x <= y * y && (x < y ==> x * x < y * y)
  {
    if x < y {
      Positive(y - x, y + x);
      assert (y - x) * (y + x) == y * y - x * x;
    }
  }

  function ZoneOf(node: nat): nat { node / 256 }

  // ---------------------------------------------------------------- updates of the zone list

  function FindZone(zones: seq<ZoneSource>, zone: nat): (r: Option<nat>)
    ensures r.Some? ==> r.value < |zones| && zones[r.value].zone == zone
    ensures r.Some? ==> forall i :: 0 <= i < r.value ==> zones[i].zone != zone
    ensures r.None? ==> forall i :: 0 <= i < |zones| ==> zones[i].zone != zone
  {
    if zones == [] then None
    else
      var n := |zones| - 1;
      var before := FindZone(zones[..n], zone);
      assert forall i :: 0 <= i < n ==> zones[..n][i] == zones[i];
      if before.Some? then before else if zones[n].zone == zone then Some(n) else None
  }

  /** A gateway's ping joins its zone; a zone keeps the location it was first heard at. */
  function PingZone(
      zones: seq<ZoneSource>, now: nat, zone: nat, gateway: nat, gatewayUsage: nat, location: Location, usage: nat)
      : seq<ZoneSource>
  {
    var i := FindZone(zones, zone);
    if i.Some? then
      var z := zones[i.value];
      zones[i.value := z.(usage := usage, lastUpdated := now, gateways := Ping(z.gateways, now, gateway, gatewayUsage))]
    else zones + [ZoneSource(zone, usage, location, now, [NodeSource(gateway, gatewayUsage, now)])]
  }

  function RemoveGateway(zones: seq<ZoneSource>, zone: nat, gateway: nat): seq<ZoneSource> {
    var i := FindZone(zones, zone);
    if i.None? then zones
    else
      var left := Remove(zones[i.value].gateways, gateway);
      if left == [] then zones[..i.value] + zones[i.value + 1..]
      else zones[i.value := zones[i.value].(gateways := left)]
  }

  /** Gateways time out; a zone without gateways is forgotten. */
  function UnexpiredZones(zones: seq<ZoneSource>, now: nat): seq<ZoneSource> {
    if zones == [] then []
    else
      var z := zones[|zones| - 1];
      var left := Unexpired(z.gateways, now);
      UnexpiredZones(zones[..|zones| - 1], now) + if left == [] then [] else [z.(gateways := left)]
  }

  // ---------------------------------------------------------------- the registry

  datatype ZoneInfo = ZoneInfo(location: Location, gateways: map<nat, Entry>)

  datatype Registry = Registry(local: map<nat, Entry>, zones: map<nat, ZoneInfo>)

  function ZoneMap(zones: seq<ZoneSource>): map<nat, ZoneInfo> {
    if zones == [] then map[]
    else
      var z := zones[|zones| - 1];
      ZoneMap(zones[..|zones| - 1])[z.zone := ZoneInfo(z.location, Entries(z.gateways))]
  }

  /** Each zone once, with at least one gateway, its gateways in order of usage. */
  ghost predicate ZonesOk(zones: seq<ZoneSource>) {
    |zones| > 0 ==>
      var init, z := zones[..|zones| - 1], zones[|zones| - 1];
      && ZonesOk(init) && z.zone !in ZoneMap(init)
      && ZoneOk(z)
  }

  ghost predicate ZoneOk(z: ZoneSource) {
    z.gateways != [] && DistinctNodes(z.gateways) && ByUsage(z.gateways)
  }

  ghost predicate Refines(s: Store, r: Registry) {
    Represents(s.localSources, r.local) && ZonesOk(s.zoneSources) && ZoneMap(s.zoneSources) == r.zones
  }

  function PingInfo(zones: map<nat, ZoneInfo>, now: nat, zone: nat, gateway: nat, gatewayUsage: nat, location: Location)
      : map<nat, ZoneInfo>
  {
    var info := if zone in zones then zones[zone] else ZoneInfo(location, map[]);
    zones[zone := info.(gateways := info.gateways[gateway := Entry(gatewayUsage, now)])]
  }

  function RemoveInfo(zones: map<nat, ZoneInfo>, zone: nat, gateway: nat): map<nat, ZoneInfo> {
    if zone !in zones then zones
    else
      var left := zones[zone].gateways - {gateway};
      if left == map[] then zones - {zone} else zones[zone := zones[zone].(gateways := left)]
  }

  function FreshInfo(zones: map<nat, ZoneInfo>, now: nat): map<nat, ZoneInfo> {
    map z | z in zones && Fresh(zones[z].gateways, now) != map[] :: zones[z].(gateways := Fresh(zones[z].gateways, now))
  }

  // ---------------------------------------------------------------- zone lists refine zone maps

  lemma {:induction false} ZoneAt(zones: seq<ZoneSource>, i: nat)
    requires ZonesOk(zones) && i < |zones|
    ensures var z := zones[i];
      && z.zone in ZoneMap(zones) && ZoneMap(zones)[z.zone] == ZoneInfo(z.location, Entries(z.gateways))
      && ZoneOk(z)
  {
    if i < |zones| - 1 {
      ZoneAt(zones[..|zones| - 1], i);
    }
  }

  lemma {:induction false} ZoneFrom(zones: seq<ZoneSource>, zone: nat) returns (i: nat)
    requires zone in ZoneMap(zones)
    ensures i < |zones| && zones[i].zone == zone
  {
    if zones[|zones| - 1].zone == zone {
      i := |zones| - 1;
    } else {
      i := ZoneFrom(zones[..|zones| - 1], zone);
    }
  }

  lemma FindZoneIff(zones: seq<ZoneSource>, zone: nat)
    requires ZonesOk(zones)
    ensures FindZone(zones, zone).Some? <==> zone in ZoneMap(zones)
  {
    var i := FindZone(zones, zone);
    if i.Some? {
      ZoneAt(zones, i.value);
    } else if zone in ZoneMap(zones) {
      var _ := ZoneFrom(zones, zone);
    }
  }

  lemma PutBoth(m: map<nat, ZoneInfo>, a: nat, x: ZoneInfo, b: nat, y: ZoneInfo)
    requires a != b
    ensures m[a := x][b := y] == m[b := y][a := x]
  {
  }

  lemma {:induction false} ZoneUpdated(zones: seq<ZoneSource>, i: nat, z: ZoneSource)
    requires ZonesOk(zones) && i < |zones| && zones[i].zone == z.zone
    requires ZoneOk(z)
    ensures ZonesOk(zones[i := z])
    ensures ZoneMap(zones[i := z]) == ZoneMap(zones)[z.zone := ZoneInfo(z.location, Entries(z.gateways))]
  {
    var n := |zones| - 1;
    var r := zones[i := z];
    if i == n {
      assert r[..n] == zones[..n];
    } else {
      assert r[..n] == zones[..n][i := z] && r[n] == zones[n];
      ZoneUpdated(zones[..n], i, z);
      ZoneAt(zones[..n], i);
      PutBoth(ZoneMap(zones[..n]), z.zone, ZoneInfo(z.location, Entries(z.gateways)),
              zones[n].zone, ZoneInfo(zones[n].location, Entries(zones[n].gateways)));
    }
  }

  lemma PingZoneRefines(
      zones: seq<ZoneSource>, now: nat, zone: nat, gateway: nat, gatewayUsage: nat, location: Location, usage: nat)
    requires ZonesOk(zones)
    ensures var r := PingZone(zones, now, zone, gateway, gatewayUsage, location, usage);
      ZonesOk(r) && ZoneMap(r) == PingInfo(ZoneMap(zones), now, zone, gateway, gatewayUsage, location)
  {
    FindZoneIff(zones, zone);
    var i := FindZone(zones, zone);
    if i.Some? {
      var z := zones[i.value];
      ZoneAt(zones, i.value);
      PingRepresents(z.gateways, Entries(z.gateways), now, gateway, gatewayUsage);
      LeastUsed(Ping(z.gateways, now, gateway, gatewayUsage), Entries(z.gateways)[gateway := Entry(gatewayUsage, now)]);
      var z' := z.(usage := usage, lastUpdated := now, gateways := Ping(z.gateways, now, gateway, gatewayUsage));
      assert gateway in Entries(z'.gateways);
      ZoneUpdated(zones, i.value, z');
    } else {
      var one := [NodeSource(gateway, gatewayUsage, now)];
      OneRepresents(one);
      var r := PingZone(zones, now, zone, gateway, gatewayUsage, location, usage);
      assert r[..|zones|] == zones;
    }
  }

  function DropZoneAt(zones: seq<ZoneSource>, i: nat): seq<ZoneSource>
    requires i < |zones|
  {
    zones[..i] + zones[i + 1..]
  }

  lemma DropZoneInit(zones: seq<ZoneSource>, i: nat)
    requires i < |zones| - 1
    ensures DropZoneAt(zones, i) == DropZoneAt(zones[..|zones| - 1], i) + [zones[|zones| - 1]]
    ensures DropZoneAt(zones, i)[..|zones| - 2] == DropZoneAt(zones[..|zones| - 1], i)
  {
  }

  lemma PutThenDrop(m: map<nat, ZoneInfo>, a: nat, x: ZoneInfo, b: nat)
    requires a != b
    ensures m[a := x] - {b} == (m - {b})[a := x]
  {
  }

  lemma {:induction false} ZoneDropped(zones: seq<ZoneSource>, i: nat)
    requires ZonesOk(zones) && i < |zones|
    ensures ZonesOk(DropZoneAt(zones, i)) && ZoneMap(DropZoneAt(zones, i)) == ZoneMap(zones) - {zones[i].zone}
  {
    var n := |zones| - 1;
    var init := zones[..n];
    if i == n {
      assert DropZoneAt(zones, i) == init;
      assert ZoneMap(zones) - {zones[n].zone} == ZoneMap(init);
    } else {
      DropZoneInit(zones, i);
      ZoneDropped(init, i);
      ZoneAt(init, i);
      PutThenDrop(ZoneMap(init), zones[n].zone, ZoneInfo(zones[n].location, Entries(zones[n].gateways)), init[i].zone);
    }
  }

  lemma RemoveGatewayRefines(zones: seq<ZoneSource>, zone: nat, gateway: nat)
    requires ZonesOk(zones)
    ensures var r := RemoveGateway(zones, zone, gateway);
      ZonesOk(r) && ZoneMap(r) == RemoveInfo(ZoneMap(zones), zone, gateway)
  {
    FindZoneIff(zones, zone);
    var i := FindZone(zones, zone);
    if i.Some? {
      var z := zones[i.value];
      ZoneAt(zones, i.value);
      RemoveRepresents(z.gateways, Entries(z.gateways), gateway);
      var left := Remove(z.gateways, gateway);
      LeastUsed(left, Entries(z.gateways) - {gateway});
      if left == [] {
        ZoneDropped(zones, i.value);
      } else {
        ZoneUpdated(zones, i.value, z.(gateways := left));
      }
    }
  }

  lemma {:induction false} UnexpiredZonesRefine(zones: seq<ZoneSource>, now: nat)
    requires ZonesOk(zones)
    ensures ZonesOk(UnexpiredZones(zones, now)) && ZoneMap(UnexpiredZones(zones, now)) == FreshInfo(ZoneMap(zones), now)
  {
    if zones != [] {
      var n := |zones| - 1;
      var init, z := zones[..n], zones[n];
      UnexpiredZonesRefine(init, now);
      UnexpiredRepresents(z.gateways, now);
      var left, r := Unexpired(z.gateways, now), UnexpiredZones(zones, now);
      LeastUsed(left, Fresh(Entries(z.gateways), now));
      FreshInfoPut(ZoneMap(init), z.zone, ZoneInfo(z.location, Entries(z.gateways)), now);
      if left == [] {
        assert r == UnexpiredZones(init, now);
      } else {
        assert r[..|r| - 1] == UnexpiredZones(init, now);
      }
    }
  }

  lemma FreshInfoPut(zones: map<nat, ZoneInfo>, zone: nat, info: ZoneInfo, now: nat)
    requires zone !in zones
    ensures FreshInfo(zones[zone := info], now) ==
            if Fresh(info.gateways, now) == map[] then FreshInfo(zones, now)
            else FreshInfo(zones, now)[zone := info.(gateways := Fresh(info.gateways, now))]
  {
  }

  // ---------------------------------------------------------------- choosing a destination

  function First(list: seq<NodeSource>): Option<nat> {
    if list == [] then None else Some(list[0].node)
  }

  /** Walk the zones, moving on to each one strictly nearer than the best so far. */
  function Nearest(zones: seq<ZoneSource>, at: Location, node: Option<nat>, dis: real): (Option<nat>, real) {
    if zones == [] then (node, dis)
    else
      var (best, min) := Nearest(zones[..|zones| - 1], at, node, dis);
      var z := zones[|zones| - 1];
      if best.None? || min > Distance(at, z.location) then (First(z.gateways), Distance(at, z.location)) else (best, min)
  }

  function At(s: Store, location: Option<Location>): Location {
    if location.Some? then location.value else s.location
  }

  function BestFor(s: Store, location: Option<Location>): Option<nat> {
    Nearest(s.zoneSources, At(s, location), First(s.localSources), Distance(s.location, At(s, location))).0
  }

  function DestFor(s: Store, dest: nat): Option<nat> {
    if ZoneOf(dest) == s.zone then
      if Find(s.localSources, dest).Some? then Some(dest) else None
    else
      var i := FindZone(s.zoneSources, ZoneOf(dest));
      if i.Some? then First(s.zoneSources[i.value].gateways) else None
  }

  /** What the walk has found: the local node, or a nearest zone so far. */
  lemma {:induction false} NearestIs(zones: seq<ZoneSource>, at: Location, node: Option<nat>, home: real)
    requires forall k :: 0 <= k < |zones| ==> zones[k].gateways != []
    ensures var (best, min) := Nearest(zones, at, node, home);
      && (best.None? <==> node.None? && zones == [])
      && (|| (best == node && min == home && (node.Some? ==> forall k :: 0 <= k < |zones| ==> home <= Distance(at, zones[k].location)))
          || (exists k :: 0 <= k < |zones| && NearestAt(zones, at, node, home, k, best, min)))
  {
    if zones != [] {
      var n := |zones| - 1;
      var init, z := zones[..n], zones[n];
      assert forall k :: 0 <= k < n ==> init[k] == zones[k];
      NearestIs(init, at, node, home);
      var (best, min) := Nearest(init, at, node, home);
      if best.None? || min > Distance(at, z.location) {
        assert NearestAt(zones, at, node, home, n, First(z.gateways), Distance(at, z.location));
      } else if k :| 0 <= k < n && NearestAt(init, at, node, home, k, best, min) {
        assert NearestAt(zones, at, node, home, k, best, min);
      }
    }
  }

  ghost predicate NearestAt(
      zones: seq<ZoneSource>, at: Location, node: Option<nat>, home: real, k: nat, best: Option<nat>, min: real)
    requires k < |zones|
  {
    && best == First(zones[k].gateways) && min == Distance(at, zones[k].location)
    && (forall j :: 0 <= j < |zones| ==> min <= Distance(at, zones[j].location))
    && (node.Some? ==> min < home)
  }

  /** A node of the map no busier than any other. */
  ghost predicate LeastUsedIn(m: map<nat, Entry>, n: nat) {
    n in m && forall k :: k in m ==> m[n].usage <= m[k].usage
  }

  ghost predicate NearestZoneIn(zones: map<nat, ZoneInfo>, at: Location, z: nat) {
    z in zones && forall k :: k in zones ==> Distance(at, zones[z].location) <= Distance(at, zones[k].location)
  }

  ghost predicate NoneNearer(zones: map<nat, ZoneInfo>, at: Location, home: real) {
    forall z :: z in zones ==> home <= Distance(at, zones[z].location)
  }

  /**
   The best node, said of the latest pings alone: nothing exactly when nothing is known; a least used
   node of the own zone unless another zone is strictly nearer; else a least used gateway of a
   nearest zone.
   */
  lemma BestForIs(s: Store, r: Registry, location: Option<Location>)
    requires Refines(s, r)
    ensures var best, at, home := BestFor(s, location), At(s, location), Distance(s.location, At(s, location));
      && (best.None? <==> r.local == map[] && r.zones == map[])
      && (best.Some? ==>
            if r.local != map[] && NoneNearer(r.zones, at, home) then
              LeastUsedIn(r.local, best.value)
            else
              exists z :: NearestZoneIn(r.zones, at, z) && LeastUsedIn(r.zones[z].gateways, best.value))
  {
    var zones, at, home := s.zoneSources, At(s, location), Distance(s.location, At(s, location));
    LeastUsed(s.localSources, r.local);
    forall k | 0 <= k < |zones|
      ensures zones[k].zone in r.zones && zones[k].gateways != [] && r.zones[zones[k].zone].location == zones[k].location
    {
      ZoneAt(zones, k);
    }
    NearestIs(zones, at, First(s.localSources), home);
    var (best, min) := Nearest(zones, at, First(s.localSources), home);
    if k :| 0 <= k < |zones| && NearestAt(zones, at, First(s.localSources), home, k, best, min) {
      ZoneAt(zones, k);
      LeastUsed(zones[k].gateways, Entries(zones[k].gateways));
      forall z | z in r.zones ensures min <= Distance(at, r.zones[z].location) {
        var j := ZoneFrom(zones, z);
        ZoneAt(zones, j);
      }
      assert NearestZoneIn(r.zones, at, zones[k].zone) && LeastUsedIn(r.zones[zones[k].zone].gateways, best.value);
    } else {
      forall z | z in r.zones && best.Some? ensures home <= Distance(at, r.zones[z].location) {
        var j := ZoneFrom(zones, z);
        ZoneAt(zones, j);
      }
    }
  }

  /** Where a request for a node goes: to the node itself in the own zone, else to a gateway of its zone, if known. */
  lemma DestForIs(s: Store, r: Registry, dest: nat)
    requires Refines(s, r)
    ensures var d := DestFor(s, dest);
      if ZoneOf(dest) == s.zone then d == if dest in r.local then Some(dest) else None
      else (d.Some? <==> ZoneOf(dest) in r.zones) && (d.Some? ==> LeastUsedIn(r.zones[ZoneOf(dest)].gateways, d.value))
  {
    if ZoneOf(dest) == s.zone {
      var i := Find(s.localSources, dest);
      if i.Some? {
        EntryAt(s.localSources, i.value);
      } else if dest in r.local {
        var _ := EntryFrom(s.localSources, dest);
      }
    } else {
      FindZoneIff(s.zoneSources, ZoneOf(dest));
      var i := FindZone(s.zoneSources, ZoneOf(dest));
      if i.Some? {
        ZoneAt(s.zoneSources, i.value);
        LeastUsed(s.zoneSources[i.value].gateways, Entries(s.zoneSources[i.value].gateways));
      }
    }
  }
}
