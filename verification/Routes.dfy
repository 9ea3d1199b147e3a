/**
 The route table: configured aliases and discovered Intercoms, bound to immutable physical ids. A
 runtime and a queue are objects shared by reference; `handle` stands for the object's identity.
 */
module Routes {
  import opened Wrappers
  import opened Decimals

  const MAX_INTERCOMS := 32

  type Config = map<string, Option<nat>>

  datatype Route = Route(deviceId: Option<nat>, handle: nat)

  datatype Error = Unavailable | Conflict | NotFound | Mismatch

  function AutoAlias(id: nat): string {
    "intercom-" + Decimal(id)
  }

  lemma AutoAliasInjective(a: nat, b: nat)
    requires AutoAlias(a) == AutoAlias(b)
    ensures a == b
  {
    var prefix := "intercom-";
    assert AutoAlias(a)[|prefix|..] == Decimal(a) && AutoAlias(b)[|prefix|..] == Decimal(b);
    DecimalInjective(a, b);
  }

  // --------------------------------------------------------------- configuration

  predicate AliasChar(c: char) {
    'a' <= c <= 'z' || 'A' <= c <= 'Z' || '0' <= c <= '9' || c == '-' || c == '_'
  }

  predicate ValidAlias(alias: string) {
    0 < |alias| <= 64 && forall i :: 0 <= i < |alias| ==> AliasChar(alias[i])
  }

  ghost predicate OneAliasPerId(cfg: Config, aliases: set<string>)
    requires aliases <= cfg.Keys
  {
    forall a, b :: a in aliases && b in aliases && a != b && cfg[a].Some? ==> cfg[a] != cfg[b]
  }

  ghost predicate ValidConfig(cfg: Config) {
    && |cfg| <= 32
    && (forall a :: a in cfg ==> ValidAlias(a) && cfg[a] != Some(0) && (|cfg| > 1 ==> cfg[a].Some?))
    && OneAliasPerId(cfg, cfg.Keys)
  }

  predicate EntryOk(cfg: Config, alias: string)
    requires alias in cfg
  {
    cfg[alias] != Some(0) && (|cfg| > 1 ==> cfg[alias].Some?) && ValidAlias(alias)
  }

  ghost function IdsOf(cfg: Config, aliases: set<string>): set<nat>
    requires aliases <= cfg.Keys
  {
    set a | a in aliases && cfg[a].Some? :: cfg[a].value
  }

  /** The ids so far, and how often an id was seen: as often as there are ids exactly when none repeats. */
  ghost predicate Tallied(cfg: Config, done: set<string>, ids: set<nat>, bound: nat)
    requires done <= cfg.Keys
  {
    ids == IdsOf(cfg, done) && |ids| <= bound && (|ids| == bound <==> OneAliasPerId(cfg, done))
  }

  lemma OneAliasMore(cfg: Config, done: set<string>, alias: string, ids: set<nat>, bound: nat)
    requires done <= cfg.Keys && alias in cfg && alias !in done && Tallied(cfg, done, ids, bound)
    ensures if cfg[alias].Some? then Tallied(cfg, done + {alias}, ids + {cfg[alias].value}, bound + 1)
            else Tallied(cfg, done + {alias}, ids, bound)
  {
    UniqueMore(cfg, done, alias);
    assert cfg[alias].Some? && cfg[alias].value in ids ==> ids + {cfg[alias].value} == ids;
  }

  lemma UniqueMore(cfg: Config, done: set<string>, alias: string)
    requires done <= cfg.Keys && alias in cfg && alias !in done
    ensures IdsOf(cfg, done + {alias}) == IdsOf(cfg, done) + if cfg[alias].Some? then {cfg[alias].value} else {}
    ensures OneAliasPerId(cfg, done + {alias}) <==>
            OneAliasPerId(cfg, done) && (cfg[alias].Some? ==> cfg[alias].value !in IdsOf(cfg, done))
  {
    var more := done + {alias};
    assert forall a :: a in done ==> a in more;
    if cfg[alias].Some? && cfg[alias].value in IdsOf(cfg, done) {
      var a :| a in done && cfg[a] == cfg[alias];
      assert a in more && alias in more;
    }
  }

  datatype DeviceKind = RingIntercomAudio | RingIntercomVideo

  datatype DeviceConfig = DeviceConfig(kind: DeviceKind, deviceId: Option<nat>)

  function Bindings(devices: map<string, DeviceConfig>): Config {
    map a | a in devices :: devices[a].deviceId
  }

  lemma SameSize(devices: map<string, DeviceConfig>)
    ensures |Bindings(devices)| == |devices|
  {
    assert Bindings(devices).Keys == devices.Keys;
  }

  method AliasIsValid(alias: string) returns (ok: bool)
    ensures ok <==> ValidAlias(alias)
  {
    if |alias| == 0 || |alias| > 64 {
      return false;
    }
    for i := 0 to |alias|
      invariant forall k :: 0 <= k < i ==> AliasChar(alias[k])
    {
      var c := alias[i] as int;
      if !(48 <= c <= 57 || 65 <= c <= 90 || 97 <= c <= 122 || c == 45 || c == 95) {
        return false;
      }
    }
    ok := true;
  }

  method ValidateDevices(devices: map<string, DeviceConfig>) returns (ok: bool)
    ensures ok <==> ValidConfig(Bindings(devices)) && forall a :: a in devices ==> devices[a].kind.RingIntercomAudio?
  {
    var cfg := Bindings(devices);
    assert cfg.Keys == devices.Keys;
    SameSize(devices);
    if |devices| > MAX_INTERCOMS {
      return false;
    }
    var todo := cfg.Keys;
    var ids: set<nat> := {};
    var bound := 0;
    while todo != {}
      invariant todo <= cfg.Keys
      invariant forall a :: a in cfg && a !in todo ==> EntryOk(cfg, a) && devices[a].kind.RingIntercomAudio?
      invariant Tallied(cfg, cfg.Keys - todo, ids, bound)
    {
      var alias :| alias in todo;
      var entry := devices[alias];
      if entry.deviceId == Some(0) || (|devices| > 1 && entry.deviceId.None?) {
        return false;
      }
      var named := AliasIsValid(alias);
      if !named || entry.kind != RingIntercomAudio {
        return false;
      }
      var done := cfg.Keys - todo;
      todo := todo - {alias};
      assert cfg.Keys - todo == done + {alias};
      OneAliasMore(cfg, done, alias, ids, bound);
      if cfg[alias].Some? {
        ids := ids + {cfg[alias].value};
        bound := bound + 1;
      }
    }
    assert cfg.Keys - todo == cfg.Keys;
    ok := |ids| == bound;
  }

  // ------------------------------------------------------------------ provisioning

  /** The alias of a discovered id: the configured one, or one derived from the id itself. */
  ghost function AliasFor(cfg: Config, id: nat): (alias: string)
    ensures if exists a :: a in cfg && cfg[a] == Some(id) then alias in cfg && cfg[alias] == Some(id)
            else alias == AutoAlias(id)
  {
    if exists a :: a in cfg && cfg[a] == Some(id) then var a :| a in cfg && cfg[a] == Some(id); a else AutoAlias(id)
  }

  /** A plan binds each alias to one positive id, never against the configuration. */
  ghost predicate PlanOk(cfg: Config, plan: map<string, nat>) {
    forall a :: a in plan ==> plan[a] > 0 && a == AliasFor(cfg, plan[a]) && (a in cfg ==> cfg[a] == Some(plan[a]))
  }

  /** Which inventories can be provisioned: bounded, positive and distinct ids, none of whose aliases
      belongs to another configured device. */
  ghost predicate Plannable(cfg: Config, inventory: seq<string>) {
    |inventory| <= 32 && PrefixOk(cfg, inventory, |inventory|)
  }

  ghost predicate PrefixOk(cfg: Config, inventory: seq<string>, n: nat)
    requires n <= |inventory|
  {
    forall i :: 0 <= i < n ==> ItemOk(cfg, inventory[i]) && !SeenBefore(inventory, i)
  }

  ghost predicate SeenBefore(inventory: seq<string>, i: nat)
    requires i < |inventory|
  {
    exists k :: 0 <= k < i && ParseU64(inventory[k]) == ParseU64(inventory[i])
  }

  ghost predicate ItemOk(cfg: Config, item: string) {
    var id := ParseU64(item);
    && id.Some? && id.value > 0
    && var alias := AliasFor(cfg, id.value); alias in cfg ==> cfg[alias] == Some(id.value)
  }

  ghost predicate Names(cfg: Config, inventory: seq<string>, alias: string, id: nat) {
    exists i :: 0 <= i < |inventory| && ParseU64(inventory[i]) == Some(id) && alias == AliasFor(cfg, id)
  }

  /** The plan holds exactly the names of the inventory. */
  ghost predicate PlanNames(cfg: Config, inventory: seq<string>, plan: map<string, nat>) {
    forall a: string, n: nat :: (a in plan && plan[a] == n) <==> Names(cfg, inventory, a, n)
  }

  ghost predicate Bound(routes: map<string, Route>, id: Option<nat>) {
    exists a :: a in routes && routes[a].deviceId == id
  }

  ghost predicate TableOk(cfg: Config, routes: map<string, Route>) {
    && cfg.Keys <= routes.Keys
    && (forall a :: a in cfg ==> routes[a].deviceId == cfg[a])
    && (forall a :: a in routes && a !in cfg ==>
          routes[a].deviceId.Some? && routes[a].deviceId.value > 0 && a == AutoAlias(routes[a].deviceId.value))
    && (forall a, b :: a in routes && b in routes && a != b && routes[a].deviceId.Some? ==>
          routes[a].deviceId != routes[b].deviceId)
  }

  class RouteTable {
    const cfg: Config
    var routes: map<string, Route>
    var queues: map<Option<nat>, nat>
    var nextHandle: nat

    ghost predicate Valid()
      reads this
    {
      && ValidConfig(cfg)
      && TableOk(cfg, routes)
      && (forall id :: id in queues <==> Bound(routes, id))
      && (forall a :: a in routes ==> routes[a].handle < nextHandle)
      && (forall id :: id in queues ==> queues[id] < nextHandle)
    }

    /** The table at start: one runtime per configured alias, one queue per binding. */
    constructor (cfg: Config)
      requires ValidConfig(cfg)
      ensures Valid() && this.cfg == cfg && routes.Keys == cfg.Keys
    {
      this.cfg := cfg;
      routes, queues, nextHandle := map[], map[], 0;
      new;
      BuildConfigured();
      ConfiguredTable(cfg, routes);
      Include(routes);
    }

    method BuildConfigured()
      requires routes == map[]
      modifies this`routes, this`nextHandle
      ensures routes.Keys == cfg.Keys
      ensures forall a :: a in routes ==> routes[a].deviceId == cfg[a] && routes[a].handle < nextHandle
    {
      var todo := cfg.Keys;
      while todo != {}
        invariant todo <= cfg.Keys && routes.Keys == cfg.Keys - todo
        invariant forall a :: a in routes ==> routes[a].deviceId == cfg[a] && routes[a].handle < nextHandle
      {
        var a :| a in todo;
        todo := todo - {a};
        routes := routes[a := Route(cfg[a], nextHandle)];
        nextHandle := nextHandle + 1;
      }
    }

    /** Looks the configured alias of an id up, in whatever order the map is visited. */
    method FindAlias(id: nat) returns (alias: string)
      requires ValidConfig(cfg)
      ensures alias == AliasFor(cfg, id)
    {
      var todo := cfg.Keys;
      while todo != {}
        invariant todo <= cfg.Keys
        invariant forall a :: a in cfg && cfg[a] == Some(id) ==> a in todo
      {
        var a :| a in todo;
        if cfg[a] == Some(id) {
          return a;
        }
        todo := todo - {a};
      }
      alias := AutoAlias(id);
    }

    method Plan(inventory: seq<string>) returns (r: Result<map<string, nat>, Error>)
      requires ValidConfig(cfg)
      ensures r.Ok? <==> Plannable(cfg, inventory)
      ensures r.Ok? ==> PlanOk(cfg, r.value) && PlanNames(cfg, inventory, r.value)
    {
      if |inventory| > MAX_INTERCOMS {
        return Err(Unavailable);
      }
      var plan: map<string, nat> := map[];
      for i := 0 to |inventory|
        invariant PlanOk(cfg, plan)
        invariant PrefixOk(cfg, inventory, i)
        invariant PlanNames(cfg, inventory[..i], plan)
      {
        var id := ParseDigits(inventory[i]);
        if id.None? || id.value == 0 {
          assert !ItemOk(cfg, inventory[i]);
          return Err(Unavailable);
        }
        var alias := FindAlias(id.value);
        if alias in cfg && cfg[alias] != Some(id.value) {
          assert !ItemOk(cfg, inventory[i]);
          return Err(Conflict);
        }
        PlanStep(cfg, inventory, i, plan, id.value);
        if alias in plan {
          return Err(Unavailable);
        }
        plan := plan[alias := id.value];
      }
      assert inventory[..|inventory|] == inventory;
      r := Ok(plan);
    }

    /** Replaces the route table by the configured routes and those of the inventory. Whatever survives
        is the same object, and a failed call changes nothing. */
    method Provision(inventory: seq<string>, buildOk: bool) returns (r: Result<(), Error>)
      requires Valid()
      modifies this`routes, this`queues, this`nextHandle
      ensures Valid() && nextHandle >= old(nextHandle)
      ensures r.Err? ==> routes == old(routes) && queues == old(queues)
      ensures r.Ok? <==>
        Plannable(cfg, inventory) && (buildOk || forall a :: Discovered(cfg, inventory, a) ==> a in old(routes))
      ensures r.Ok? ==> forall a :: a in routes <==> a in cfg || Discovered(cfg, inventory, a)
      ensures forall a :: a in routes && a !in cfg ==>
        routes[a].deviceId.Some? && a == "intercom-" + Decimal(routes[a].deviceId.value)
      ensures SameObjects(old(routes), routes) && SameQueues(old(queues), queues)
      ensures forall a :: a in routes && a !in old(routes) ==> routes[a].handle >= old(nextHandle)
    {
      var plan := Plan(inventory);
      if plan.Err? {
        return Err(plan.error);
      }
      forall a
        ensures a in plan.value <==> Discovered(cfg, inventory, a)
      {
        if a in plan.value {
          assert Names(cfg, inventory, a, plan.value[a]);
        }
      }
      if !buildOk && !(plan.value.Keys <= routes.Keys) {
        return Err(Unavailable);
      }
      Publish(plan.value);
      r := Ok(());
    }

    method Publish(plan: map<string, nat>)
      requires Valid() && PlanOk(cfg, plan)
      modifies this`routes, this`queues, this`nextHandle
      ensures Valid() && nextHandle >= old(nextHandle)
      ensures routes.Keys == cfg.Keys + plan.Keys
      ensures SameObjects(old(routes), routes) && SameQueues(old(queues), queues)
      ensures forall a :: a in routes && a !in old(routes) ==> routes[a].handle >= old(nextHandle)
    {
      var next := Extend(plan);
      TableKept(cfg, routes, plan, next);
      Install(next);
    }

    /** Makes a well-formed table the current one, with its queues. */
    method Install(next: map<string, Route>)
      requires ValidConfig(cfg) && TableOk(cfg, next)
      requires forall a :: a in next ==> next[a].handle < nextHandle
      requires forall id :: id in queues ==> queues[id] < nextHandle
      modifies this`routes, this`queues, this`nextHandle
      ensures Valid() && routes == next && nextHandle >= old(nextHandle)
      ensures SameQueues(old(queues), queues)
    {
      Include(next);
      routes := next;
    }

    /** The next table: configured routes, and for each planned alias its route or a new runtime. */
    method Extend(plan: map<string, nat>) returns (next: map<string, Route>)
      requires cfg.Keys <= routes.Keys && forall a :: a in routes ==> routes[a].handle < nextHandle
      modifies this`nextHandle
      ensures nextHandle >= old(nextHandle)
      ensures Extends(cfg, routes, plan, next)
      ensures forall a :: a in next && a !in routes ==> old(nextHandle) <= next[a].handle < nextHandle
    {
      next := map a | a in routes && a in cfg :: routes[a];
      var todo := plan.Keys;
      while todo != {}
        invariant todo <= plan.Keys && nextHandle >= old(nextHandle)
        invariant next.Keys == cfg.Keys + (plan.Keys - todo)
        invariant forall a :: a in next && a in routes ==> next[a] == routes[a]
        invariant forall a :: a in next && a !in routes ==>
          a in plan && next[a].deviceId == Some(plan[a]) && old(nextHandle) <= next[a].handle < nextHandle
      {
        var a :| a in todo;
        todo := todo - {a};
        if a in routes {
          next := next[a := routes[a]];
        } else {
          next := next[a := Route(Some(plan[a]), nextHandle)];
          nextHandle := nextHandle + 1;
        }
      }
    }

    /** One queue per binding; existing queues stay, disappeared ones go. */
    method Include(next: map<string, Route>)
      requires forall id :: id in queues ==> queues[id] < nextHandle
      modifies this`queues, this`nextHandle
      ensures nextHandle >= old(nextHandle)
      ensures forall id :: id in queues <==> Bound(next, id)
      ensures forall id :: id in queues ==> queues[id] < nextHandle
      ensures SameQueues(old(queues), queues)
      ensures forall id :: id in queues && id !in old(queues) ==> queues[id] >= old(nextHandle)
    {
      var before := queues;
      var kept: map<Option<nat>, nat> := map[];
      var todo := set a | a in next :: next[a].deviceId;
      ghost var all := todo;
      while todo != {}
        invariant todo <= all && kept.Keys == all - todo && nextHandle >= old(nextHandle)
        invariant queues == before == old(queues)
        invariant forall id :: id in kept ==> kept[id] < nextHandle
        invariant forall id :: id in kept && id in before ==> kept[id] == before[id]
        invariant forall id :: id in kept && id !in before ==> kept[id] >= old(nextHandle)
      {
        var id :| id in todo;
        todo := todo - {id};
        if id in before {
          kept := kept[id := before[id]];
        } else {
          kept := kept[id := nextHandle];
          nextHandle := nextHandle + 1;
        }
      }
      queues := kept;
    }
  }

  /** The table and the queues at one moment. */
  datatype Snapshot = Snapshot(routes: map<string, Route>, queues: map<Option<nat>, nat>)

  /** Whatever is in every snapshot is the same object in all of them. */
  ghost predicate SurvivorsKeepTheirObjects(history: seq<Snapshot>) {
    && (forall a, i, j :: 0 <= i < j < |history| && RouteThroughout(history, a) ==>
          history[i].routes[a] == history[j].routes[a])
    && (forall id, i, j :: 0 <= i < j < |history| && QueueThroughout(history, id) ==>
          history[i].queues[id] == history[j].queues[id])
  }

  ghost predicate RouteThroughout(history: seq<Snapshot>, a: string) {
    forall k :: 0 <= k < |history| ==> a in history[k].routes
  }

  ghost predicate QueueThroughout(history: seq<Snapshot>, id: Option<nat>) {
    forall k :: 0 <= k < |history| ==> id in history[k].queues
  }

  ghost predicate SameQueues(before: map<Option<nat>, nat>, after: map<Option<nat>, nat>) {
    forall id :: id in after && id in before ==> after[id] == before[id]
  }

  lemma SurvivorsMore(history: seq<Snapshot>, next: Snapshot)
    requires history != [] && SurvivorsKeepTheirObjects(history)
    requires var last := history[|history| - 1];
             SameObjects(last.routes, next.routes) && SameQueues(last.queues, next.queues)
    ensures SurvivorsKeepTheirObjects(history + [next])
  {
    var all, n := history + [next], |history|;
    assert forall k :: 0 <= k < n ==> all[k] == history[k];
    forall a, i, j | 0 <= i < j < |all| && RouteThroughout(all, a) ensures all[i].routes[a] == all[j].routes[a] {
      assert RouteThroughout(history, a);
      assert a in all[n - 1].routes && a in all[n].routes;
    }
    forall id, i, j | 0 <= i < j < |all| && QueueThroughout(all, id) ensures all[i].queues[id] == all[j].queues[id] {
      assert QueueThroughout(history, id);
      assert id in all[n - 1].queues && id in all[n].queues;
    }
  }

  /** Configured aliases are in every snapshot, with the runtime of the first. */
  ghost predicate ConfiguredThroughout(cfg: Config, history: seq<Snapshot>) {
    forall a :: a in cfg ==> RouteThroughout(history, a) && SameRouteThroughout(history, a)
  }

  ghost predicate SameRouteThroughout(history: seq<Snapshot>, a: string)
    requires RouteThroughout(history, a)
  {
    forall k :: 0 <= k < |history| ==> history[k].routes[a] == history[0].routes[a]
  }

  lemma ConfiguredMore(cfg: Config, history: seq<Snapshot>, next: Snapshot)
    requires history != [] && ConfiguredThroughout(cfg, history) && cfg.Keys <= next.routes.Keys
    requires SameObjects(history[|history| - 1].routes, next.routes)
    ensures ConfiguredThroughout(cfg, history + [next])
  {
    var all, n := history + [next], |history|;
    assert forall k :: 0 <= k < n ==> all[k] == history[k];
    forall a | a in cfg ensures RouteThroughout(all, a) && SameRouteThroughout(all, a) {
      assert RouteThroughout(history, a) && SameRouteThroughout(history, a);
      assert a in history[n - 1].routes && history[n - 1].routes[a] == history[0].routes[a];
    }
  }

  /** Any number of successful and failed discoveries: the table stays well formed, and every route and queue that was
      there all along is the same object, its session gate included; configured aliases always are. */
  method ProvisionAll(table: RouteTable, inventories: seq<seq<string>>, buildOk: seq<bool>)
    returns (ghost history: seq<Snapshot>)
    requires table.Valid() && |buildOk| == |inventories|
    modifies table
    ensures table.Valid() && |history| == |inventories| + 1
    ensures history[0] == old(Snapshot(table.routes, table.queues))
    ensures history[|inventories|] == Snapshot(table.routes, table.queues)
    ensures SurvivorsKeepTheirObjects(history)
    ensures ConfiguredThroughout(table.cfg, history)
  {
    history := [Snapshot(table.routes, table.queues)];
    for i := 0 to |inventories|
      invariant table.Valid() && |history| == i + 1
      invariant history[0] == old(Snapshot(table.routes, table.queues))
      invariant history[i] == Snapshot(table.routes, table.queues)
      invariant SurvivorsKeepTheirObjects(history)
      invariant ConfiguredThroughout(table.cfg, history)
    {
      var _ := table.Provision(inventories[i], buildOk[i]);
      SurvivorsMore(history, Snapshot(table.routes, table.queues));
      ConfiguredMore(table.cfg, history, Snapshot(table.routes, table.queues));
      history := history + [Snapshot(table.routes, table.queues)];
    }
  }

  // ------------------------------------------------------------------- resolution

  function ExpectedId(route: Route, value: Option<string>): Result<nat, Error> {
    if value.Some? && ParseId(value.value).None? then Err(Mismatch)
    else
      var expected := if value.Some? then ParseId(value.value) else None;
      match route.deviceId
      case Some(actual) => if expected.Some? && expected.value != actual then Err(Mismatch) else Ok(actual)
      case None => if expected.Some? then Ok(expected.value) else Err(Mismatch)
  }

  ghost function AudioTarget(routes: map<string, Route>, alias: string, value: Option<string>)
    : Result<(Route, nat), Error>
  {
    if alias !in routes then Err(NotFound)
    else
      match ExpectedId(routes[alias], value)
      case Err(e) => Err(e)
      case Ok(id) =>
        if routes[alias].deviceId.Some? then Ok((routes[alias], id))
        else if exists a :: a in routes && routes[a].deviceId == Some(id) then
          var a :| a in routes && routes[a].deviceId == Some(id);
          Ok((routes[a], id))
        else Err(NotFound)
  }

  /** A request never reaches another device than the one pinned, and all aliases and pins that resolve to
      one physical id reach one and the same runtime: a legacy alias shares the gate of the bound one. */
  lemma OneRuntimePerDevice(cfg: Config, routes: map<string, Route>, a: string, x: Option<string>, b: string,
                            y: Option<string>)
    requires TableOk(cfg, routes) && AudioTarget(routes, a, x).Ok?
    ensures var (route, id) := AudioTarget(routes, a, x).value;
            && route.deviceId == Some(id)
            && (x.Some? ==> x.value == Decimal(id))
            && (AudioTarget(routes, b, y).Ok? && AudioTarget(routes, b, y).value.1 == id ==>
                  AudioTarget(routes, b, y).value.0 == route)
  {
    var (route, id) := AudioTarget(routes, a, x).value;
    if x.Some? {
      PinIsCanonical(x.value, id);
    }
  }

  /** Exactly when a request finds its device, and how it fails otherwise: an unknown alias is not found; a pin must be
      the decimal spelling of a positive id; on a bound alias it must be the bound id or absent; on an unbound one
      it is required, and some alias must be bound to it. */
  lemma TargetExactly(routes: map<string, Route>, alias: string, pin: Option<string>)
    ensures alias !in routes ==> AudioTarget(routes, alias, pin) == Err(NotFound)
    ensures alias in routes && pin.None? ==>
              AudioTarget(routes, alias, pin) ==
                match routes[alias].deviceId case Some(id) => Ok((routes[alias], id)) case None => Err(Mismatch)
    ensures alias in routes && pin.Some? && !(exists id: nat :: 0 < id <= U64_MAX && pin.value == Decimal(id)) ==>
              AudioTarget(routes, alias, pin) == Err(Mismatch)
    ensures forall id: nat :: alias in routes && 0 < id <= U64_MAX && pin == Some(Decimal(id)) ==>
              var t := AudioTarget(routes, alias, pin);
              match routes[alias].deviceId
              case Some(own) => t == if own == id then Ok((routes[alias], id)) else Err(Mismatch)
              case None =>
                if Bound(routes, Some(id)) then t.Ok? && t.value.1 == id && t.value.0.deviceId == Some(id)
                else t == Err(NotFound)
  {
    if alias in routes && pin.Some? {
      if ParseId(pin.value).Some? {
        PinIsCanonical(pin.value, ParseId(pin.value).value);
      }
      forall id: nat | 0 < id <= U64_MAX && pin == Some(Decimal(id))
        ensures ParseId(pin.value) == Some(id)
      {
        PinIsCanonical(pin.value, id);
      }
    }
  }

  ghost predicate Discovered(cfg: Config, inventory: seq<string>, alias: string) {
    exists id: nat :: Names(cfg, inventory, alias, id)
  }

  ghost predicate SameObjects(before: map<string, Route>, after: map<string, Route>) {
    forall a :: a in after && a in before ==> after[a] == before[a]
  }

  ghost predicate Extends(cfg: Config, routes: map<string, Route>, plan: map<string, nat>, next: map<string, Route>) {
    && next.Keys == cfg.Keys + plan.Keys
    && (forall a :: a in next && a in routes ==> next[a] == routes[a])
    && (forall a :: a in next && a !in routes ==> a in plan && next[a].deviceId == Some(plan[a]))
  }

  lemma NamesSnoc(cfg: Config, items: seq<string>, item: string, a: string, n: nat)
    ensures Names(cfg, items + [item], a, n) <==>
            Names(cfg, items, a, n) || (ParseU64(item) == Some(n) && a == AliasFor(cfg, n))
  {
    var all := items + [item];
    if Names(cfg, items, a, n) {
      var k :| 0 <= k < |items| && ParseU64(items[k]) == Some(n) && a == AliasFor(cfg, n);
      assert all[k] == items[k];
    }
    if Names(cfg, all, a, n) {
      var k :| 0 <= k < |all| && ParseU64(all[k]) == Some(n) && a == AliasFor(cfg, n);
      assert k < |items| ==> items[k] == all[k];
    }
    assert all[|items|] == item;
  }

  lemma PlanStep(cfg: Config, inventory: seq<string>, i: nat, plan: map<string, nat>, id: nat)
    requires i < |inventory| && ParseU64(inventory[i]) == Some(id) && PlanOk(cfg, plan)
    requires var alias := AliasFor(cfg, id); alias in cfg ==> cfg[alias] == Some(id)
    requires PlanNames(cfg, inventory[..i], plan)
    ensures var alias := AliasFor(cfg, id);
            && (alias in plan <==> SeenBefore(inventory, i))
            && (alias !in plan ==> PlanNames(cfg, inventory[..i + 1], plan[alias := id]))
  {
    var alias, items := AliasFor(cfg, id), inventory[..i];
    assert inventory[..i + 1] == items + [inventory[i]];
    if alias in plan {
      SameAliasSameId(cfg, plan[alias], id);
      assert Names(cfg, items, alias, id);
      var k :| 0 <= k < |items| && ParseU64(items[k]) == Some(id);
      assert inventory[k] == items[k];
    }
    if k :| 0 <= k < i && ParseU64(inventory[k]) == Some(id) {
      assert items[k] == inventory[k];
      assert Names(cfg, items, alias, id);
    }
    if alias !in plan {
      PlanGrows(cfg, items, inventory[i], plan, id);
    }
  }

  lemma SameAliasSameId(cfg: Config, a: nat, b: nat)
    requires AliasFor(cfg, a) == AliasFor(cfg, b)
    requires AliasFor(cfg, a) in cfg ==> cfg[AliasFor(cfg, a)] == Some(a) == Some(b)
    ensures a == b
  {
    if AliasFor(cfg, a) !in cfg {
      AutoAliasInjective(a, b);
    }
  }

  lemma PlanGrows(cfg: Config, items: seq<string>, item: string, plan: map<string, nat>, id: nat)
    requires ParseU64(item) == Some(id) && PlanNames(cfg, items, plan) && AliasFor(cfg, id) !in plan
    ensures PlanNames(cfg, items + [item], plan[AliasFor(cfg, id) := id])
  {
    var after, all := plan[AliasFor(cfg, id) := id], items + [item];
    forall a: string, n: nat
      ensures (a in after && after[a] == n) <==> Names(cfg, all, a, n)
    {
      NamesSnoc(cfg, items, item, a, n);
    }
  }

  lemma ConfiguredTable(cfg: Config, routes: map<string, Route>)
    requires ValidConfig(cfg) && routes.Keys == cfg.Keys
    requires forall a :: a in routes ==> routes[a].deviceId == cfg[a]
    ensures TableOk(cfg, routes)
  {
  }

  lemma TableKept(cfg: Config, routes: map<string, Route>, plan: map<string, nat>, next: map<string, Route>)
    requires ValidConfig(cfg) && TableOk(cfg, routes) && PlanOk(cfg, plan) && Extends(cfg, routes, plan, next)
    ensures TableOk(cfg, next)
    ensures forall a :: a in plan ==> next[a].deviceId == Some(plan[a])
  {
    forall a | a in plan
      ensures next[a].deviceId == Some(plan[a])
    {
      if a in routes && a !in cfg {
        AutoAliasInjective(routes[a].deviceId.value, plan[a]);
      }
    }
    forall a, b | a in next && b in next && a != b && next[a].deviceId.Some?
      ensures next[a].deviceId != next[b].deviceId
    {
      Distinct(cfg, plan, next, a, b);
    }
  }

  lemma Distinct(cfg: Config, plan: map<string, nat>, next: map<string, Route>, a: string, b: string)
    requires ValidConfig(cfg) && PlanOk(cfg, plan) && next.Keys == cfg.Keys + plan.Keys
    requires forall x :: x in cfg ==> next[x].deviceId == cfg[x]
    requires forall x :: x in plan ==> next[x].deviceId == Some(plan[x])
    requires a in next && b in next && a != b && next[a].deviceId.Some?
    ensures next[a].deviceId != next[b].deviceId
  {
  }
}
