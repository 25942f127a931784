/** The admission controller as an object over limiter objects. */
module Admission {
  import opened Machine
  import opened Limiters
  import opened AdmissionProtocol

  /** A tier's share of the global ceiling: floored, but never zero. */
  function TierCeiling(globalMax: nat, percent: nat): nat {
    var share := SatMul(globalMax, percent) / 100;
    Max(share, 1)
  }

  /** The share is the product in hundredths rounded down, or one if that is less; the product saturates. */
  lemma TierCeilingExact(globalMax: nat, percent: nat, t: nat)
    ensures t == TierCeiling(globalMax, percent)
       <==> var product := if globalMax * percent <= WORD_MAX then globalMax * percent else WORD_MAX;
            (100 * t <= product < 100 * t + 100 && t > 0) || (product < 100 && t == 1)
  {}

  /** A share of at most all of it is within the global ceiling, unless that is zero. */
  lemma TierCeilingWithin(globalMax: nat, percent: nat)
    requires percent <= 100 && globalMax >= 1
    ensures 1 <= TierCeiling(globalMax, percent) <= globalMax
  {
    assert globalMax * percent <= globalMax * 100;
  }

  lemma TierCeilingMonotone(a: nat, b: nat, p: nat, q: nat)
    requires a <= b && p <= q
    ensures TierCeiling(a, p) <= TierCeiling(b, q)
  {
    assert a * p <= b * p <= b * q;
  }

  function Index(p: Priority): nat {
    match p
    case High => 0
    case Normal => 1
    case Low => 2
  }

  /** What a reload says about one route. */
  datatype RouteLimit = RouteLimit(id: string, max: nat, queueMax: nat)

  /** The ceiling a reload leaves on each route it names: the last one listed for it. */
  function Ceilings(config: seq<RouteLimit>): map<string, nat> {
    if config == [] then map[]
    else Ceilings(config[..|config| - 1])[config[|config| - 1].id := config[|config| - 1].max]
  }

  lemma CeilingsPush(config: seq<RouteLimit>, i: nat)
    requires i < |config|
    ensures Ceilings(config[..i + 1]) == Ceilings(config[..i])[config[i].id := config[i].max]
  {
    assert config[..i + 1][..i] == config[..i];
  }

  datatype RouteLimiter = Unlimited | Limited(limiter: Limiter)

  function Counters(route: RouteLimiter, tier: Limiter, global: Limiter): set<Limiter> {
    {tier, global} + if route.Limited? then {route.limiter} else {}
  }

  datatype Outcome = Exempt | Admitted(units: nat) | Shed

  /** The route limiters, by route id. */
  class RouteRegistry {
    var routes: map<string, Limiter>
    /** Which route each limiter ever registered was made for. */
    ghost var owner: map<Limiter, string>

    ghost predicate Valid()
      reads this, routes.Values
    {
      forall id :: id in routes ==> routes[id] in owner && owner[routes[id]] == id && routes[id].Valid()
    }

    constructor ()
      ensures Valid() && routes == map[] && owner == map[]
    {
      routes, owner := map[], map[];
    }

    static method Retune(l: Limiter, limit: nat, queueMax: nat)
      requires l.Valid()
      modifies l
      ensures l.Valid() && l.limit == limit && l.queueMax == queueMax && l.inFlight == old(l.inFlight)
    {
      l.Resize(limit);
      l.SetQueue(queueMax);
    }

    /** Resize a registered route's limiter in place, or register a new one. */
    method Apply(c: RouteLimit)
      requires Valid()
      modifies this, if c.id in routes then {routes[c.id]} else {}
      ensures Valid()
      ensures forall id :: id in routes <==> id in old(routes) || id == c.id
      ensures routes[c.id].limit == c.max && routes[c.id].queueMax == c.queueMax
      ensures forall id :: id in old(routes) ==>
                routes[id] == old(routes)[id] && routes[id].inFlight == old(routes[id].inFlight)
      ensures forall id :: id in old(routes) && id != c.id ==> routes[id].limit == old(routes[id].limit)
      ensures c.id !in old(routes) ==> fresh(routes[c.id]) && routes[c.id].inFlight == 0
      ensures forall l :: l in owner ==> l in old(owner) || fresh(l)
    {
      if c.id in routes {
        Retune(routes[c.id], c.max, c.queueMax);
      } else {
        var l := new Limiter(c.max, c.queueMax);
        routes, owner := routes[c.id := l], owner[l := c.id];
      }
    }

    method ApplyAll(config: seq<RouteLimit>)
      requires Valid()
      modifies this, routes.Values
      ensures Valid()
      ensures forall id :: id in routes <==> id in old(routes) || id in Ceilings(config)
      ensures forall id :: id in Ceilings(config) ==> routes[id].limit == Ceilings(config)[id]
      ensures forall id :: id in old(routes) ==>
                routes[id] == old(routes)[id] && routes[id].inFlight == old(routes[id].inFlight)
      ensures forall id :: id in routes && id !in old(routes) ==> fresh(routes[id]) && routes[id].inFlight == 0
      ensures forall l :: l in owner ==> l in old(owner) || fresh(l)
    {
      ghost var done: map<string, nat> := map[];
      for i := 0 to |config|
        invariant Valid() && done == Ceilings(config[..i])
        invariant forall id :: id in routes <==> id in old(routes) || id in done
        invariant forall id :: id in done ==> routes[id].limit == done[id]
        invariant forall id :: id in old(routes) ==>
                    routes[id] == old(routes)[id] && routes[id].inFlight == old(routes[id].inFlight)
        invariant forall id :: id in routes && id !in old(routes) ==> fresh(routes[id]) && routes[id].inFlight == 0
        invariant forall l :: l in owner ==> l in old(owner) || fresh(l)
      {
        CeilingsPush(config, i);
        Apply(config[i]);
        done := done[config[i].id := config[i].max];
      }
      assert config[..|config|] == config;
    }

    static method CollectIds(config: seq<RouteLimit>) returns (ids: set<string>)
      ensures forall id :: id in ids <==> id in Ceilings(config)
    {
      ids := {};
      for i := 0 to |config|
        invariant forall id :: id in ids <==> id in Ceilings(config[..i])
      {
        CeilingsPush(config, i);
        ids := ids + {config[i].id};
      }
      assert config[..|config|] == config;
    }

    /**
      Apply a reloaded configuration in place. Units out are untouched; a route
      that disappeared leaves the registry, but its limiter lives on.
     */
    method Reload(config: seq<RouteLimit>)
      requires Valid()
      modifies this, routes.Values
      ensures Valid()
      ensures forall id :: id in routes <==> id in Ceilings(config)
      ensures forall id :: id in routes ==> routes[id].limit == Ceilings(config)[id]
      ensures forall id :: id in old(routes) ==> old(routes)[id].inFlight == old(routes[id].inFlight)
      ensures forall id :: id in routes && id in old(routes) ==> routes[id] == old(routes)[id]
      ensures forall id :: id in routes && id !in old(routes) ==> fresh(routes[id]) && routes[id].inFlight == 0
      ensures forall l :: l in owner ==> l in old(owner) || fresh(l)
    {
      ApplyAll(config);
      var keep := CollectIds(config);
      routes := map id | id in routes && id in keep :: routes[id];
    }
  }

  class AdmissionController {
    const global: Limiter
    const tiers: seq<Limiter>
    const registry: RouteRegistry

    /** Each ceiling has its own limiter, and each of those is in order. */
    ghost predicate Valid()
      reads this, registry, registry.routes.Values, global, tiers
    {
      && |tiers| == 3
      && tiers[0] != tiers[1] && tiers[1] != tiers[2] && tiers[0] != tiers[2]
      && global.Valid() && global !in registry.owner
      && (forall i :: 0 <= i < 3 ==> tiers[i] != global && tiers[i].Valid() && tiers[i] !in registry.owner)
      && registry.Valid()
    }

    constructor (globalMax: nat, queueMax: nat, percents: seq<nat>)
      requires |percents| == 3
      ensures Valid() && fresh(registry) && registry.routes == map[]
      ensures global.limit == globalMax && forall i :: 0 <= i < 3 ==> tiers[i].limit == TierCeiling(globalMax, percents[i])
      ensures global.inFlight == 0 && forall i :: 0 <= i < 3 ==> tiers[i].inFlight == 0
    {
      global := new Limiter(globalMax, queueMax);
      var high := new Limiter(TierCeiling(globalMax, percents[0]), queueMax);
      var normal := new Limiter(TierCeiling(globalMax, percents[1]), queueMax);
      var low := new Limiter(TierCeiling(globalMax, percents[2]), queueMax);
      tiers := [high, normal, low];
      registry := new RouteRegistry();
    }

    /**
      Ask for capacity without queueing: route, then tier, then global. A refusal
      further down hands back whatever was taken on the way.
     */
    method Admit(consumes: bool, route: RouteLimiter, priority: Priority, weight: nat) returns (r: Outcome)
      requires Valid()
      requires route.Limited? ==> route.limiter.Valid() && route.limiter != global && route.limiter !in tiers
      modifies Counters(route, tiers[Index(priority)], global)
      ensures Valid() && registry.routes == old(registry.routes)
      ensures route.Limited? ==> route.limiter.Valid()
      ensures var units := if r.Admitted? then Max(weight, 1) else 0;
              && global.inFlight == old(global.inFlight) + units
              && tiers[Index(priority)].inFlight == old(tiers[Index(priority)].inFlight) + units
              && (route.Limited? ==> route.limiter.inFlight == old(route.limiter.inFlight) + units)
      ensures r.Exempt? <==> !consumes
      ensures r.Admitted? <==>
                && consumes
                && (route.Limited? ==> old(route.limiter.inFlight) + Max(weight, 1) <= old(route.limiter.limit))
                && old(tiers[Index(priority)].inFlight) + Max(weight, 1) <= old(tiers[Index(priority)].limit)
                && old(global.inFlight) + Max(weight, 1) <= old(global.limit)
    {
      if !consumes {
        return Exempt;
      }
      var ok := TakeAll(route, tiers[Index(priority)], global, weight);
      return if ok then Admitted(Max(weight, 1)) else Shed;
    }

    /** The three acquisitions in order; a refusal drops the permits already taken. */
    static method TakeAll(route: RouteLimiter, tier: Limiter, global: Limiter, weight: nat) returns (ok: bool)
      requires tier.Valid() && global.Valid() && tier != global
      requires route.Limited? ==> route.limiter.Valid() && route.limiter != global && route.limiter != tier
      modifies Counters(route, tier, global)
      ensures tier.Valid() && global.Valid() && (route.Limited? ==> route.limiter.Valid())
      ensures ok <==>
                && (route.Limited? ==> old(route.limiter.inFlight) + Max(weight, 1) <= route.limiter.limit)
                && old(tier.inFlight) + Max(weight, 1) <= tier.limit
                && old(global.inFlight) + Max(weight, 1) <= global.limit
      ensures var units := if ok then Max(weight, 1) else 0;
              && global.inFlight == old(global.inFlight) + units
              && tier.inFlight == old(tier.inFlight) + units
              && (route.Limited? ==> route.limiter.inFlight == old(route.limiter.inFlight) + units)
      ensures global.limit == old(global.limit) && tier.limit == old(tier.limit)
      ensures route.Limited? ==> route.limiter.limit == old(route.limiter.limit)
    {
      var units := Max(weight, 1);
      if route.Limited? {
        var onRoute := route.limiter.TryAcquire(weight);
        if !onRoute {
          return false;
        }
      }
      var onTier := tier.TryAcquire(weight);
      if !onTier {
        if route.Limited? {
          route.limiter.Return(units);
        }
        return false;
      }
      var onGlobal := global.TryAcquire(weight);
      if !onGlobal {
        tier.Return(units);
        if route.Limited? {
          route.limiter.Return(units);
        }
        return false;
      }
      return true;
    }

    /** Every ceiling takes its new value at once; what is out stays out. */
    method ApplyLimits(globalMax: nat, queueMax: nat, percents: seq<nat>, config: seq<RouteLimit>)
      requires Valid() && |percents| == 3
      modifies registry, registry.routes.Values, global, tiers
      ensures Valid()
      ensures global.limit == globalMax && global.inFlight == old(global.inFlight)
      ensures forall i :: 0 <= i < 3 ==>
                tiers[i].limit == TierCeiling(globalMax, percents[i]) && tiers[i].inFlight == old(tiers[i].inFlight)
      ensures forall id :: id in registry.routes <==> id in Ceilings(config)
      ensures forall id :: id in registry.routes ==> registry.routes[id].limit == Ceilings(config)[id]
      ensures forall id :: id in old(registry.routes) ==>
                old(registry.routes)[id].inFlight == old(registry.routes[id].inFlight)
      ensures forall id :: id in registry.routes && id in old(registry.routes) ==>
                registry.routes[id] == old(registry.routes)[id]
    {
      ResizeShared(globalMax, queueMax, percents);
      registry.Reload(config);
    }

    method ResizeShared(globalMax: nat, queueMax: nat, percents: seq<nat>)
      requires Valid() && |percents| == 3
      modifies global, tiers
      ensures Valid() && global.limit == globalMax && global.inFlight == old(global.inFlight)
      ensures forall i :: 0 <= i < 3 ==>
                tiers[i].limit == TierCeiling(globalMax, percents[i]) && tiers[i].inFlight == old(tiers[i].inFlight)
    {
      RouteRegistry.Retune(global, globalMax, queueMax);
      for i := 0 to 3
        invariant global.Valid() && global.limit == globalMax && global.inFlight == old(global.inFlight)
        invariant forall j :: 0 <= j < 3 ==> tiers[j].Valid() && tiers[j].inFlight == old(tiers[j].inFlight)
        invariant forall j :: 0 <= j < i ==> tiers[j].limit == TierCeiling(globalMax, percents[j])
      {
        RouteRegistry.Retune(tiers[i], TierCeiling(globalMax, percents[i]), queueMax);
      }
    }
  }
}
