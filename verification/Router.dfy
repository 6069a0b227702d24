/**
 Provider selection of internal/router/router.go: health and interface filtering,
 then fallback order or weighted round-robin.
 */
module Router {
  import opened Prelude

  datatype Provider = Provider(id: string, topic: string, weight: int, interfaceRef: string)

  datatype Route = Route(pluginId: string, slot: string, capabilityType: string, providers: seq<Provider>, strategy: string)

  // nil checker: None.
  type Health = Option<string -> bool>

  // ---- interfaceMajor --------------------------------------------------------------------

  // The part after the last '@', if there is one.
  function Version(ref: string): Option<string> {
    if ref == "" then None
    else if ref[|ref| - 1] == '@' then Some("")
    else
      match Version(ref[..|ref| - 1])
      case None => None
      case Some(v) => Some(v + [ref[|ref| - 1]])
  }

  function UntilDot(s: string): string {
    if s == "" || s[0] == '.' then "" else [s[0]] + UntilDot(s[1..])
  }

  function InterfaceMajor(ref: string): string {
    match Version(ref)
    case None => ""
    case Some(v) => UntilDot(v)
  }

  // For name@major.rest, whatever the name: the major version.
  lemma MajorOf(name: string, major: string, rest: string)
    requires '@' !in major && '.' !in major && '@' !in rest && (rest != "" ==> rest[0] == '.')
    ensures InterfaceMajor(name + "@" + major + rest) == major
  {
    VersionOf(name, major + rest);
    assert name + "@" + major + rest == name + "@" + (major + rest);
    UntilDotOf(major, rest);
  }

  // Without a version there is no major version.
  lemma {:induction false} NoMajor(ref: string)
    requires '@' !in ref
    ensures InterfaceMajor(ref) == ""
  {
    if ref != "" {
      NoMajor(ref[..|ref| - 1]);
    }
  }

  lemma {:induction false} VersionOf(name: string, v: string)
    requires '@' !in v
    ensures Version(name + "@" + v) == Some(v)
  {
    var ref := name + "@" + v;
    if v == "" {
      assert ref[|ref| - 1] == '@';
    } else {
      assert ref[..|ref| - 1] == name + "@" + v[..|v| - 1];
      VersionOf(name, v[..|v| - 1]);
      assert v[..|v| - 1] + [v[|v| - 1]] == v;
    }
  }

  lemma {:induction false} UntilDotOf(major: string, rest: string)
    requires '.' !in major && (rest != "" ==> rest[0] == '.')
    ensures UntilDot(major + rest) == major
  {
    if major == "" {
      assert major + rest == rest;
    } else {
      assert (major + rest)[1..] == major[1..] + rest;
      UntilDotOf(major[1..], rest);
    }
  }

  // ---- Filtering ---------------------------------------------------------------------------

  datatype Test = Healthy(ok: string -> bool) | Major(ref: string)

  predicate Passes(t: Test, p: Provider) {
    match t
    case Healthy(ok) => ok(p.id)
    case Major(ref) => InterfaceMajor(p.interfaceRef) in {"", ref}
  }

  // The providers that pass, in their order.
  function Kept(t: Test, all: seq<Provider>): seq<Provider> {
    if all == [] then []
    else Kept(t, all[..|all| - 1]) + (if Passes(t, all[|all| - 1]) then [all[|all| - 1]] else [])
  }

  // An order-preserving selection of positions.
  ghost predicate SublistAt(sub: seq<Provider>, all: seq<Provider>, at: seq<nat>) {
    && |at| == |sub|
    && (forall i :: 0 <= i < |at| ==> at[i] < |all| && all[at[i]] == sub[i])
    && (forall i, j :: 0 <= i < j < |at| ==> at[i] < at[j])
  }

  ghost predicate Sublist(sub: seq<Provider>, all: seq<Provider>) {
    exists at: seq<nat> :: SublistAt(sub, all, at)
  }

  lemma {:induction false} KeptIsSublist(t: Test, all: seq<Provider>) returns (at: seq<nat>)
    ensures SublistAt(Kept(t, all), all, at)
    ensures forall k :: 0 <= k < |all| ==> (Passes(t, all[k]) <==> k in at)
    ensures forall p :: p in Kept(t, all) <==> p in all && Passes(t, p)
  {
    if all == [] {
      at := [];
    } else {
      var last := |all| - 1;
      var at0 := KeptIsSublist(t, all[..last]);
      at := at0 + (if Passes(t, all[last]) then [last] else []);
      assert all == all[..last] + [all[last]];
    }
  }

  lemma SublistTransitive(a: seq<Provider>, b: seq<Provider>, d: seq<Provider>, ab: seq<nat>, bd: seq<nat>)
    requires SublistAt(a, b, ab) && SublistAt(b, d, bd)
    ensures Sublist(a, d)
  {
    var at: seq<nat> := seq(|ab|, (i: nat) requires i < |ab| => bd[ab[i]]);
    assert SublistAt(a, d, at);
  }

  lemma SublistSelf(a: seq<Provider>) returns (at: seq<nat>)
    ensures SublistAt(a, a, at)
  {
    at := seq(|a|, (i: nat) => i);
  }

  // Providers that the health check leaves: all of them when none is healthy.
  method HealthyProviders(all: seq<Provider>, health: Health) returns (healthy: seq<Provider>)
    ensures healthy == HealthyOf(all, health)
  {
    if health == None {
      return all;
    }
    healthy := [];
    for i := 0 to |all|
      invariant healthy == Kept(Healthy(health.value), all[..i])
    {
      assert all[..i + 1][..i] == all[..i];
      if health.value(all[i].id) {
        healthy := healthy + [all[i]];
      }
    }
    assert all[..|all|] == all;
    if healthy == [] {
      return all;
    }
  }

  function HealthyOf(all: seq<Provider>, health: Health): seq<Provider> {
    if health == None || Kept(Healthy(health.value), all) == [] then all else Kept(Healthy(health.value), all)
  }

  // The first major version declared.
  function PrimaryMajor(all: seq<Provider>): string {
    if all == [] then ""
    else if InterfaceMajor(all[0].interfaceRef) != "" then InterfaceMajor(all[0].interfaceRef)
    else PrimaryMajor(all[1..])
  }

  function CompatibleOf(all: seq<Provider>): seq<Provider> {
    if PrimaryMajor(all) == "" then all else Kept(Major(PrimaryMajor(all)), all)
  }

  // The empty-result fallback of the source is unreachable: the result is exactly
  // the filtered list.
  method CompatibleProviders(all: seq<Provider>) returns (out: seq<Provider>)
    ensures out == CompatibleOf(all)
    ensures all != [] ==> out != []
  {
    var ref := "";
    var i := 0;
    while i < |all| && ref == ""
      invariant 0 <= i <= |all|
      invariant PrimaryMajor(all) == if ref != "" then ref else PrimaryMajor(all[i..])
      invariant ref != "" ==> exists p :: p in all && InterfaceMajor(p.interfaceRef) == ref
    {
      ref := InterfaceMajor(all[i].interfaceRef);
      i := i + 1;
    }
    if ref == "" {
      return all;
    }
    out := [];
    for j := 0 to |all|
      invariant out == Kept(Major(ref), all[..j])
    {
      assert all[..j + 1][..j] == all[..j];
      var m := InterfaceMajor(all[j].interfaceRef);
      if m == "" || m == ref {
        out := out + [all[j]];
      }
    }
    assert all[..|all|] == all;
    var at := KeptIsSublist(Major(ref), all);
    if out == [] {
      out := all;
    }
  }

  // ---- Weighted round-robin -----------------------------------------------------------------

  function Weight(p: Provider): (w: int)
    ensures w >= 1
  {
    if p.weight <= 0 then 1 else p.weight
  }

  function TotalWeight(ps: seq<Provider>): nat {
    if ps == [] then 0 else TotalWeight(ps[..|ps| - 1]) + Weight(ps[|ps| - 1])
  }

  // The sum of the declared weights, those below 1 counting as 1.
  function Window(ps: seq<Provider>): nat {
    if ps == [] then 0
    else
      var w := ps[|ps| - 1].weight;
      Window(ps[..|ps| - 1]) + (if w >= 1 then w else 1)
  }

  lemma {:induction false} WindowIsTotal(ps: seq<Provider>)
    ensures TotalWeight(ps) == Window(ps)
  {
    if ps != [] {
      WindowIsTotal(ps[..|ps| - 1]);
    }
  }

  // Provider i owns the positions from the weight before it up to its own.
  predicate Leads(ps: seq<Provider>, i: nat, pos: int)
    requires i < |ps|
  {
    TotalWeight(ps[..i]) <= pos < TotalWeight(ps[..i]) + Weight(ps[i])
  }

  lemma {:induction false} PrefixWeight(ps: seq<Provider>, i: nat, j: nat)
    requires i < j <= |ps|
    ensures TotalWeight(ps[..i]) + Weight(ps[i]) <= TotalWeight(ps[..j])
  {
    assert ps[..j][..j - 1] == ps[..j - 1];
    if i < j - 1 {
      PrefixWeight(ps, i, j - 1);
    }
  }

  lemma OneLeader(ps: seq<Provider>, i: nat, j: nat, pos: int)
    requires i < |ps| && j < |ps| && Leads(ps, i, pos) && Leads(ps, j, pos)
    ensures i == j
  {
    if i < j { PrefixWeight(ps, i, j); } else if j < i { PrefixWeight(ps, j, i); }
  }

  // Ownership told by the declared weights.
  lemma LeadsByWeight(ps: seq<Provider>, i: nat, pos: int)
    requires i < |ps| && Leads(ps, i, pos)
    ensures Window(ps[..i]) <= pos < Window(ps[..i + 1]) && Window(ps) == TotalWeight(ps)
  {
    WindowIsTotal(ps);
    WindowIsTotal(ps[..i]);
    WindowIsTotal(ps[..i + 1]);
    assert ps[..i + 1][..i] == ps[..i];
  }

  function Rotated(ps: seq<Provider>, start: nat): seq<Provider>
    requires start < |ps|
  {
    ps[start..] + ps[..start]
  }

  const UINT64: int := 0x1_0000_0000_0000_0000

  class Balancer {
    var counters: map<string, int>  // uint64, per route signature
    const health: Health

    constructor (health: Health)
      ensures counters == map[] && this.health == health
    {
      this.counters, this.health := map[], health;
    }

    function Counter(sig: string): int
      reads this
    {
      if sig in counters then counters[sig] else 0
    }

    ghost predicate Valid()
      reads this
    {
      forall sig :: sig in counters ==> 0 <= counters[sig] < UINT64
    }

    // Returns the sequence number and advances the counter, wrapping at 2^64.
    method NextCount(sig: string) returns (n: int)
      requires Valid()
      modifies this
      ensures Valid() && n == old(Counter(sig))
      ensures Counter(sig) == (n + 1) % UINT64
      ensures forall other :: other != sig ==> Counter(other) == old(Counter(other))
    {
      if sig !in counters {
        counters := counters[sig := 0];
      }
      counters := counters[sig := (counters[sig] + 1) % UINT64];
      n := (counters[sig] - 1) % UINT64;
    }

    /** The failover candidates of a route, in order. */
    method OrderedProviders(route: Route) returns (ordered: seq<Provider>, ghost start: nat)
      requires Valid()
      modifies this
      ensures Valid()
      ensures
        var candidates := Candidates(route, health);
        && (route.providers == [] ==> ordered == [])
        && (route.providers != [] ==> start < |candidates| && ordered == Rotated(candidates, start))
        && (if |candidates| > 1 && route.strategy == "round_robin" then
              && Leads(candidates, start, old(Counter(Signature(route))) % TotalWeight(candidates))
              && Window(candidates[..start]) <= old(Counter(Signature(route))) % Window(candidates) < Window(candidates[..start + 1])
              && Counter(Signature(route)) == (old(Counter(Signature(route))) + 1) % 0x1_0000_0000_0000_0000
            else start == 0 && counters == old(counters))
    {
      hide Window, Signature, InterfaceMajor;
      start := 0;
      if route.providers == [] {
        ordered := [];
        return;
      }
      var healthy := HealthyProviders(route.providers, health);
      var ps := CompatibleProviders(healthy);
      if |ps| == 1 || route.strategy != "round_robin" {
        assert Rotated(ps, 0) == ps;
        return ps, 0;
      }
      var total := 0;
      for i := 0 to |ps|
        invariant total == TotalWeight(ps[..i])
      {
        assert ps[..i + 1][..i] == ps[..i];
        total := total + Weight(ps[i]);
      }
      assert ps[..|ps|] == ps;
      PrefixWeight(ps, 0, |ps|);
      var n := NextCount(Signature(route));
      var pos := n % total;
      var first := FindLeader(ps, pos);
      start := first;
      LeadsByWeight(ps, first, pos);
      ordered := [];
      for i := 0 to |ps|
        invariant |ordered| == i
        invariant forall k :: 0 <= k < i ==> ordered[k] == ps[(first + k) % |ps|]
      {
        ordered := ordered + [ps[(first + i) % |ps|]];
      }
      RotationByModulo(ps, first, ordered);
    }
  }

  // The scan that subtracts weights until the position falls inside one.
  method FindLeader(ps: seq<Provider>, position: int) returns (start: nat)
    requires 0 <= position < TotalWeight(ps)
    ensures start < |ps| && Leads(ps, start, position)
  {
    var pos := position;
    start := 0;
    assert ps[..|ps|] == ps;
    for i := 0 to |ps|
      invariant pos == position - TotalWeight(ps[..i]) && pos >= 0
    {
      var w := Weight(ps[i]);
      if pos < w {
        return i;
      }
      pos := pos - w;
      assert ps[..i + 1][..i] == ps[..i];
    }
    assert false;
  }

  lemma RotationByModulo(ps: seq<Provider>, start: nat, ordered: seq<Provider>)
    requires start < |ps| == |ordered|
    requires forall k :: 0 <= k < |ps| ==> ordered[k] == ps[(start + k) % |ps|]
    ensures ordered == Rotated(ps, start)
  {
    forall k | 0 <= k < |ps| ensures ordered[k] == Rotated(ps, start)[k] {
      WrapOnce(start + k, |ps|);
    }
  }

  lemma WrapOnce(a: nat, n: nat)
    requires 0 < n && a < 2 * n
    ensures a % n == if a < n then a else a - n
  {
  }

  function Signature(route: Route): string {
    route.pluginId + "|" + route.capabilityType + "|" + route.slot
  }

  function Candidates(route: Route, health: Health): seq<Provider> {
    CompatibleOf(HealthyOf(route.providers, health))
  }

  // ---- What the selection promises -------------------------------------------------------------

  // The candidates are an order-preserving part of the route's providers, empty only
  // if the route has none.
  lemma CandidatesAreSublist(route: Route, health: Health)
    ensures Sublist(Candidates(route, health), route.providers)
    ensures Candidates(route, health) == [] <==> route.providers == []
  {
    hide InterfaceMajor, Sublist;
    var all := route.providers;
    var hs := HealthyOf(all, health);
    var toAll := SublistSelf(all);
    if hs != all {
      toAll := KeptIsSublist(Healthy(health.value), all);
    }
    var toHealthy := SublistSelf(hs);
    if PrimaryMajor(hs) != "" {
      toHealthy := KeptIsSublist(Major(PrimaryMajor(hs)), hs);
      PrimaryDeclared(hs);
    }
    SublistTransitive(Candidates(route, health), hs, all, toHealthy, toAll);
  }

  // An unhealthy candidate appears only when every provider is unhealthy.
  lemma UnhealthyOnlyWithoutHealthy(route: Route, health: Health, p: Provider, q: Provider)
    requires health.Some? && p in Candidates(route, health) && !health.value(p.id)
    ensures q in route.providers ==> !health.value(q.id)
  {
    hide InterfaceMajor;
    var all := route.providers;
    var at := KeptIsSublist(Healthy(health.value), all);
    var at2 := KeptIsSublist(Major(PrimaryMajor(HealthyOf(all, health))), HealthyOf(all, health));
    if Kept(Healthy(health.value), all) == [] {
      NoneKept(Healthy(health.value), all);
    }
  }

  // Typed candidates share one major version; a healthy provider that was dropped
  // declares a different one.
  lemma OneMajor(route: Route, health: Health, p: Provider, q: Provider)
    requires q in Candidates(route, health) && InterfaceMajor(q.interfaceRef) != ""
    requires p in HealthyOf(route.providers, health)
    ensures p in Candidates(route, health) <==> InterfaceMajor(p.interfaceRef) in {"", InterfaceMajor(q.interfaceRef)}
  {
    hide InterfaceMajor;
    var hs := HealthyOf(route.providers, health);
    PrimaryDeclared(hs);
    var at := KeptIsSublist(Major(PrimaryMajor(hs)), hs);
  }

  // Not definitely unhealthy, or nobody is healthy.
  predicate Usable(route: Route, health: Health, p: Provider) {
    health == None || health.value(p.id) || forall q :: q in route.providers ==> !health.value(q.id)
  }

  // Provider i is the first usable one to declare a major version.
  predicate SetsMajor(route: Route, health: Health, i: nat) {
    && i < |route.providers| && Usable(route, health, route.providers[i])
    && InterfaceMajor(route.providers[i].interfaceRef) != ""
    && forall j :: 0 <= j < i && Usable(route, health, route.providers[j]) ==>
         InterfaceMajor(route.providers[j].interfaceRef) == ""
  }

  lemma UsableIsHealthy(route: Route, health: Health, p: Provider)
    requires p in route.providers
    ensures p in HealthyOf(route.providers, health) <==> Usable(route, health, p)
  {
    if health.Some? {
      var at := KeptIsSublist(Healthy(health.value), route.providers);
      if Kept(Healthy(health.value), route.providers) == [] {
        NoneKept(Healthy(health.value), route.providers);
      } else {
        var q := Kept(Healthy(health.value), route.providers)[0];
        assert q in Kept(Healthy(health.value), route.providers);
      }
    }
  }

  lemma {:induction false} FirstMajor(all: seq<Provider>, i: nat)
    requires i < |all| && InterfaceMajor(all[i].interfaceRef) != ""
    requires forall j :: 0 <= j < i ==> InterfaceMajor(all[j].interfaceRef) == ""
    ensures PrimaryMajor(all) == InterfaceMajor(all[i].interfaceRef)
  {
    hide InterfaceMajor;
    if i > 0 {
      FirstMajor(all[1..], i - 1);
    }
  }

  // Exactly which providers are candidates: the usable ones that are untyped or of the
  // major version that the first usable typed one declares.
  lemma CandidatesExactly(route: Route, health: Health, i: nat, p: Provider)
    requires SetsMajor(route, health, i) && p in route.providers
    ensures p in Candidates(route, health) <==>
      && Usable(route, health, p)
      && InterfaceMajor(p.interfaceRef) in {"", InterfaceMajor(route.providers[i].interfaceRef)}
  {
    hide InterfaceMajor, PrimaryMajor, SetsMajor, Usable;
    var hs := HealthyOf(route.providers, health);
    UsableIsHealthy(route, health, p);
    MajorOfRoute(route, health, i);
    var at := KeptIsSublist(Major(PrimaryMajor(hs)), hs);
  }

  lemma MajorOfRoute(route: Route, health: Health, i: nat)
    requires SetsMajor(route, health, i)
    ensures PrimaryMajor(HealthyOf(route.providers, health)) == InterfaceMajor(route.providers[i].interfaceRef) != ""
  {
    hide InterfaceMajor, PrimaryMajor;
    var all, hs := route.providers, HealthyOf(route.providers, health);
    UsableIsHealthy(route, health, all[i]);
    if hs == all {
      forall j | 0 <= j < i ensures InterfaceMajor(all[j].interfaceRef) == "" {
        UsableIsHealthy(route, health, all[j]);
      }
      FirstMajor(all, i);
    } else {
      var at := KeptIsSublist(Healthy(health.value), all);
      var k :| 0 <= k < |at| && at[k] == i;
      forall j | 0 <= j < k ensures InterfaceMajor(hs[j].interfaceRef) == "" {
        UsableIsHealthy(route, health, all[at[j]]);
      }
      FirstMajor(hs, k);
    }
  }

  // Without a usable typed provider all usable ones are candidates.
  lemma UntypedCandidates(route: Route, health: Health, p: Provider)
    requires p in route.providers
    requires forall q :: q in route.providers && Usable(route, health, q) ==> InterfaceMajor(q.interfaceRef) == ""
    ensures p in Candidates(route, health) <==> Usable(route, health, p)
  {
    hide InterfaceMajor, Usable;
    var hs := HealthyOf(route.providers, health);
    UsableIsHealthy(route, health, p);
    PrimaryDeclared(hs);
    if PrimaryMajor(hs) != "" {
      var q :| q in hs && InterfaceMajor(q.interfaceRef) == PrimaryMajor(hs);
      HealthyIsPart(route, health, q);
      UsableIsHealthy(route, health, q);
    }
  }

  lemma HealthyIsPart(route: Route, health: Health, q: Provider)
    requires q in HealthyOf(route.providers, health)
    ensures q in route.providers
  {
    if health.Some? {
      var at := KeptIsSublist(Healthy(health.value), route.providers);
    }
  }

  // Routes that differ in plugin, capability type or slot count separately.
  lemma SignatureTells(a: Route, b: Route)
    requires forall r :: r in {a, b} ==> '|' !in r.pluginId && '|' !in r.capabilityType && '|' !in r.slot
    ensures Signature(a) == Signature(b) <==> a.pluginId == b.pluginId && a.capabilityType == b.capabilityType && a.slot == b.slot
  {
    if Signature(a) == Signature(b) {
      assert Signature(a) == a.pluginId + ("|" + (a.capabilityType + ("|" + a.slot)));
      assert Signature(b) == b.pluginId + ("|" + (b.capabilityType + ("|" + b.slot)));
      SplitsOnce(a.pluginId, a.capabilityType + ("|" + a.slot), b.pluginId, b.capabilityType + ("|" + b.slot));
      SplitsOnce(a.capabilityType, a.slot, b.capabilityType, b.slot);
    }
  }

  lemma {:induction false} SplitsOnce(x: string, y: string, x2: string, y2: string)
    requires '|' !in x && '|' !in x2 && x + ("|" + y) == x2 + ("|" + y2)
    ensures x == x2 && y == y2
  {
    var s, s2 := x + ("|" + y), x2 + ("|" + y2);
    assert s[0] == (if x == "" then '|' else x[0]) && s2[0] == (if x2 == "" then '|' else x2[0]);
    if x != "" {
      assert x == [x[0]] + x[1..] && x2 == [x2[0]] + x2[1..];
      assert s[1..] == x[1..] + ("|" + y) && s2[1..] == x2[1..] + ("|" + y2);
      SplitsOnce(x[1..], y, x2[1..], y2);
    } else {
      assert s[1..] == y && s2[1..] == y2;
    }
  }

  lemma NoneKept(t: Test, all: seq<Provider>)
    requires Kept(t, all) == []
    ensures forall p :: p in all ==> !Passes(t, p)
  {
    var at := KeptIsSublist(t, all);
  }

  lemma {:induction false} PrimaryDeclared(all: seq<Provider>)
    ensures PrimaryMajor(all) != "" ==> exists p :: p in all && InterfaceMajor(p.interfaceRef) == PrimaryMajor(all)
    ensures PrimaryMajor(all) == "" ==> forall p :: p in all ==> InterfaceMajor(p.interfaceRef) == ""
  {
    if all != [] {
      PrimaryDeclared(all[1..]);
      if PrimaryMajor(all) != "" {
        var p :| p in all && (p == all[0] || p in all[1..]) && InterfaceMajor(p.interfaceRef) == PrimaryMajor(all);
      } else {
        forall p | p in all ensures InterfaceMajor(p.interfaceRef) == "" {
          assert p == all[0] || p in all[1..];
        }
      }
    }
  }

  // How often provider i leads over the counter values from..from+count.
  function Turns(ps: seq<Provider>, i: nat, from: nat, count: nat): nat
    requires i < |ps| && TotalWeight(ps) > 0
  {
    if count == 0 then 0
    else Turns(ps, i, from, count - 1) + (if Leads(ps, i, (from + count - 1) % TotalWeight(ps)) then 1 else 0)
  }

  lemma {:induction false} TurnsSplitFirst(ps: seq<Provider>, i: nat, from: nat, count: nat)
    requires i < |ps| && TotalWeight(ps) > 0 && count > 0
    ensures Turns(ps, i, from, count)
            == (if Leads(ps, i, from % TotalWeight(ps)) then 1 else 0) + Turns(ps, i, from + 1, count - 1)
  {
    if count > 1 {
      TurnsSplitFirst(ps, i, from, count - 1);
      assert (from + 1) + (count - 1) - 1 == from + count - 1;
    }
  }

  // Moving the window by one drops and gains the same position.
  lemma WindowShift(ps: seq<Provider>, i: nat, from: nat)
    requires i < |ps| && TotalWeight(ps) > 0
    ensures Turns(ps, i, from + 1, TotalWeight(ps)) == Turns(ps, i, from, TotalWeight(ps))
  {
    var w := TotalWeight(ps);
    TurnsSplitFirst(ps, i, from, w);
    ModPeriod(from, w);
    assert from + 1 + w - 1 == from + w;
  }

  lemma ModPeriod(a: nat, n: nat)
    requires n > 0
    ensures (a + n) % n == a % n
  {
    assert n * (a / n + 1) == n * (a / n) + n;
    DivMod(a + n, n, a / n + 1, a % n);
  }

  lemma {:induction false} WindowAnywhere(ps: seq<Provider>, i: nat, from: nat)
    requires i < |ps| && TotalWeight(ps) > 0
    ensures Turns(ps, i, from, TotalWeight(ps)) == Turns(ps, i, 0, TotalWeight(ps))
  {
    if from > 0 {
      WindowAnywhere(ps, i, from - 1);
      WindowShift(ps, i, from - 1);
    }
  }

  lemma {:induction false} FirstWindow(ps: seq<Provider>, i: nat, count: nat)
    requires i < |ps| && TotalWeight(ps) > 0 && count <= TotalWeight(ps)
    ensures Turns(ps, i, 0, count) ==
            if count <= TotalWeight(ps[..i]) then 0
            else if count <= TotalWeight(ps[..i]) + Weight(ps[i]) then count - TotalWeight(ps[..i])
            else Weight(ps[i])
  {
    if count > 0 {
      FirstWindow(ps, i, count - 1);
      SmallMod(count - 1, TotalWeight(ps));
    }
  }

  lemma SmallMod(a: nat, n: nat)
    requires a < n
    ensures a % n == a
  {
  }

  // Over any window of as many consecutive counter values as the declared weights add up
  // to, provider i leads the order exactly as often as its weight says, once if that is
  // below 1; together with OrderedProviders this holds for consecutive calls below the
  // uint64 wrap.
  lemma FairShare(ps: seq<Provider>, i: nat, from: nat)
    requires i < |ps|
    ensures TotalWeight(ps) > 0
    ensures Turns(ps, i, from, Window(ps)) == (if ps[i].weight >= 1 then ps[i].weight else 1)
  {
    PrefixWeight(ps, i, |ps|);
    assert ps[..|ps|] == ps;
    WindowAnywhere(ps, i, from);
    FirstWindow(ps, i, TotalWeight(ps));
    WindowIsTotal(ps);
  }

  // One more request counts for its leader alone.
  lemma NextLeader(cs: seq<Provider>, starts: seq<nat>, start: nat, first: nat, n: nat)
    requires start < |cs| && TotalWeight(cs) > 0 && Leads(cs, start, (first + n) % TotalWeight(cs))
    requires forall i :: 0 <= i < |cs| ==> multiset(starts)[i] == Turns(cs, i, first, n)
    ensures forall i :: 0 <= i < |cs| ==> multiset(starts + [start])[i] == Turns(cs, i, first, n + 1)
  {
    var pos := (first + n) % TotalWeight(cs);
    assert multiset(starts + [start]) == multiset(starts) + multiset{start};
    forall i | 0 <= i < |cs| ensures Leads(cs, i, pos) <==> i == start {
      if Leads(cs, i, pos) {
        OneLeader(cs, i, start, pos);
      }
    }
  }

  /**
   A full window of requests for one route, up to the uint64 wrap: every order is a
   rotation of the candidates, and candidate i comes first exactly as often as its
   declared weight says.
   */
  method ServeWindow(b: Balancer, route: Route) returns (orders: seq<seq<Provider>>, ghost starts: seq<nat>)
    requires b.Valid() && |Candidates(route, b.health)| > 1 && route.strategy == "round_robin"
    requires b.Counter(Signature(route)) + Window(Candidates(route, b.health)) <= 0x1_0000_0000_0000_0000
    modifies b
    ensures
      var cs := Candidates(route, b.health);
      && |orders| == |starts| == Window(cs)
      && (forall n :: 0 <= n < |orders| ==> starts[n] < |cs| && orders[n] == Rotated(cs, starts[n]))
      && (forall i :: 0 <= i < |cs| ==> multiset(starts)[i] == if cs[i].weight >= 1 then cs[i].weight else 1)
  {
    hide Candidates, TotalWeight, Weight, Leads, Rotated, Signature;
    var first := b.Counter(Signature(route));
    var cs := Candidates(route, b.health);
    var total := TotalWeight(cs);
    FairShare(cs, 0, first);
    WindowIsTotal(cs);
    orders, starts := [], [];
    for n := 0 to total
      invariant b.Valid() && b.Counter(Signature(route)) == (first + n) % UINT64
      invariant |orders| == |starts| == n
      invariant forall k :: 0 <= k < n ==> starts[k] < |cs| && orders[k] == Rotated(cs, starts[k])
      invariant forall i :: 0 <= i < |cs| ==> multiset(starts)[i] == Turns(cs, i, first, n)
    {
      ghost var start;
      var ordered;
      SmallMod(first + n, UINT64);
      ordered, start := b.OrderedProviders(route);
      assert route.providers != [] by {
        CandidatesAreSublist(route, b.health);
      }
      NextLeader(cs, starts, start, first, n);
      orders, starts := orders + [ordered], starts + [start];
    }
    forall i | 0 <= i < |cs| ensures multiset(starts)[i] == if cs[i].weight >= 1 then cs[i].weight else 1 {
      FairShare(cs, i, first);
    }
  }
}
