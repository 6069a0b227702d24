/**
 Start order of a plugin's services: topoSort of pkg/container/lifecycle.go, and
 the reference checks of pkg/manifest/validator.go that make it error-free.
 */
module StartOrder {
  import opened Prelude

  // Service id to the ids it depends on.
  type Services = map<string, seq<string>>

  predicate NoDangling(g: Services) {
    forall s :: s in g ==> forall k :: 0 <= k < |g[s]| ==> g[s][k] in g
  }

  // p walks from a service to one it transitively depends on.
  ghost predicate IsChain(g: Services, p: seq<string>) {
    && p != []
    && forall i :: 0 <= i < |p| - 1 ==> p[i] in g && p[i + 1] in g[p[i]]
  }

  ghost predicate DependsOn(g: Services, a: string, b: string) {
    exists p :: IsChain(g, p) && p[0] == a && p[|p| - 1] == b
  }

  lemma DependsExtend(g: Services, a: string, b: string, d: string)
    requires DependsOn(g, a, b) && b in g && d in g[b]
    ensures DependsOn(g, a, d)
  {
    var p :| IsChain(g, p) && p[0] == a && p[|p| - 1] == b;
    var q := p + [d];
    assert IsChain(g, q) && q[0] == a && q[|q| - 1] == d;
  }

  lemma DependsSelf(g: Services, a: string)
    ensures DependsOn(g, a, a)
  {
    assert IsChain(g, [a]);
  }

  lemma DependsThrough(g: Services, a: string, b: string, d: string)
    requires a in g && b in g[a] && DependsOn(g, b, d)
    ensures DependsOn(g, a, d)
  {
    var p :| IsChain(g, p) && p[0] == b && p[|p| - 1] == d;
    var q := [a] + p;
    forall i | 0 <= i < |q| - 1 ensures q[i] in g && q[i + 1] in g[q[i]] {
      assert i > 0 ==> q[i] == p[i - 1] && q[i + 1] == p[i - 1 + 1];
    }
    assert IsChain(g, q) && q[0] == a && q[|q| - 1] == d;
  }

  predicate Extends(before: seq<string>, after: seq<string>) {
    |before| <= |after| && after[..|before|] == before
  }

  // Everything a service depends on lies in any closed set that holds the service.
  lemma {:induction false} ClosedHolds(g: Services, r: seq<string>, p: seq<string>)
    requires IsChain(g, p) && p[0] in r
    requires forall s :: s in r && s in g ==> forall k :: 0 <= k < |g[s]| ==> g[s][k] in r
    ensures p[|p| - 1] in r
  {
    if |p| > 1 {
      assert p[1] in g[p[0]];
      var rest := p[1..];
      forall i | 0 <= i < |rest| - 1 ensures rest[i] in g && rest[i + 1] in g[rest[i]] {
        assert p[i + 1] in g && p[i + 1 + 1] in g[p[i + 1]];
      }
      ClosedHolds(g, r, rest);
    }
  }

  // ---- The result ------------------------------------------------------------------------

  ghost predicate Distinct(order: seq<string>) {
    forall i, j :: 0 <= i < j < |order| ==> order[i] != order[j]
  }

  // Dependency d of the service at position i starts earlier, or d depends back on it.
  ghost predicate Before(g: Services, order: seq<string>, i: nat, d: string)
    requires i < |order|
  {
    d in order[..i] || DependsOn(g, d, order[i])
  }

  ghost predicate Respects(g: Services, order: seq<string>) {
    forall i, d :: 0 <= i < |order| && order[i] in g && d in g[order[i]] ==> Before(g, order, i, d)
  }

  // Every service exactly once, dependencies first except around cycles.
  ghost predicate IsStartOrder(g: Services, order: seq<string>) {
    && Distinct(order)
    && (forall s :: s in order <==> s in g)
    && Respects(g, order)
  }

  lemma RespectsAppend(g: Services, order: seq<string>, s: string)
    requires Respects(g, order) && s in g
    requires forall d :: d in g[s] ==> d in order || DependsOn(g, d, s)
    ensures Respects(g, order + [s])
  {
    var longer := order + [s];
    forall i, d | 0 <= i < |longer| && longer[i] in g && d in g[longer[i]]
      ensures Before(g, longer, i, d)
    {
      if i < |order| {
        assert Before(g, order, i, d);
        assert longer[..i] == order[..i];
      } else {
        assert longer[..i] == order;
      }
    }
  }

  // The main service and all it depends on start first, the main service last of them.
  ghost predicate MainFirst(g: Services, main: string, order: seq<string>) {
    exists n :: 1 <= n <= |order| && order[n - 1] == main && forall s :: s in order[..n] <==> DependsOn(g, main, s)
  }

  // Without dependency cycles the exception never applies: every dependency starts
  // strictly before its dependents.
  lemma AcyclicOrder(g: Services, order: seq<string>, i: nat, d: string)
    requires IsStartOrder(g, order) && i < |order| && d in g[order[i]]
    requires !DependsOn(g, d, order[i])
    ensures exists j :: 0 <= j < i && order[j] == d
  {
    assert Before(g, order, i, d);
  }

  // ---- topoSort ----------------------------------------------------------------------------

  class Sorter {
    const g: Services
    var visited: set<string>
    var result: seq<string>

    constructor (g: Services)
      ensures this.g == g && visited == {} && result == []
    {
      this.g, visited, result := g, {}, [];
    }

    // Between calls: what was visited is finished, in order, or still open on the stack.
    ghost predicate Valid(stack: set<string>)
      reads this
    {
      && visited == (set s | s in result) + stack
      && (forall s :: s in result ==> s !in stack)
      && Distinct(result) && Respects(g, result)
      && stack <= g.Keys
      && (forall s :: s in result ==> s in g && forall k :: 0 <= k < |g[s]| ==> g[s][k] in g && g[s][k] in visited)
    }

    method Visit(id: string, ghost stack: set<string>) returns (ok: bool)
      requires Valid(stack)
      requires forall s :: s in stack ==> DependsOn(g, s, id)
      modifies this
      ensures ok ==> Valid(stack) && id in visited && old(visited) <= visited
      ensures ok ==> id in g
      // what is added is what id depends on, and last id itself
      ensures ok ==> Extends(old(result), result) && (id !in old(visited) ==> result != [] && result[|result| - 1] == id)
      ensures ok ==> forall s :: s in result ==> s in old(result) || DependsOn(g, id, s)
      ensures !ok ==> id !in g || !NoDangling(g)
      decreases g.Keys - visited
    {
      if id in visited {
        return true;
      }
      visited := visited + {id};
      if id !in g {
        return false;
      }
      ghost var open := stack + {id};
      var deps := g[id];
      for k := 0 to |deps|
        invariant Valid(open) && old(visited) + {id} <= visited && Extends(old(result), result)
        invariant forall s :: s in result ==> s in old(result) || DependsOn(g, id, s)
        invariant forall j :: 0 <= j < k ==> deps[j] in visited && deps[j] in g
      {
        DependsSelf(g, id);
        forall s | s in open ensures DependsOn(g, s, deps[k]) {
          DependsExtend(g, s, id, deps[k]);
        }
        ghost var earlier := result;
        var sub := Visit(deps[k], open);
        if !sub {
          return false;
        }
        forall s | s in result ensures s in old(result) || DependsOn(g, id, s) {
          if s !in earlier { DependsThrough(g, id, deps[k], s); }
        }
      }
      DependsSelf(g, id);
      Finish(id, stack);
      return true;
    }

    // All of its dependencies visited, id is listed.
    method Finish(id: string, ghost stack: set<string>)
      requires Valid(stack + {id}) && id !in stack && id in g
      requires forall s :: s in stack + {id} ==> DependsOn(g, s, id)
      requires forall k :: 0 <= k < |g[id]| ==> g[id][k] in visited && g[id][k] in g
      modifies this`result
      ensures Valid(stack) && result == old(result) + [id]
    {
      hide DependsOn;
      RespectsAppend(g, result, id);
      result := result + [id];
    }
  }

  // Terminates on every graph, cycles included; errs exactly when the main service
  // or some depends_on target is missing; else returns a start order, whatever the
  // order in which the map of services is iterated.
  method TopoSort(g: Services, main: string) returns (r: Option<seq<string>>)
    ensures r.Some? <==> main in g && NoDangling(g)
    ensures r.Some? ==> IsStartOrder(g, r.value) && MainFirst(g, main, r.value)
  {
    var sorter := new Sorter(g);
    var ok := sorter.Visit(main, {});
    if !ok {
      return None;
    }
    ghost var first := sorter.result;
    forall s ensures s in first <==> DependsOn(g, main, s) {
      if DependsOn(g, main, s) {
        var p :| IsChain(g, p) && p[0] == main && p[|p| - 1] == s;
        ClosedHolds(g, first, p);
      }
    }
    var rest := g.Keys;
    while rest != {}
      invariant Extends(first, sorter.result)
      invariant sorter.Valid({}) && rest <= g.Keys && sorter.g == g
      invariant forall s :: s in g && s !in rest ==> s in sorter.visited
      invariant main in g
    {
      var id :| id in rest;
      rest := rest - {id};
      ok := sorter.Visit(id, {});
      if !ok {
        return None;
      }
    }
    assert forall s :: s in g ==> s in sorter.result;
    assert sorter.result[..|first|] == first;
    return Some(sorter.result);
  }

  // ---- Validate -------------------------------------------------------------------------------

  // The main-service and depends_on checks.
  method ValidateReferences(g: Services, main: string) returns (ok: bool)
    ensures ok <==> main in g && NoDangling(g)
  {
    if main !in g {
      return false;
    }
    var rest := g.Keys;
    while rest != {}
      invariant rest <= g.Keys
      invariant forall s :: s in g && s !in rest ==> forall k :: 0 <= k < |g[s]| ==> g[s][k] in g
    {
      var id :| id in rest;
      for k := 0 to |g[id]|
        invariant forall j :: 0 <= j < k ==> g[id][j] in g
      {
        if g[id][k] !in g {
          return false;
        }
      }
      rest := rest - {id};
    }
    return true;
  }

  // A validated manifest always gets a start order.
  method StartValidated(g: Services, main: string) returns (valid: bool, order: seq<string>)
    ensures valid <==> main in g && NoDangling(g)
    ensures valid ==> IsStartOrder(g, order) && MainFirst(g, main, order)
  {
    valid := ValidateReferences(g, main);
    order := [];
    if valid {
      var r := TopoSort(g, main);
      order := r.value;
    }
  }
}
