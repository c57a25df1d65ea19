/** The depth-first search for cycles, with one set of agents on the current path that is
    extended and shrunk as the search descends and returns. */
module CycleSearch {
  import opened Text
  import opened HandoffTarget
  import opened AgentGraph

  // A walk that ends on the path so far or on an agent it has already passed.
  ghost predicate Lasso(reg: Registry, w: seq<string>, path: set<string>) {
    IsWalk(reg, w) && (w[|w| - 1] in path || w[|w| - 1] in w[..|w| - 1])
  }

  ghost predicate HasLasso(reg: Registry, a: string, path: set<string>) {
    exists w :: Lasso(reg, w, path) && w[0] == a
  }

  // ---- specification of the search ----

  function Search(reg: Registry, agent: string, visited: set<string>): (r: (bool, set<string>))
    ensures !r.0 ==> r.1 * reg.Keys == visited * reg.Keys
    decreases reg.Keys - visited, 1, 0
  {
    if agent in visited then (true, visited)
    else if agent !in reg then (false, visited + {agent})
    else
      assert agent in reg.Keys - visited;
      var (found, v) := SearchAny(reg, Targets(reg[agent]), visited + {agent});
      if found then (true, v)
      else
        assert v * reg.Keys == (visited + {agent}) * reg.Keys;
        assert (v - {agent}) * reg.Keys == v * reg.Keys - {agent} == visited * reg.Keys;
        (false, v - {agent})
  }

  function SearchAny(reg: Registry, targets: seq<string>, visited: set<string>): (r: (bool, set<string>))
    ensures !r.0 ==> r.1 * reg.Keys == visited * reg.Keys
    decreases reg.Keys - visited, 2, |targets|
  {
    if targets == [] then (false, visited)
    else
      var (found, v) := Search(reg, targets[0], visited);
      if found then (true, v)
      else
        assert reg.Keys - v == reg.Keys - (v * reg.Keys) == reg.Keys - visited;
        SearchAny(reg, targets[1..], v)
  }

  method CanReachSelf(reg: Registry, agent: string, visited: set<string>) returns (found: bool, v: set<string>)
    ensures (found, v) == Search(reg, agent, visited)
    decreases reg.Keys - visited
  {
    v := visited;
    if agent in v {
      return true, v;
    }
    v := v + {agent};
    if agent !in reg {
      return false, v;
    }
    var targets := Targets(reg[agent]);
    ghost var all := SearchAny(reg, targets, v);
    assert agent in reg.Keys - visited;
    var i := 0;
    while i < |targets|
      invariant 0 <= i <= |targets|
      invariant v * reg.Keys == (visited + {agent}) * reg.Keys
      invariant SearchAny(reg, targets[i..], v) == all
    {
      assert targets[i..][1..] == targets[i + 1..];
      assert agent in v * reg.Keys;
      assert reg.Keys - v < reg.Keys - visited by {
        assert reg.Keys - v == reg.Keys - (v * reg.Keys);
        assert reg.Keys - (visited + {agent}) == reg.Keys - ((visited + {agent}) * reg.Keys);
      }
      found, v := CanReachSelf(reg, targets[i], v);
      if found {
        return true, v;
      }
      i := i + 1;
    }
    v := v - {agent};
    return false, v;
  }

  // ---- what the search finds ----

  // Two agents lead to the same unregistered agent.
  ghost predicate Meet(reg: Registry, a: string, b: string) {
    exists m | m !in reg :: Reaches(reg, a, m) && Reaches(reg, b, m)
  }

  // Two targets of a list do, or one of them is listed twice and leads to one.
  ghost predicate Clash(reg: Registry, targets: seq<string>) {
    exists i, j | 0 <= i < j < |targets| :: Meet(reg, targets[i], targets[j])
  }

  // Some agent that can be reached has two targets that lead to the same unregistered agent.
  ghost predicate Forked(reg: Registry, a: string) {
    exists b | b in reg :: Reaches(reg, a, b) && Clash(reg, Targets(reg[b]))
  }

  // The search from `a` has something to find: a walk that bites itself or the path, or two
  // ways to an unregistered agent.
  ghost predicate Caught(reg: Registry, a: string, path: set<string>) {
    HasLasso(reg, a, path) || Forked(reg, a)
  }

  ghost predicate AnyCaught(reg: Registry, targets: seq<string>, path: set<string>) {
    (exists t | t in targets :: Caught(reg, t, path)) || Clash(reg, targets)
  }

  // The unregistered agents a failed search leaves on the path.
  ghost predicate LeavesMissing(reg: Registry, targets: seq<string>, before: set<string>, after: set<string>) {
    forall m :: m in after <==> m in before || (m !in reg && exists t | t in targets :: Reaches(reg, t, m))
  }

  lemma ExtendLasso(reg: Registry, a: string, b: string, path: set<string>)
    requires Edge(reg, a, b) && HasLasso(reg, b, path + {a})
    ensures HasLasso(reg, a, path)
  {
    var w :| Lasso(reg, w, path + {a}) && w[0] == b;
    var longer := [a] + w;
    forall i | 0 <= i < |longer| - 1
      ensures Edge(reg, longer[i], longer[i + 1])
    {
      assert i > 0 ==> Edge(reg, w[i - 1], w[i]);
    }
    assert longer[..|longer| - 1] == [a] + w[..|w| - 1];
    assert longer[0] == a && a in longer[..|longer| - 1];
    assert Lasso(reg, longer, path);
  }

  lemma ShortenLasso(reg: Registry, a: string, path: set<string>)
    requires HasLasso(reg, a, path) && a !in path
    ensures a in reg && exists b | b in Targets(reg[a]) :: HasLasso(reg, b, path + {a})
  {
    var w :| Lasso(reg, w, path) && w[0] == a;
    var tail := w[1..];
    assert Edge(reg, w[0], w[1]);
    forall i | 0 <= i < |tail| - 1
      ensures Edge(reg, tail[i], tail[i + 1])
    {
      assert Edge(reg, w[i + 1], w[i + 2]);
    }
    var last := w[|w| - 1];
    if last !in path {
      var k :| 0 <= k < |w| - 1 && w[k] == last;
      if k > 0 {
        assert tail[..|tail| - 1][k - 1] == last;
      }
    }
    assert Lasso(reg, tail, path + {a});
  }

  lemma FirstStep(reg: Registry, a: string, b: string)
    requires Reaches(reg, a, b) && a != b
    ensures a in reg && exists t | t in Targets(reg[a]) :: Reaches(reg, t, b)
  {
    var w :| WalkFromTo(reg, w, a, b);
    var tail := w[1..];
    assert Edge(reg, w[0], w[1]);
    forall i | 0 <= i < |tail| - 1
      ensures Edge(reg, tail[i], tail[i + 1])
    {
      assert Edge(reg, w[i + 1], w[i + 2]);
    }
    assert WalkFromTo(reg, tail, w[1], b);
  }

  lemma ReachesThrough(reg: Registry, a: string, t: string, b: string)
    requires a in reg && t in Targets(reg[a]) && Reaches(reg, t, b)
    ensures Reaches(reg, a, b)
  {
    EdgeSteps(reg, a, t);
    ReachesTransitive(reg, a, t, b);
  }

  lemma ForkedStep(reg: Registry, a: string)
    requires a in reg
    ensures Forked(reg, a) <==> Clash(reg, Targets(reg[a])) || exists t | t in Targets(reg[a]) :: Forked(reg, t)
  {
    ReachesSelf(reg, a);
    if Forked(reg, a) {
      var b :| b in reg && Reaches(reg, a, b) && Clash(reg, Targets(reg[b]));
      if b != a {
        FirstStep(reg, a, b);
      }
    }
    if t :| t in Targets(reg[a]) && Forked(reg, t) {
      var b :| b in reg && Reaches(reg, t, b) && Clash(reg, Targets(reg[b]));
      ReachesThrough(reg, a, t, b);
    }
  }

  // What is found from a registered agent is found from its targets, and the other way round.
  lemma CaughtStep(reg: Registry, a: string, path: set<string>)
    requires a in reg && a !in path
    ensures Caught(reg, a, path) <==> AnyCaught(reg, Targets(reg[a]), path + {a})
  {
    ForkedStep(reg, a);
    if HasLasso(reg, a, path) {
      ShortenLasso(reg, a, path);
    }
    if t :| t in Targets(reg[a]) && HasLasso(reg, t, path + {a}) {
      ExtendLasso(reg, a, t, path);
    }
  }

  lemma UnregisteredIsTheEnd(reg: Registry, a: string, b: string)
    requires a !in reg && Reaches(reg, a, b)
    ensures a == b
  {
    if a != b {
      FirstStep(reg, a, b);
    }
  }

  lemma NothingBehindUnregistered(reg: Registry, a: string, path: set<string>)
    requires a !in reg && a !in path
    ensures !Caught(reg, a, path)
  {
    forall w | IsWalk(reg, w) && w[0] == a
      ensures |w| == 1
    {
      forall i | 0 <= i < |w| - 1
        ensures w[i] in reg
      {
        assert Edge(reg, w[i], w[i + 1]);
      }
    }
    forall b | Reaches(reg, a, b)
      ensures b !in reg
    {
      UnregisteredIsTheEnd(reg, a, b);
    }
  }

  // Unregistered agents on the path are found by reaching them.
  lemma MissingOnPath(reg: Registry, a: string, path: set<string>, m: string)
    requires m !in reg && m in path && Reaches(reg, a, m)
    ensures HasLasso(reg, a, path)
  {
    var w :| WalkFromTo(reg, w, a, m);
    assert Lasso(reg, w, path);
  }

  // With more unregistered agents on the path more is found: the walks that end at them.
  lemma LassoOnLongerPath(reg: Registry, a: string, path: set<string>, longer: set<string>)
    requires path <= longer && forall m | m in longer :: m in path || m !in reg
    ensures HasLasso(reg, a, longer) <==>
            HasLasso(reg, a, path) || exists m | m in longer && m !in path :: Reaches(reg, a, m)
  {
    if HasLasso(reg, a, longer) {
      var w :| Lasso(reg, w, longer) && w[0] == a;
      if !Lasso(reg, w, path) {
        assert WalkFromTo(reg, w, a, w[|w| - 1]);
      }
    }
    if HasLasso(reg, a, path) {
      var w :| Lasso(reg, w, path) && w[0] == a;
      assert Lasso(reg, w, longer);
    }
    if m :| m in longer && m !in path && Reaches(reg, a, m) {
      MissingOnPath(reg, a, longer, m);
    }
  }

  lemma ClashCons(reg: Registry, t: string, rest: seq<string>)
    ensures Clash(reg, [t] + rest) <==> Clash(reg, rest) || exists u | u in rest :: Meet(reg, t, u)
  {
    var targets := [t] + rest;
    if i, j :| 0 <= i < j < |targets| && Meet(reg, targets[i], targets[j]) {
      assert targets[j] == rest[j - 1] && (i > 0 ==> targets[i] == rest[i - 1]);
    }
    if i, j :| 0 <= i < j < |rest| && Meet(reg, rest[i], rest[j]) {
      assert targets[i + 1] == rest[i] && targets[j + 1] == rest[j];
    }
    if u :| u in rest && Meet(reg, t, u) {
      var j :| 0 <= j < |rest| && rest[j] == u;
      assert targets[0] == t && targets[j + 1] == u;
    }
  }

  // After a failed search from the first target the others are searched with its unregistered
  // agents on the path, which makes up for what the two have in common.
  lemma CaughtAfter(reg: Registry, t: string, rest: seq<string>, path: set<string>, longer: set<string>)
    requires !Caught(reg, t, path) && LeavesMissing(reg, [t], path, longer)
    ensures AnyCaught(reg, [t] + rest, path) <==> AnyCaught(reg, rest, longer)
  {
    assert t in [t];
    assert forall m | m in longer && m !in path :: m !in reg && Reaches(reg, t, m);
    ClashCons(reg, t, rest);
    forall u | u in rest
      ensures Caught(reg, u, longer) <==> Caught(reg, u, path) || Meet(reg, t, u)
    {
      LassoOnLongerPath(reg, u, path, longer);
      if m :| m !in reg && Reaches(reg, t, m) && Reaches(reg, u, m) {
        MissingOnPath(reg, u, longer, m);
      }
    }
    assert forall u :: u in [t] + rest <==> u == t || u in rest;
  }

  /** Exactly when the search succeeds, for any registry, agent and path; and a failed search
      adds to the path exactly the unregistered agents it came across. */
  lemma {:induction false} SearchIsExact(reg: Registry, agent: string, path: set<string>)
    ensures Search(reg, agent, path).0 <==> Caught(reg, agent, path)
    ensures !Search(reg, agent, path).0 ==> LeavesMissing(reg, [agent], path, Search(reg, agent, path).1)
    decreases reg.Keys - path, 1, 0
  {
    ReachesSelf(reg, agent);
    assert forall t :: t in [agent] <==> t == agent;
    if agent in path {
      assert Lasso(reg, [agent], path);
    } else if agent !in reg {
      NothingBehindUnregistered(reg, agent, path);
      forall m | Reaches(reg, agent, m)
        ensures m == agent
      {
        UnregisteredIsTheEnd(reg, agent, m);
      }
    } else {
      assert agent in reg.Keys - path;
      SearchAnyIsExact(reg, Targets(reg[agent]), path + {agent});
      CaughtStep(reg, agent, path);
      if !Search(reg, agent, path).0 {
        MissingFromTargets(reg, agent);
      }
    }
  }

  lemma MissingFromTargets(reg: Registry, a: string)
    requires a in reg
    ensures forall m | m !in reg :: Reaches(reg, a, m) <==> exists t | t in Targets(reg[a]) :: Reaches(reg, t, m)
  {
    forall m | m !in reg && Reaches(reg, a, m)
      ensures exists t | t in Targets(reg[a]) :: Reaches(reg, t, m)
    {
      FirstStep(reg, a, m);
    }
    forall t, m | t in Targets(reg[a]) && Reaches(reg, t, m)
      ensures Reaches(reg, a, m)
    {
      ReachesThrough(reg, a, t, m);
    }
  }

  lemma {:induction false} SearchAnyIsExact(reg: Registry, targets: seq<string>, path: set<string>)
    ensures SearchAny(reg, targets, path).0 <==> AnyCaught(reg, targets, path)
    ensures !SearchAny(reg, targets, path).0 ==> LeavesMissing(reg, targets, path, SearchAny(reg, targets, path).1)
    decreases reg.Keys - path, 2, |targets|
  {
    if targets != [] {
      var t, rest := targets[0], targets[1..];
      assert targets == [t] + rest;
      SearchIsExact(reg, t, path);
      var (found, longer) := Search(reg, t, path);
      if !found {
        assert reg.Keys - longer == reg.Keys - path by {
          assert reg.Keys - longer == reg.Keys - (longer * reg.Keys);
          assert reg.Keys - path == reg.Keys - (path * reg.Keys);
        }
        SearchAnyIsExact(reg, rest, longer);
        CaughtAfter(reg, t, rest, path, longer);
        assert forall u :: u in targets <==> u in [t] || u in rest;
      }
    }
  }

  lemma LassoIsCycle(reg: Registry, a: string)
    ensures HasLasso(reg, a, {}) <==> ReachesCycle(reg, a)
  {
    if HasLasso(reg, a, {}) {
      var w :| Lasso(reg, w, {}) && w[0] == a;
      var k :| 0 <= k < |w| - 1 && w[k] == w[|w| - 1];
      assert Repeats(w);
    }
    if ReachesCycle(reg, a) {
      var w :| IsWalk(reg, w) && w[0] == a && Repeats(w);
      var i, j :| 0 <= i < j < |w| && w[i] == w[j];
      var u := w[..j + 1];
      forall k | 0 <= k < |u| - 1
        ensures Edge(reg, u[k], u[k + 1])
      {
        assert Edge(reg, w[k], w[k + 1]);
      }
      assert u[..|u| - 1][i] == u[|u| - 1];
      assert Lasso(reg, u, {});
    }
  }

  /** Started on its own, the search reports a cycle exactly when the agent can reach one or can
      reach an agent from which two targets lead to the same unregistered agent. So a cycle is
      never missed, and a wrong report needs an unregistered agent with two ways to it. */
  lemma SearchFindsCycles(reg: Registry, agent: string)
    ensures Search(reg, agent, {}).0 <==> ReachesCycle(reg, agent) || Forked(reg, agent)
  {
    SearchIsExact(reg, agent, {});
    LassoIsCycle(reg, agent);
  }

  /** Where nothing dangles that is a cycle and nothing else. */
  lemma NothingForkedWithoutDangling(reg: Registry, agent: string)
    requires NoDangling(reg, agent)
    ensures !Forked(reg, agent)
  {
    forall b | b in reg && Reaches(reg, agent, b)
      ensures !Clash(reg, Targets(reg[b]))
    {
      forall t, m | t in Targets(reg[b]) && Reaches(reg, t, m)
        ensures m in reg
      {
        ReachesThrough(reg, b, t, m);
        ReachesTransitive(reg, agent, b, m);
      }
    }
  }

  lemma OneEdgeNeverRepeats(reg: Registry, w: seq<string>, a: string, b: string)
    requires a != b && IsWalk(reg, w)
    requires forall x, y | Edge(reg, x, y) :: x == a && y == b
    ensures !Repeats(w)
  {
    forall i | 0 <= i < |w| - 1
      ensures w[i] == a
    {
      assert Edge(reg, w[i], w[i + 1]);
    }
    forall i | 1 <= i < |w|
      ensures w[i] == b
    {
      assert Edge(reg, w[i - 1], w[i]);
    }
  }

  /** Such a report without a cycle: an unregistered agent stays on the path, so naming it twice
      looks like a cycle. */
  lemma DanglingLooksCircular(missing: string, agent: string)
    requires missing != agent
    ensures var p := Profile(agent, false, false, [], Some(Fork([missing, missing])));
            var reg := map[agent := p];
            Search(reg, agent, {}).0 && !ReachesCycle(reg, agent)
  {
    var p := Profile(agent, false, false, [], Some(Fork([missing, missing])));
    var reg: Registry := map[agent := p];
    var targets := [missing, missing];
    assert Targets(p) == targets;
    assert {agent} + {missing} == {agent, missing};
    assert Search(reg, missing, {agent}) == (false, {agent, missing});
    assert targets[1..] == [missing];
    assert Search(reg, missing, {agent, missing}).0;
    assert SearchAny(reg, [missing], {agent, missing}).0;
    assert SearchAny(reg, targets, {agent}).0;
    assert {} + {agent} == {agent};
    forall a, b | Edge(reg, a, b)
      ensures a == agent && b == missing
    {
      assert b in targets;
    }
    forall w | IsWalk(reg, w)
      ensures !Repeats(w)
    {
      OneEdgeNeverRepeats(reg, w, agent, missing);
    }
  }
}
