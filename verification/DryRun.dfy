/** Static validation of a handoff chain: breadth-first traversal of every route, then a cycle
    search from every agent found. */
module DryRun {
  import opened Text
  import opened HandoffTarget
  import opened HandoffRules
  import opened AgentGraph
  import opened CycleSearch

  const MAX_CHAIN: nat := 100

  datatype Issue =
    | NotFound(agent: string)
    | RuleTargetMissing(agent: string, rule: nat, target: string)
    | FallbackMissing(agent: string, target: string)
    | Circular(agent: string)
    | ChainTooLong

  datatype Report = Report(
    valid: bool, agentsInChain: seq<string>, reachableEnd: bool, circular: bool, issues: seq<Issue>)

  predicate HasOutgoing(p: Profile) {
    p.fallback.Some? || exists r | r in p.rules :: r.target.Some?
  }

  // ---- what the report has to say ----

  // Every registered agent that can be reached, each once.
  ghost predicate ListsReachable(reg: Registry, start: string, chain: seq<string>) {
    && (forall a :: a in chain <==> Reaches(reg, start, a) && a in reg)
    && Distinct(chain)
  }

  ghost predicate EndReachable(reg: Registry, start: string) {
    exists a | a in reg :: Reaches(reg, start, a) && !HasOutgoing(reg[a])
  }

  /** An end is an agent without a fallback of which no rule has a target. */
  lemma EndMeans(reg: Registry, start: string)
    ensures EndReachable(reg, start) <==>
              exists a | a in reg && Reaches(reg, start, a) ::
                reg[a].fallback == None && forall i | 0 <= i < |reg[a].rules| :: reg[a].rules[i].target == None
  {
    forall a | a in reg
      ensures HasOutgoing(reg[a]) <==>
                !(reg[a].fallback == None && forall i | 0 <= i < |reg[a].rules| :: reg[a].rules[i].target == None)
    {
      if i :| 0 <= i < |reg[a].rules| && reg[a].rules[i].target.Some? {
        assert reg[a].rules[i] in reg[a].rules;
      }
    }
  }

  // The chains a dry run accepts.
  ghost predicate ValidChain(reg: Registry, start: string, chain: seq<string>) {
    && NoDangling(reg, start)
    && !ReachesCycle(reg, start)
    && EndReachable(reg, start)
    && |chain| < MAX_CHAIN
  }

  // ---- the issues there are to report ----

  // A target of the profile that is not registered, told with the place that names it.
  predicate MissingAt(reg: Registry, p: Profile, x: Issue) {
    match x
    case RuleTargetMissing(a, i, t) =>
      a == p.name && i < |p.rules| && p.rules[i].target.Some? && t in AgentNames(p.rules[i].target.value) && t !in reg
    case FallbackMissing(a, t) => a == p.name && p.fallback.Some? && t in AgentNames(p.fallback.value) && t !in reg
    case _ => false
  }

  // What visiting an agent finds.
  predicate Found(reg: Registry, a: string, x: Issue) {
    if a in reg then MissingAt(reg, reg[a], x) else x == NotFound(a)
  }

  // The issues are what visiting these agents finds.
  ghost predicate FoundIn(reg: Registry, visited: set<string>, issues: seq<Issue>) {
    forall x :: x in issues <==> exists a | a in visited :: Found(reg, a, x)
  }

  // They are those of the traversal.
  ghost predicate TraversalIssues(reg: Registry, start: string, issues: seq<Issue>) {
    forall x :: x in issues <==> IsIssue(reg, start, [], x) && !x.Circular?
  }

  // The issues of a dry run.
  ghost predicate IsIssue(reg: Registry, start: string, chain: seq<string>, x: Issue) {
    match x
    case NotFound(a) => a == start && start !in reg
    case RuleTargetMissing(a, _, _) => a in reg && Reaches(reg, start, a) && MissingAt(reg, reg[a], x)
    case FallbackMissing(a, _) => a in reg && Reaches(reg, start, a) && MissingAt(reg, reg[a], x)
    case Circular(a) => a in reg && Reaches(reg, start, a) && (ReachesCycle(reg, a) || Forked(reg, a))
    case ChainTooLong => |chain| >= 100
  }

  // ---- state of the traversal ----

  predicate AllRegistered(reg: Registry, names: seq<string>) {
    forall n | n in names :: n in reg
  }

  // Nothing is wrong with an agent that was visited.
  predicate Sound(reg: Registry, a: string) {
    a in reg && AllRegistered(reg, Targets(reg[a]))
  }

  predicate AllSound(reg: Registry, visited: set<string>) {
    forall a | a in visited :: Sound(reg, a)
  }

  predicate SomeEnd(reg: Registry, visited: set<string>) {
    exists a | a in visited && a in reg :: !HasOutgoing(reg[a])
  }

  lemma OneMoreVisited(reg: Registry, visited: set<string>, a: string)
    ensures AllSound(reg, visited + {a}) <==> AllSound(reg, visited) && Sound(reg, a)
    ensures SomeEnd(reg, visited + {a}) <==> SomeEnd(reg, visited) || (a in reg && !HasOutgoing(reg[a]))
  {
    if SomeEnd(reg, visited) {
      var b :| b in visited && b in reg && !HasOutgoing(reg[b]);
      assert b in visited + {a};
    }
  }

  ghost predicate Traversal(reg: Registry, start: string, visited: set<string>, queue: seq<string>,
                            chain: seq<string>) {
    && (start in visited || start in queue)
    && (forall a | a in visited || a in queue :: Reaches(reg, start, a) && (a in reg || a == start))
    && (forall a, b | a in visited && Edge(reg, a, b) && b in reg :: b in visited || b in queue)
    && (forall a :: a in chain <==> a in visited && a in reg)
    && Distinct(chain)
  }

  function TargetMissing(agent: string, rule: Option<nat>, target: string): Issue {
    if rule.Some? then RuleTargetMissing(agent, rule.value, target) else FallbackMissing(agent, target)
  }

  /** Validates the targets of one rule or of the fallback and queues those not visited yet. */
  method EnqueueTargets(reg: Registry, names: seq<string>, visited: set<string>, queue: seq<string>,
                        issues: seq<Issue>, agent: string, rule: Option<nat>)
    returns (q: seq<string>, found: seq<Issue>)
    ensures queue <= q
    ensures forall n | n in q :: n in queue || (n in names && n in reg)
    ensures forall n | n in names && n in reg :: n in visited || n in q
    ensures issues <= found
    ensures found == issues <==> AllRegistered(reg, names)
    ensures forall x :: x in found <==>
              x in issues || exists n | n in names && n !in reg :: x == TargetMissing(agent, rule, n)
  {
    q, found := queue, issues;
    for i := 0 to |names|
      invariant forall x :: x in found <==>
                  x in issues || exists n | n in names[..i] && n !in reg :: x == TargetMissing(agent, rule, n)
      invariant queue <= q && issues <= found
      invariant forall n | n in q :: n in queue || (n in names && n in reg)
      invariant forall n | n in names[..i] && n in reg :: n in visited || n in q
      invariant found == issues <==> AllRegistered(reg, names[..i])
    {
      var name := names[i];
      assert names[..i + 1] == names[..i] + [name];
      if name !in reg {
        found := found + [TargetMissing(agent, rule, name)];
      } else if name !in visited {
        q := q + [name];
      }
    }
    assert names[..|names|] == names;
  }

  // One agent is taken from the queue: all its rules, then its fallback.
  method Visit(reg: Registry, p: Profile, visited: set<string>, queue: seq<string>, issues: seq<Issue>)
    returns (q: seq<string>, found: seq<Issue>)
    ensures queue <= q
    ensures forall n | n in q :: n in queue || (n in Targets(p) && n in reg)
    ensures forall n | n in Targets(p) && n in reg :: n in visited || n in q
    ensures issues <= found
    ensures found == issues <==> AllRegistered(reg, Targets(p))
    ensures forall x :: x in found <==> x in issues || MissingAt(reg, p, x)
  {
    q, found := queue, issues;
    var i := 0;
    while i < |p.rules|
      invariant 0 <= i <= |p.rules|
      invariant queue <= q && issues <= found
      invariant forall n | n in q :: n in queue || (n in RuleTargets(p.rules[..i]) && n in reg)
      invariant forall n | n in RuleTargets(p.rules[..i]) && n in reg :: n in visited || n in q
      invariant found == issues <==> AllRegistered(reg, RuleTargets(p.rules[..i]))
      invariant forall x :: x in found <==> x in issues || (MissingAt(reg, p, x) && x.RuleTargetMissing? && x.rule < i)
    {
      var rule := p.rules[i];
      RuleTargetsSnoc(p.rules, i);
      if rule.target.Some? {
        q, found := EnqueueTargets(reg, AgentNames(rule.target.value), visited, q, found, p.name, Some(i));
      }
      i := i + 1;
    }
    assert p.rules[..i] == p.rules;
    if p.fallback.Some? {
      q, found := EnqueueTargets(reg, AgentNames(p.fallback.value), visited, q, found, p.name, None);
    }
  }

  lemma {:induction false} RuleTargetsSnoc(rules: seq<Rule>, i: nat)
    requires i < |rules|
    ensures RuleTargets(rules[..i + 1])
         == RuleTargets(rules[..i]) + if rules[i].target.Some? then AgentNames(rules[i].target.value) else []
    decreases i
  {
    if i > 0 {
      RuleTargetsSnoc(rules[1..], i - 1);
      assert rules[..i + 1][1..] == rules[1..][..i] && rules[..i][1..] == rules[1..][..i - 1];
    } else {
      assert rules[..1] == [rules[0]];
      assert RuleTargets([]) == [];
    }
  }

  /** The breadth-first traversal: what is reachable, whether all of it is registered, and
      whether some of it ends the chain. */
  method Traverse(reg: Registry, start: string)
    returns (chain: seq<string>, issues: seq<Issue>, reachableEnd: bool)
    requires WellKeyed(reg)
    ensures ListsReachable(reg, start, chain)
    ensures issues == [] <==> NoDangling(reg, start)
    ensures reachableEnd <==> EndReachable(reg, start)
    ensures TraversalIssues(reg, start, issues)
  {
    hide FoundIn, TraversalIssues;
    var visited: set<string> := {};
    var queue := [start];
    chain, issues, reachableEnd := [], [], false;
    ReachesSelf(reg, start);
    FoundNothing(reg);
    ghost var universe := reg.Keys + {start};
    while queue != []
      invariant Traversal(reg, start, visited, queue, chain)
      invariant issues == [] <==> AllSound(reg, visited)
      invariant FoundIn(reg, visited, issues)
      invariant reachableEnd <==> SomeEnd(reg, visited)
      decreases universe - visited, |queue|
    {
      var current := queue[0];
      ghost var before := queue;
      queue := queue[1..];
      assert before == [current] + queue;
      if current in visited || current !in reg {
        SkipKeepsTraversal(reg, start, visited, before, queue, chain, current);
      }
      if current in visited {
        continue;
      }
      assert current in before;
      ghost var earlier := visited;
      visited := visited + {current};
      ghost var earlierIssues := issues;
      OneMoreVisited(reg, earlier, current);
      if current !in reg {
        issues := issues + [NotFound(current)];
        FoundUnregistered(reg, earlier, earlierIssues, current);
        continue;
      }
      var profile := reg[current];
      if profile.name !in chain {
        chain := chain + [profile.name];
      }
      ghost var rest := queue;
      queue, issues := Visit(reg, profile, visited, queue, issues);
      VisitKeepsTraversal(reg, start, earlier, before, rest, queue, chain, current);
      FoundAtVisit(reg, earlier, earlierIssues, issues, current);
      if !HasOutgoing(profile) {
        reachableEnd := true;
      }
    }
    TraversalIsComplete(reg, start, visited, chain);
    FoundIsIssue(reg, start, visited, chain, issues);
  }

  lemma FoundNothing(reg: Registry)
    ensures FoundIn(reg, {}, [])
  {
  }

  lemma FoundUnregistered(reg: Registry, visited: set<string>, issues: seq<Issue>, a: string)
    requires FoundIn(reg, visited, issues) && a !in reg
    ensures FoundIn(reg, visited + {a}, issues + [NotFound(a)])
  {
    assert Found(reg, a, NotFound(a));
  }

  lemma FoundAtVisit(reg: Registry, visited: set<string>, issues: seq<Issue>, later: seq<Issue>, a: string)
    requires FoundIn(reg, visited, issues) && a in reg
    requires forall x :: x in later <==> x in issues || MissingAt(reg, reg[a], x)
    ensures FoundIn(reg, visited + {a}, later)
  {
    hide MissingAt;
    forall x
      ensures x in later <==> exists b | b in visited + {a} :: Found(reg, b, x)
    {
      assert Found(reg, a, x) == MissingAt(reg, reg[a], x);
      if b :| b in visited + {a} && Found(reg, b, x) {
        if b != a { assert b in visited; }
      }
    }
  }

  // What visiting everything has found is what there is to find.
  lemma FoundIsIssue(reg: Registry, start: string, visited: set<string>, chain: seq<string>, issues: seq<Issue>)
    requires WellKeyed(reg) && Traversal(reg, start, visited, [], chain) && ListsReachable(reg, start, chain)
    requires FoundIn(reg, visited, issues)
    ensures TraversalIssues(reg, start, issues)
  {
    forall x
      ensures (exists a | a in visited :: Found(reg, a, x)) <==> IsIssue(reg, start, [], x) && !x.Circular?
    {
      if a :| a in visited && Found(reg, a, x) {
        assert Reaches(reg, start, a);
      }
      if IsIssue(reg, start, [], x) && !x.Circular? {
        if x.NotFound? {
          assert Found(reg, start, x);
        } else {
          assert x.agent in chain && Found(reg, x.agent, x);
        }
      }
    }
  }

  /** Dry run. The verdict is exact: the chain is accepted if and only if every reachable agent
      is registered, no cycle is reachable, some reachable agent ends the chain, and fewer than
      MAX_CHAIN agents are reachable. `circular` is set exactly for a reachable cycle or a fork
      whose branches meet at an unregistered agent; a cycle is never missed. The issues are those
      `IsIssue` tells, no more and no fewer. */
  method Run(reg: Registry, start: string) returns (report: Report)
    requires WellKeyed(reg)
    ensures ListsReachable(reg, start, report.agentsInChain)
    ensures report.reachableEnd <==> EndReachable(reg, start)
    ensures report.circular <==> ReachesCycle(reg, start) || Forked(reg, start)
    ensures report.valid <==> ValidChain(reg, start, report.agentsInChain)
    ensures report.issues == [] <==> NoDangling(reg, start) && !report.circular && |report.agentsInChain| < MAX_CHAIN
    ensures forall x :: x in report.issues <==> IsIssue(reg, start, report.agentsInChain, x)
  {
    hide Search, TraversalIssues, IsIssue, EndReachable, Reaches, ReachesCycle, Forked, NoDangling;
    var chain, issues, reachableEnd := Traverse(reg, start);
    ghost var allRegistered, before := issues == [], issues;
    var circular := false;
    for i := 0 to |chain|
      invariant circular <==> exists k | 0 <= k < i :: Search(reg, chain[k], {}).0
      invariant issues == [] <==> allRegistered && !circular
      invariant WithCircular(reg, chain[..i], before, issues)
    {
      assert chain[..i + 1] == chain[..i] + [chain[i]];
      var found, _ := CanReachSelf(reg, chain[i], {});
      if found {
        circular := true;
        issues := issues + [Circular(chain[i])];
      }
    }
    ghost var listed := issues;
    if |chain| >= MAX_CHAIN {
      issues := issues + [ChainTooLong];
    }
    ChainFindsCycles(reg, start, chain);
    assert chain[..|chain|] == chain;
    AllIssues(reg, start, chain, before, listed);
    if allRegistered {
      NothingForkedWithoutDangling(reg, start);
    }
    report := Report(issues == [] && reachableEnd && !circular, chain, reachableEnd, circular, issues);
  }

  // To the issues before, one is added for each of the agents whose search succeeds.
  ghost predicate WithCircular(reg: Registry, agents: seq<string>, before: seq<Issue>, issues: seq<Issue>) {
    forall x :: x in issues <==> x in before || (x.Circular? && x.agent in agents && Search(reg, x.agent, {}).0)
  }

  // These are then all issues but that of a chain that is too long.
  lemma AllIssues(reg: Registry, start: string, chain: seq<string>, before: seq<Issue>, issues: seq<Issue>)
    requires ListsReachable(reg, start, chain) && TraversalIssues(reg, start, before)
    requires WithCircular(reg, chain, before, issues)
    ensures var all := if |chain| >= MAX_CHAIN then issues + [ChainTooLong] else issues;
            forall x :: x in all <==> IsIssue(reg, start, chain, x)
  {
    forall x
      ensures x in issues <==> x != ChainTooLong && IsIssue(reg, start, chain, x)
    {
      if x.Circular? {
        SearchFindsCycles(reg, x.agent);
      }
    }
  }

  // Taking an agent from the queue that was visited before, or that is not registered.
  lemma SkipKeepsTraversal(reg: Registry, start: string, visited: set<string>, before: seq<string>,
                           queue: seq<string>, chain: seq<string>, current: string)
    requires Traversal(reg, start, visited, before, chain) && before == [current] + queue
    requires current in visited || current !in reg
    ensures Traversal(reg, start, visited + {current}, queue, chain)
  {
    assert current in before;
    assert forall n | n in before :: n == current || n in queue;
  }

  lemma VisitKeepsTraversal(reg: Registry, start: string, visited: set<string>, before: seq<string>,
                            rest: seq<string>, queue: seq<string>, chain: seq<string>, current: string)
    requires current in reg && current !in visited && before == [current] + rest && chain != []
    requires Traversal(reg, start, visited, before, chain[..|chain| - 1]) && chain[|chain| - 1] == current
    requires rest <= queue
    requires forall n | n in queue :: n in rest || (n in Targets(reg[current]) && n in reg)
    requires forall n | n in Targets(reg[current]) && n in reg :: n in visited + {current} || n in queue
    ensures Traversal(reg, start, visited + {current}, queue, chain)
  {
    assert current in before;
    forall n | n in queue
      ensures Reaches(reg, start, n) && (n in reg || n == start)
    {
      if n in rest {
        assert n in before;
      } else {
        EdgeSteps(reg, current, n);
        ReachesTransitive(reg, start, current, n);
      }
    }
    assert forall n | n in rest :: n in queue;
    assert chain == chain[..|chain| - 1] + [current];
  }

  // With an empty queue everything reachable has been visited.
  lemma TraversalIsComplete(reg: Registry, start: string, visited: set<string>, chain: seq<string>)
    requires Traversal(reg, start, visited, [], chain)
    ensures ListsReachable(reg, start, chain)
    ensures NoDangling(reg, start) <==> AllSound(reg, visited)
    ensures EndReachable(reg, start) <==> SomeEnd(reg, visited)
  {
    forall a | Reaches(reg, start, a) && a in reg
      ensures a in visited
    {
      var w :| WalkFromTo(reg, w, start, a);
      RegisteredAreVisited(reg, w, visited);
    }
    if AllSound(reg, visited) {
      forall b | Reaches(reg, start, b)
        ensures b in reg
      {
        var w :| WalkFromTo(reg, w, start, b);
        Invariant(reg, w, visited);
      }
    }
    if NoDangling(reg, start) {
      forall a | a in visited
        ensures Sound(reg, a)
      {
        forall n | n in Targets(reg[a])
          ensures n in reg
        {
          EdgeSteps(reg, a, n);
          ReachesTransitive(reg, start, a, n);
        }
      }
    }
  }

  lemma {:induction false} RegisteredAreVisited(reg: Registry, w: seq<string>, visited: set<string>)
    requires IsWalk(reg, w) && w[0] in visited && w[|w| - 1] in reg
    requires forall x, y | x in visited && Edge(reg, x, y) && y in reg :: y in visited
    ensures w[|w| - 1] in visited
    decreases |w|
  {
    if |w| > 1 {
      assert Edge(reg, w[0], w[1]);
      var tail := w[1..];
      forall i | 0 <= i < |tail| - 1
        ensures Edge(reg, tail[i], tail[i + 1])
      {
        assert Edge(reg, w[i + 1], w[i + 2]);
      }
      assert |w| > 2 ==> Edge(reg, w[1], w[2]);
      RegisteredAreVisited(reg, tail, visited);
    }
  }

  lemma UnregisteredFindsNothing(reg: Registry, a: string)
    requires a !in reg
    ensures !ReachesCycle(reg, a) && !Forked(reg, a)
  {
    NothingBehindUnregistered(reg, a, {});
    LassoIsCycle(reg, a);
  }

  lemma FoundIsInherited(reg: Registry, a: string, b: string)
    requires Reaches(reg, a, b) && (ReachesCycle(reg, b) || Forked(reg, b))
    ensures ReachesCycle(reg, a) || Forked(reg, a)
  {
    if ReachesCycle(reg, b) {
      CycleIsInherited(reg, a, b);
    } else {
      var c :| c in reg && Reaches(reg, b, c) && Clash(reg, Targets(reg[c]));
      ReachesTransitive(reg, a, b, c);
    }
  }

  // Searching from every agent of the chain finds what can be found from its start.
  lemma ChainFindsCycles(reg: Registry, start: string, chain: seq<string>)
    requires ListsReachable(reg, start, chain)
    ensures (exists k | 0 <= k < |chain| :: Search(reg, chain[k], {}).0)
            <==> ReachesCycle(reg, start) || Forked(reg, start)
  {
    if k :| 0 <= k < |chain| && Search(reg, chain[k], {}).0 {
      assert chain[k] in chain;
      SearchFindsCycles(reg, chain[k]);
      FoundIsInherited(reg, start, chain[k]);
    }
    if start !in reg {
      UnregisteredFindsNothing(reg, start);
    } else {
      ReachesSelf(reg, start);
      assert start in chain;
      SearchFindsCycles(reg, start);
    }
  }
}
