/** The handoff graph: registered agents, the agents they may hand over to, and walks. */
module AgentGraph {
  import opened Text
  import opened HandoffTarget
  import opened HandoffRules

  datatype Profile = Profile(
    name: string, skippable: bool, declaresPlugins: bool, rules: seq<Rule>, fallback: Option<HandoffTarget>)

  type Registry = map<string, Profile>

  // The registry files every profile under its own name.
  predicate WellKeyed(reg: Registry) {
    forall k | k in reg :: reg[k].name == k
  }

  function RuleTargets(rules: seq<Rule>): seq<string> {
    if rules == [] then []
    else (if rules[0].target.Some? then AgentNames(rules[0].target.value) else []) + RuleTargets(rules[1..])
  }

  function FallbackTargets(p: Profile): seq<string> {
    if p.fallback.Some? then AgentNames(p.fallback.value) else []
  }

  function Targets(p: Profile): seq<string> {
    RuleTargets(p.rules) + FallbackTargets(p)
  }

  lemma {:induction false} RuleTargetIsTarget(rules: seq<Rule>, r: Rule, name: string)
    requires r in rules && r.target.Some? && name in AgentNames(r.target.value)
    ensures name in RuleTargets(rules)
  {
    assert rules == [rules[0]] + rules[1..];
    if r != rules[0] {
      RuleTargetIsTarget(rules[1..], r, name);
    }
  }

  predicate Edge(reg: Registry, a: string, b: string) {
    a in reg && b in Targets(reg[a])
  }

  // Only the last agent of a walk may be unregistered.
  ghost predicate IsWalk(reg: Registry, w: seq<string>) {
    w != [] && forall i | 0 <= i < |w| - 1 :: Edge(reg, w[i], w[i + 1])
  }

  ghost predicate WalkFromTo(reg: Registry, w: seq<string>, a: string, b: string) {
    IsWalk(reg, w) && w[0] == a && w[|w| - 1] == b
  }

  ghost predicate Reaches(reg: Registry, a: string, b: string) {
    exists w :: WalkFromTo(reg, w, a, b)
  }

  // Reachable in at least one step.
  ghost predicate StepsTo(reg: Registry, a: string, b: string) {
    exists w :: |w| > 1 && WalkFromTo(reg, w, a, b)
  }

  // Every agent that can be reached is registered.
  ghost predicate NoDangling(reg: Registry, a: string) {
    forall b | Reaches(reg, a, b) :: b in reg
  }

  ghost predicate Repeats(w: seq<string>) {
    exists i, j | 0 <= i < j < |w| :: w[i] == w[j]
  }

  ghost predicate ReachesCycle(reg: Registry, a: string) {
    exists w :: IsWalk(reg, w) && w[0] == a && Repeats(w)
  }

  lemma ReachesSelf(reg: Registry, a: string)
    ensures Reaches(reg, a, a)
  {
    assert WalkFromTo(reg, [a], a, a);
  }

  lemma JoinWalks(reg: Registry, v: seq<string>, w: seq<string>)
    requires IsWalk(reg, v) && IsWalk(reg, w) && v[|v| - 1] == w[0]
    ensures IsWalk(reg, v + w[1..])
  {
    var u := v + w[1..];
    forall i | 0 <= i < |u| - 1
      ensures Edge(reg, u[i], u[i + 1])
    {
      if i >= |v| - 1 {
        var k := i - (|v| - 1);
        assert Edge(reg, w[k], w[k + 1]);
        assert u[i] == w[k] && u[i + 1] == w[k + 1];
      } else {
        assert u[i] == v[i] && u[i + 1] == v[i + 1];
      }
    }
  }

  lemma ReachesTransitive(reg: Registry, a: string, b: string, c: string)
    requires Reaches(reg, a, b) && Reaches(reg, b, c)
    ensures Reaches(reg, a, c)
    ensures StepsTo(reg, a, b) || StepsTo(reg, b, c) ==> StepsTo(reg, a, c)
  {
    var v :| WalkFromTo(reg, v, a, b) && (StepsTo(reg, a, b) ==> |v| > 1);
    var w :| WalkFromTo(reg, w, b, c) && (StepsTo(reg, b, c) ==> |w| > 1);
    JoinWalks(reg, v, w);
    assert WalkFromTo(reg, v + w[1..], a, c);
  }

  lemma EdgeSteps(reg: Registry, a: string, b: string)
    requires Edge(reg, a, b)
    ensures StepsTo(reg, a, b) && Reaches(reg, a, b)
  {
    assert WalkFromTo(reg, [a, b], a, b);
  }

  lemma StepsToReaches(reg: Registry, a: string, b: string)
    requires StepsTo(reg, a, b)
    ensures Reaches(reg, a, b)
  {
    var w :| |w| > 1 && WalkFromTo(reg, w, a, b);
    assert WalkFromTo(reg, w, a, b);
  }

  // An agent that comes back to itself is on a cycle.
  lemma LoopIsCycle(reg: Registry, a: string)
    requires StepsTo(reg, a, a)
    ensures ReachesCycle(reg, a)
  {
    var w :| |w| > 1 && WalkFromTo(reg, w, a, a);
    assert w[0] == w[|w| - 1];
    assert Repeats(w);
  }

  lemma CycleIsInherited(reg: Registry, a: string, b: string)
    requires Reaches(reg, a, b) && ReachesCycle(reg, b)
    ensures ReachesCycle(reg, a)
  {
    var v :| WalkFromTo(reg, v, a, b);
    var w :| IsWalk(reg, w) && w[0] == b && Repeats(w);
    JoinWalks(reg, v, w);
    var u := v + w[1..];
    var i, j :| 0 <= i < j < |w| && w[i] == w[j];
    assert u[|v| - 1 + i] == w[i] && u[|v| - 1 + j] == w[j];
    assert Repeats(u);
  }

  // What holds of `a` and passes along edges holds of everything reachable.
  lemma {:induction false} Invariant(reg: Registry, w: seq<string>, closed: set<string>)
    requires IsWalk(reg, w) && w[0] in closed
    requires forall x, y | x in closed && Edge(reg, x, y) :: y in closed
    ensures w[|w| - 1] in closed
    decreases |w|
  {
    if |w| > 1 {
      assert Edge(reg, w[0], w[1]);
      forall i | 0 <= i < |w[1..]| - 1
        ensures Edge(reg, w[1..][i], w[1..][i + 1])
      {
        assert Edge(reg, w[i + 1], w[i + 2]);
      }
      Invariant(reg, w[1..], closed);
    }
  }
}
