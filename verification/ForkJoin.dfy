/** Fork branches: all targets run in parallel, their results are joined in the order of the
    targets, and the first failure that may not be skipped cancels the rest. */
module ForkJoin {
  import opened Text
  import opened HandoffTarget
  import opened HandoffRules
  import opened AgentGraph

  datatype AgentResult = AgentResult(agent: string, output: Json, next: Option<HandoffTarget>)

  datatype ErrorKind =
    NotInRegistry | AgentFailed | NoPluginRegistry | TimedOut | Panicked | AllBranchesFailed | NoForkTarget

  datatype AgentError = AgentError(agent: string, kind: ErrorKind, skippable: bool)

  // What happens to a branch: anything can, whatever the branch does.
  datatype BranchOutcome = Succeeds(output: Json) | Fails | RunsOutOfTime | Panics

  datatype BranchResult = Okay(result: AgentResult) | Failed(error: AgentError)

  datatype Joined = Joined(results: seq<AgentResult>, errors: seq<AgentError>, skipped: seq<string>)

  const PANICKED_BRANCH := "fork-async-task-error"

  // The rules decide; an agent without rules goes to its fallback.
  function NextOf(op: Operator, p: Profile, output: Json): Option<HandoffTarget> {
    if p.rules == [] then p.fallback else EvalRules(op, p.rules, output)
  }

  function Branch(op: Operator, reg: Registry, agent: string, outcome: BranchOutcome): BranchResult {
    if outcome == Panics then Failed(AgentError(PANICKED_BRANCH, Panicked, false))
    else if outcome == RunsOutOfTime then Failed(AgentError(agent, TimedOut, false))
    else if agent !in reg then Failed(AgentError(agent, NotInRegistry, false))
    else if outcome == Fails then Failed(AgentError(agent, AgentFailed, reg[agent].skippable))
    else Okay(AgentResult(agent, outcome.output, NextOf(op, reg[agent], outcome.output)))
  }

  function Branches(op: Operator, reg: Registry, targets: seq<string>,
                    outcomes: nat -> BranchOutcome): seq<BranchResult> {
    seq(|targets|, i requires 0 <= i < |targets| => Branch(op, reg, targets[i], outcomes(i)))
  }

  lemma BranchesAreBranches(op: Operator, reg: Registry, targets: seq<string>, outcomes: nat -> BranchOutcome,
                            b: BranchResult)
    requires b in Branches(op, reg, targets, outcomes)
    ensures exists i: nat | i < |targets| :: b == Branch(op, reg, targets[i], outcomes(i))
  {
    var branches := Branches(op, reg, targets, outcomes);
    var i :| 0 <= i < |branches| && branches[i] == b;
    assert branches[i] == Branch(op, reg, targets[i], outcomes(i));
  }

  predicate Hard(b: BranchResult) {
    b.Failed? && !b.error.skippable
  }

  // ---- specification of the join ----

  function JoinBranches(branches: seq<BranchResult>): Joined {
    if branches == [] then Joined([], [], [])
    else
      var b := branches[0];
      if Hard(b) then Joined([], [b.error], [])
      else
        var rest := JoinBranches(branches[1..]);
        if b.Okay? then rest.(results := [b.result] + rest.results)
        else Joined(rest.results, [b.error] + rest.errors, [b.error.agent] + rest.skipped)
  }

  /** Awaits the branches in order. */
  method RunFork(op: Operator, reg: Registry, targets: seq<string>, outcomes: nat -> BranchOutcome,
                 errors: seq<AgentError>, skipped: seq<string>)
    returns (results: seq<AgentResult>, errors1: seq<AgentError>, skipped1: seq<string>)
    ensures var j := JoinBranches(Branches(op, reg, targets, outcomes));
            results == j.results && errors1 == errors + j.errors && skipped1 == skipped + j.skipped
  {
    results, errors1, skipped1 := [], errors, skipped;
    ghost var branches := Branches(op, reg, targets, outcomes);
    ghost var all := JoinBranches(branches);
    var i := 0;
    while i < |targets|
      invariant 0 <= i <= |targets|
      invariant results + JoinBranches(branches[i..]).results == all.results
      invariant errors1 + JoinBranches(branches[i..]).errors == errors + all.errors
      invariant skipped1 + JoinBranches(branches[i..]).skipped == skipped + all.skipped
    {
      var result := Branch(op, reg, targets[i], outcomes(i));
      assert branches[i..][0] == result && branches[i..][1..] == branches[i + 1..];
      ghost var rest := JoinBranches(branches[i + 1..]);
      i := i + 1;
      match result {
        case Okay(r) =>
          AppendAssociates(results, [r], rest.results);
          results := results + [r];
        case Failed(err) =>
          if err.skippable {
            AppendAssociates(errors1, [err], rest.errors);
            AppendAssociates(skipped1, [err.agent], rest.skipped);
            skipped1 := skipped1 + [err.agent];
            errors1 := errors1 + [err];
          } else {
            errors1 := errors1 + [err];
            assert results == all.results && skipped1 == skipped + all.skipped;
            return;
          }
      }
    }
  }

  // ---- accounting ----

  lemma {:induction false} AgentsOfEach(errors: seq<AgentError>)
    ensures |AgentsOf(errors)| == |errors| && forall i | 0 <= i < |errors| :: AgentsOf(errors)[i] == errors[i].agent
  {
    if errors != [] {
      AgentsOfEach(errors[1..]);
    }
  }

  // How many branches are awaited before the join gives up, all if it does not.
  function Awaited(branches: seq<BranchResult>): (n: nat)
    ensures n <= |branches|
    ensures forall i | 0 <= i < n :: !Hard(branches[i])
    ensures n < |branches| ==> Hard(branches[n])
  {
    if branches == [] || Hard(branches[0]) then 0 else 1 + Awaited(branches[1..])
  }

  function Results(branches: seq<BranchResult>): seq<AgentResult> {
    if branches == [] then []
    else (if branches[0].Okay? then [branches[0].result] else []) + Results(branches[1..])
  }

  function Failures(branches: seq<BranchResult>): seq<AgentError> {
    if branches == [] then []
    else (if branches[0].Failed? then [branches[0].error] else []) + Failures(branches[1..])
  }

  function AgentsOf(errors: seq<AgentError>): seq<string> {
    if errors == [] then [] else [errors[0].agent] + AgentsOf(errors[1..])
  }

  // The branches awaited after a first one that is not a hard failure.
  lemma AwaitedTail(branches: seq<BranchResult>)
    requires branches != [] && !Hard(branches[0])
    ensures var awaited := branches[..Awaited(branches)];
            awaited != [] && awaited[0] == branches[0] && awaited[1..] == branches[1..][..Awaited(branches[1..])]
  {
  }

  lemma {:induction false} JoinKeepsResults(branches: seq<BranchResult>)
    ensures JoinBranches(branches).results == Results(branches[..Awaited(branches)])
  {
    if branches != [] && !Hard(branches[0]) {
      AwaitedTail(branches);
      JoinKeepsResults(branches[1..]);
    }
  }

  lemma {:induction false} JoinKeepsErrors(branches: seq<BranchResult>)
    ensures var n := Awaited(branches);
            JoinBranches(branches).errors
            == Failures(branches[..n]) + (if n < |branches| then [branches[n].error] else [])
  {
    if branches != [] && !Hard(branches[0]) {
      AwaitedTail(branches);
      JoinKeepsErrors(branches[1..]);
      var n := Awaited(branches[1..]);
      AppendAssociates(if branches[0].Failed? then [branches[0].error] else [], Failures(branches[1..][..n]),
               if n < |branches[1..]| then [branches[1..][n].error] else []);
    }
  }

  lemma {:induction false} JoinKeepsSkips(branches: seq<BranchResult>)
    ensures JoinBranches(branches).skipped == AgentsOf(Failures(branches[..Awaited(branches)]))
  {
    if branches != [] && !Hard(branches[0]) {
      AwaitedTail(branches);
      JoinKeepsSkips(branches[1..]);
      var later := Failures(branches[1..][..Awaited(branches[1..])]);
      if branches[0].Failed? {
        assert ([branches[0].error] + later)[1..] == later;
      } else {
        assert [] + later == later;
      }
    }
  }

  lemma {:induction false} ResultsAndFailures(branches: seq<BranchResult>)
    ensures |Results(branches)| + |Failures(branches)| == |branches|
  {
    if branches != [] {
      ResultsAndFailures(branches[1..]);
    }
  }

  /** Before the first hard failure every branch is in exactly one of results or skipped, in the
      order of the targets; the errors are the skipped ones' and, last, the hard one. */
  lemma JoinAccounts(branches: seq<BranchResult>)
    ensures var n, j := Awaited(branches), JoinBranches(branches);
            j.results == Results(branches[..n])
            && j.skipped == AgentsOf(Failures(branches[..n]))
            && |j.results| + |j.skipped| == n
            && j.errors == Failures(branches[..n]) + (if n < |branches| then [branches[n].error] else [])
  {
    JoinKeepsResults(branches);
    JoinKeepsSkips(branches);
    JoinKeepsErrors(branches);
    ResultsAndFailures(branches[..Awaited(branches)]);
    AgentsOfEach(Failures(branches[..Awaited(branches)]));
  }

  lemma {:induction false} JoinedResultsAreBranches(branches: seq<BranchResult>)
    ensures forall r | r in JoinBranches(branches).results :: Okay(r) in branches
    ensures forall e | e in JoinBranches(branches).errors :: Failed(e) in branches
  {
    if branches != [] {
      JoinedResultsAreBranches(branches[1..]);
      assert branches == [branches[0]] + branches[1..];
    }
  }

  function NamesOf(results: seq<AgentResult>): seq<string> {
    if results == [] then [] else [results[0].agent] + NamesOf(results[1..])
  }

  lemma {:induction false} ResultsFollowBranches(branches: seq<BranchResult>, targets: seq<string>)
    requires |branches| == |targets|
    requires forall i | 0 <= i < |branches| && branches[i].Okay? :: branches[i].result.agent == targets[i]
    ensures Subsequence(NamesOf(JoinBranches(branches).results), targets)
  {
    if branches != [] && !Hard(branches[0]) {
      var later := JoinBranches(branches[1..]).results;
      ResultsFollowBranches(branches[1..], targets[1..]);
      SubsequenceCons(targets[0], NamesOf(later), targets[1..]);
      assert targets == [targets[0]] + targets[1..];
      if branches[0].Okay? {
        assert ([branches[0].result] + later)[1..] == later;
      }
    }
  }

  /** The names of the results are a subsequence of the targets, in the same order. */
  lemma ResultsFollowTargets(op: Operator, reg: Registry, targets: seq<string>, outcomes: nat -> BranchOutcome)
    ensures Subsequence(NamesOf(JoinBranches(Branches(op, reg, targets, outcomes)).results), targets)
  {
    var branches := Branches(op, reg, targets, outcomes);
    forall i | 0 <= i < |branches| && branches[i].Okay?
      ensures branches[i].result.agent == targets[i]
    {
      assert branches[i] == Branch(op, reg, targets[i], outcomes(i));
    }
    ResultsFollowBranches(branches, targets);
  }

  // ---- merging the outputs ----

  // The object a sequence of named outputs makes; a later output replaces an earlier one.
  function Merged(results: seq<AgentResult>): map<string, Json> {
    if results == [] then map[]
    else
      var last := results[|results| - 1];
      Merged(results[..|results| - 1])[last.agent := last.output]
  }

  method MergeForkOutputs(results: seq<AgentResult>) returns (merged: map<string, Json>)
    ensures merged == Merged(results)
  {
    merged := map[];
    for i := 0 to |results|
      invariant merged == Merged(results[..i])
    {
      assert results[..i + 1][..i] == results[..i];
      merged := merged[results[i].agent := results[i].output];
    }
    assert results[..|results|] == results;
  }

  lemma {:induction false} MergedSize(results: seq<AgentResult>)
    requires forall i, j | 0 <= i < j < |results| :: results[i].agent != results[j].agent
    ensures |Merged(results)| == |results|
  {
    if results != [] {
      var n := |results| - 1;
      MergedSize(results[..n]);
      assert results[n].agent !in Merged(results[..n]) by {
        MergedByName(results[..n]);
      }
      assert Merged(results).Keys == Merged(results[..n]).Keys + {results[n].agent};
    }
  }

  lemma {:induction false} NameAt(results: seq<AgentResult>, i: nat)
    requires i < |results|
    ensures |NamesOf(results)| == |results| && NamesOf(results)[i] == results[i].agent
  {
    if results != [] && |results| > 1 {
      NameAt(results[1..], if i > 0 then i - 1 else 0);
    }
  }

  /** With distinct targets the merged object of a fork has exactly the result names as keys and
      loses no output. */
  lemma ForkMergesWithoutLoss(op: Operator, reg: Registry, targets: seq<string>, outcomes: nat -> BranchOutcome)
    requires Distinct(targets)
    ensures var results := JoinBranches(Branches(op, reg, targets, outcomes)).results;
            Merged(results).Keys == (set r | r in results :: r.agent)
            && |results| == |Merged(results)|
            && forall r | r in results :: Merged(results)[r.agent] == r.output
  {
    var results := JoinBranches(Branches(op, reg, targets, outcomes)).results;
    ResultsFollowTargets(op, reg, targets, outcomes);
    SubsequenceMembers(NamesOf(results), targets);
    forall i, j | 0 <= i < j < |results|
      ensures results[i].agent != results[j].agent
    {
      NameAt(results, i);
      NameAt(results, j);
    }
    MergedByName(results);
    MergedSize(results);
  }

  /** The merged object has exactly the names of the results as keys; distinct names keep all
      their outputs. */
  lemma {:induction false} MergedByName(results: seq<AgentResult>)
    ensures Merged(results).Keys == set r | r in results :: r.agent
    ensures (forall i, j | 0 <= i < j < |results| :: results[i].agent != results[j].agent)
            ==> forall r | r in results :: Merged(results)[r.agent] == r.output
  {
    if results != [] {
      var n := |results| - 1;
      assert results == results[..n] + [results[n]];
      MergedByName(results[..n]);
    }
  }
}
