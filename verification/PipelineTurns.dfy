/** What a turn of a pipeline does, case by case, and how a run is made of its turns. The cases are
    told in terms of profiles and outcomes, so that they can be read without the specification the
    pipeline object is proved against. */
module PipelineTurns {
  import opened Text
  import opened HandoffTarget
  import opened HandoffRules
  import opened AgentGraph
  import opened DryRun
  import opened ForkJoin
  import opened PipelineRun

  // The first agent the fallback names.
  function FirstFallback(p: Profile): Option<string> {
    if p.fallback.Some? && AgentNames(p.fallback.value) != [] then Some(AgentNames(p.fallback.value)[0]) else None
  }

  // The plugins an agent asks for can be looked up.
  predicate PluginsFound(c: Config, p: Profile) {
    p.declaresPlugins ==> c.hasPluginRegistry
  }

  // ---- turns without an answer ----

  /** An agent that cannot be resolved, or whose call fails: the run goes on, with the same input,
      exactly when the agent may be skipped and the first agent of its fallback is registered. The
      error is recorded in any case, the skip exactly for an agent that may be skipped. */
  lemma FailureIsHandled(c: Config, agent: string, input: Input, outcome: TurnOutcome)
    requires agent in c.registry
    requires outcome == ResolveFails || (outcome == AgentFails && PluginsFound(c, c.registry[agent]))
    ensures var p := c.registry[agent];
            var (next, log) := Turn(c, agent, input, outcome);
            (next.Advance? <==> p.skippable && FirstFallback(p).Some? && FirstFallback(p).value in c.registry)
            && (next.Advance? ==> next == Advance(FirstFallback(p).value, input))
            && (!next.Advance? ==> next == Halted)
            && log.results == [] && |log.errors| == 1
            && log.errors[0].agent == p.name && (log.errors[0].skippable <==> p.skippable)
            && log.errors[0].kind == AgentFailed
            && log.skipped == if p.skippable then [p.name] else []
  {
  }

  /** A name nobody has registered, and plugins nobody can look up, halt the run with one error
      that may not be skipped, whatever the profile says. */
  lemma MissingPartsHalt(c: Config, agent: string, input: Input, outcome: TurnOutcome)
    ensures agent !in c.registry ==>
              Turn(c, agent, input, outcome) == (Halted, Log([], [AgentError(agent, NotInRegistry, false)], []))
    ensures agent in c.registry && outcome != ResolveFails && !PluginsFound(c, c.registry[agent]) ==>
              Turn(c, agent, input, outcome) == (Halted, Log([], [AgentError(agent, NoPluginRegistry, false)], []))
  {
  }

  // ---- turns with an answer ----

  // The agent answers, and may.
  predicate Answers(c: Config, agent: string, outcome: TurnOutcome) {
    agent in c.registry && outcome.AgentSucceeds? && PluginsFound(c, c.registry[agent])
  }

  /** An answer is recorded with the target the agent hands off to. Without a target the chain
      ends; a single target gets the output. */
  lemma AnswerIsRouted(c: Config, agent: string, input: Input, outcome: TurnOutcome)
    requires Answers(c, agent, outcome)
    ensures var p := c.registry[agent];
            var target := if p.rules == [] then p.fallback else EvalRules(c.op, p.rules, outcome.output);
            var (next, log) := Turn(c, agent, input, outcome);
            log.results == [AgentResult(p.name, outcome.output, target)]
            && (target == None ==> next == ChainEnd && log.errors == [] && log.skipped == [])
            && (target.Some? && target.value.Single? ==>
                  next == Advance(target.value.name, Serialized(outcome.output)) && log.errors == [] && log.skipped == [])
  {
  }

  /** An agent that a dry run counts as an end does end the chain, whatever it answers. */
  lemma EndsEndTheChain(c: Config, agent: string, input: Input, outcome: TurnOutcome)
    requires Answers(c, agent, outcome) && !HasOutgoing(c.registry[agent])
    ensures Turn(c, agent, input, outcome).0 == ChainEnd
  {
    var p := c.registry[agent];
    if p.rules != [] {
      FirstRuleDecides(c.op, p.rules, outcome.output);
      var k := FirstApplying(c.op, p.rules, outcome.output);
      if k < |p.rules| {
        assert p.rules[k] in p.rules;
      }
    }
  }

  // Where a joined fork is to go: where the first result with a target says, or the fallback.
  ghost predicate ForkGoesTo(p: Profile, results: seq<AgentResult>, target: Option<HandoffTarget>) {
    (exists k | 0 <= k < |results| :: results[k].next.Some? && results[k].next == target
                                      && forall i | 0 <= i < k :: results[i].next == None)
    || ((forall r | r in results :: r.next == None) && target == p.fallback)
  }

  lemma {:induction false} FirstNextAt(results: seq<AgentResult>)
    requires FirstNext(results).Some?
    ensures exists k | 0 <= k < |results| :: results[k].next.Some? && results[k].next == FirstNext(results)
                                             && forall i | 0 <= i < k :: results[i].next == None
  {
    if results[0].next == None {
      FirstNextAt(results[1..]);
      var k :| 0 <= k < |results| - 1 && results[1..][k].next.Some? && results[1..][k].next == FirstNext(results)
        && forall i | 0 <= i < k :: results[1..][i].next == None;
      assert results[k + 1] == results[1..][k];
      assert forall i | 0 < i < k + 1 :: results[i] == results[1..][i - 1];
    }
  }

  /** A fork: what its branches bring is recorded. When all of them fail the chain ends with one
      more error; otherwise the merged outputs go where the first result with a target says, of a
      further fork only to its first agent, and without any target to the agent's fallback. */
  lemma ForkIsRouted(c: Config, agent: string, input: Input, outcome: TurnOutcome, targets: seq<string>)
    requires Answers(c, agent, outcome)
    requires NextOf(c.op, c.registry[agent], outcome.output) == Some(Fork(targets))
    ensures var p := c.registry[agent];
            var j := JoinBranches(Branches(c.op, c.registry, targets, outcome.branches));
            var (next, log) := Turn(c, agent, input, outcome);
            log.skipped == j.skipped
            && (j.results == [] ==>
                  next == ChainEnd && log.errors == j.errors + [AgentError(p.name, AllBranchesFailed, p.skippable)])
            && (j.results != [] ==>
                  exists target | ForkGoesTo(p, j.results, target) ::
                    if target.Some? && AgentNames(target.value) != []
                    then next == Advance(AgentNames(target.value)[0], Serialized(Object(Merged(j.results))))
                         && log.errors == j.errors
                    else next == ChainEnd
                         && log.errors == j.errors + if target.Some? then [AgentError(p.name, NoForkTarget, false)] else [])
  {
    var p, j := c.registry[agent], JoinBranches(Branches(c.op, c.registry, targets, outcome.branches));
    if j.results != [] {
      var first := FirstNext(j.results);
      var target := if first.Some? then first else p.fallback;
      if first.Some? {
        FirstNextAt(j.results);
      } else {
        NoNextAtAll(j.results);
      }
      assert ForkGoesTo(p, j.results, target);
      assert j.errors + [] == j.errors;
    }
  }

  /** What becomes of one branch. Only a failing call may be skipped, and only where the profile
      says so; a panic hides even the name. */
  lemma BranchTells(op: Operator, reg: Registry, agent: string, outcome: BranchOutcome)
    ensures var b := Branch(op, reg, agent, outcome);
            (b.Okay? <==> outcome.Succeeds? && agent in reg)
            && (b.Okay? ==> b.result.agent == agent && b.result.output == outcome.output
                            && b.result.next == NextOf(op, reg[agent], outcome.output))
            && (b.Failed? ==> (b.error.skippable <==> outcome == Fails && agent in reg && reg[agent].skippable))
            && (b.Failed? ==> (b.error.agent != agent ==> outcome == Panics && b.error.agent == PANICKED_BRANCH))
            && (b.Failed? ==>
                  match b.error.kind
                  case Panicked => outcome == Panics && b.error.agent == PANICKED_BRANCH
                  case TimedOut => outcome == RunsOutOfTime
                  case NotInRegistry => agent !in reg && !outcome.Panics? && !outcome.RunsOutOfTime?
                  case kind => kind == AgentFailed && agent in reg && outcome == Fails)
  {
  }

  /** Of several outputs under one name the merged object has the last. */
  lemma {:induction false} MergedKeepsTheLast(results: seq<AgentResult>, i: nat)
    requires i < |results| && forall k | i < k < |results| :: results[k].agent != results[i].agent
    ensures results[i].agent in Merged(results) && Merged(results)[results[i].agent] == results[i].output
  {
    if i < |results| - 1 {
      MergedKeepsTheLast(results[..|results| - 1], i);
    }
  }

  // ---- a run and its turns ----

  // An agent called in the main chain, with its input.
  datatype Step = Step(agent: string, input: Input)

  function TurnAt(c: Config, world: World, turn: nat, s: Step): (LoopOutcome, Log) {
    Turn(c, s.agent, s.input, world(turn, s.agent, s.input))
  }

  // Each step of a run, from some turn on, is where the turn before it went.
  ghost predicate Linked(c: Config, world: World, turn: nat, steps: seq<Step>) {
    forall i | 0 <= i < |steps| - 1 :: TurnAt(c, world, turn + i, steps[i]).0 == Advance(steps[i + 1].agent, steps[i + 1].input)
  }

  // What the turns record, in order.
  function Logs(c: Config, world: World, turn: nat, steps: seq<Step>): Log
    decreases |steps|
  {
    if steps == [] then EMPTY else Plus(TurnAt(c, world, turn, steps[0]).1, Logs(c, world, turn + 1, steps[1..]))
  }

  /** A run is its turns: it starts where it is told to, each turn goes on where the one before it
      went, the log is what all of them record in order, and it ends completed when the last one
      ends the chain, stopped when that halts, and exhausted when that would go on but no iteration
      is left. */
  lemma {:induction false} RunIsItsTurns(c: Config, world: World, turn: nat, agent: string,
                                         input: Input) returns (steps: seq<Step>)
    requires turn <= c.maxIterations
    ensures var (end, log) := RunFrom(c, world, turn, agent, input);
            |steps| <= c.maxIterations - turn && (turn < c.maxIterations ==> steps != [])
            && (steps != [] ==> steps[0] == Step(agent, input))
            && Linked(c, world, turn, steps) && log == Logs(c, world, turn, steps)
            && (steps == [] ==> end == Exhausted)
            && (steps != [] ==>
                  var n := |steps| - 1;
                  match TurnAt(c, world, turn + n, steps[n]).0
                  case ChainEnd => end == Completed
                  case Halted => end == Stopped
                  case Advance(_, _) => end == Exhausted && |steps| == c.maxIterations - turn)
    decreases c.maxIterations - turn
  {
    hide Turn, Linked, Logs;
    steps := [];
    NoSteps(c, world, turn);
    if turn < c.maxIterations {
      var s := Step(agent, input);
      var (outcome, log) := TurnAt(c, world, turn, s);
      PlusNothing(log);
      var rest: seq<Step> := [];
      if outcome.Advance? {
        rest := RunIsItsTurns(c, world, turn + 1, outcome.agent, outcome.input);
      } else {
        NoSteps(c, world, turn + 1);
      }
      steps := [s] + rest;
      LinkFirst(c, world, turn, s, rest);
    }
  }

  lemma NoSteps(c: Config, world: World, turn: nat)
    ensures Linked(c, world, turn, []) && Logs(c, world, turn, []) == EMPTY
  {
  }

  lemma PlusNothing(log: Log)
    ensures Plus(log, EMPTY) == log
  {
  }

  lemma LinkFirst(c: Config, world: World, turn: nat, s: Step, rest: seq<Step>)
    requires Linked(c, world, turn + 1, rest)
    requires rest != [] ==> TurnAt(c, world, turn, s).0 == Advance(rest[0].agent, rest[0].input)
    ensures Linked(c, world, turn, [s] + rest)
    ensures Logs(c, world, turn, [s] + rest) == Plus(TurnAt(c, world, turn, s).1, Logs(c, world, turn + 1, rest))
  {
    hide Turn;
    var steps := [s] + rest;
    assert steps[1..] == rest;
    forall i | 0 <= i < |steps| - 1
      ensures TurnAt(c, world, turn + i, steps[i]).0 == Advance(steps[i + 1].agent, steps[i + 1].input)
    {
      if i > 0 {
        assert TurnAt(c, world, turn + 1 + (i - 1), rest[i - 1]).0 == Advance(rest[i].agent, rest[i].input);
      }
    }
  }
}
