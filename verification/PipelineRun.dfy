/** Running a pipeline: one agent after the other, routed by rules, fallbacks and forks, under
    arbitrary outcomes of every model call. The main theorem ties such runs to the dry run. */
module PipelineRun {
  import opened Text
  import opened HandoffTarget
  import opened HandoffRules
  import opened AgentGraph
  import opened ForkJoin
  import opened DryRun

  // What an agent is given to work on.
  datatype Input = Text(text: string) | Serialized(value: Json)

  // What happens when an agent is called. A fork brings an outcome for each branch.
  datatype TurnOutcome =
    | ResolveFails
    | AgentFails
    | AgentSucceeds(output: Json, branches: nat -> BranchOutcome)

  // The outcomes of all calls: they may depend on the turn, the agent and its input.
  type World = (nat, string, Input) -> TurnOutcome

  datatype LoopOutcome = Advance(agent: string, input: Input) | ChainEnd | Halted

  datatype Log = Log(results: seq<AgentResult>, errors: seq<AgentError>, skipped: seq<string>)

  const EMPTY := Log([], [], [])

  function Plus(a: Log, b: Log): Log {
    Log(a.results + b.results, a.errors + b.errors, a.skipped + b.skipped)
  }

  datatype Config = Config(registry: Registry, op: Operator, hasPluginRegistry: bool, maxIterations: nat)

  // ---- specification of one turn ----

  // The fallback agent to try after a skippable error; of a fork only the first.
  function HandleFallback(reg: Registry, p: Profile): Option<string> {
    match p.fallback
    case None => None
    case Some(Single(name)) => if name in reg then Some(name) else None
    case Some(Fork(names)) => if names != [] && names[0] in reg then Some(names[0]) else None
  }

  function HandleError(c: Config, p: Profile, input: Input): (LoopOutcome, Log) {
    var error := AgentError(p.name, AgentFailed, p.skippable);
    if p.skippable then
      var next := HandleFallback(c.registry, p);
      (if next.Some? then Advance(next.value, input) else Halted, Log([], [error], [p.name]))
    else (Halted, Log([], [error], []))
  }

  function FirstNext(results: seq<AgentResult>): Option<HandoffTarget> {
    if results == [] then None
    else if results[0].next.Some? then results[0].next
    else FirstNext(results[1..])
  }

  // Where a joined fork goes: the first branch with a next target, else the agent's fallback.
  function AfterFork(p: Profile, j: Joined): (LoopOutcome, seq<AgentError>) {
    if j.results == [] then (ChainEnd, [AgentError(p.name, AllBranchesFailed, p.skippable)])
    else
      var first := FirstNext(j.results);
      var merged := Serialized(Object(Merged(j.results)));
      match if first.Some? then first else p.fallback
      case None => (ChainEnd, [])
      case Some(Single(name)) => (Advance(name, merged), [])
      case Some(Fork(names)) =>
        if names != [] then (Advance(names[0], merged), [])
        else (ChainEnd, [AgentError(p.name, NoForkTarget, false)])
  }

  function RouteAfterSuccess(c: Config, p: Profile, output: Json, outcomes: nat -> BranchOutcome): (LoopOutcome, Log) {
    var next := NextOf(c.op, p, output);
    var result := AgentResult(p.name, output, next);
    match next
    case None => (ChainEnd, Log([result], [], []))
    case Some(Single(name)) => (Advance(name, Serialized(output)), Log([result], [], []))
    case Some(Fork(targets)) =>
      var j := JoinBranches(Branches(c.op, c.registry, targets, outcomes));
      var (outcome, more) := AfterFork(p, j);
      (outcome, Log([result], j.errors + more, j.skipped))
  }

  function Turn(c: Config, agent: string, input: Input, outcome: TurnOutcome): (LoopOutcome, Log) {
    if agent !in c.registry then (Halted, Log([], [AgentError(agent, NotInRegistry, false)], []))
    else
      var p := c.registry[agent];
      if outcome == ResolveFails then HandleError(c, p, input)
      else if p.declaresPlugins
          && !c.hasPluginRegistry then (Halted, Log([], [AgentError(agent, NoPluginRegistry, false)], []))
      else if outcome == AgentFails then HandleError(c, p, input)
      else RouteAfterSuccess(c, p, outcome.output, outcome.branches)
  }

  // ---- specification of a run ----

  datatype End = Completed | Stopped | Exhausted

  function RunFrom(c: Config, world: World, turn: nat, agent: string, input: Input): (End, Log)
    requires turn <= c.maxIterations
    decreases c.maxIterations - turn
  {
    if turn == c.maxIterations then (Exhausted, EMPTY)
    else
      var (outcome, log) := Turn(c, agent, input, world(turn, agent, input));
      match outcome
      case ChainEnd => (Completed, log)
      case Halted => (Stopped, log)
      case Advance(next, nextInput) =>
        var (end, rest) := RunFrom(c, world, turn + 1, next, nextInput);
        (end, Plus(log, rest))
  }

  // The agents the main chain comes to, including one it has no turn left for.
  function Chain(c: Config, world: World, turn: nat, agent: string, input: Input): (chain: seq<string>)
    requires turn <= c.maxIterations
    ensures chain != [] && chain[0] == agent
    decreases c.maxIterations - turn
  {
    if turn == c.maxIterations then [agent]
    else
      match Turn(c, agent, input, world(turn, agent, input)).0
      case Advance(next, nextInput) => [agent] + Chain(c, world, turn + 1, next, nextInput)
      case _ => [agent]
  }

  // The agents a turn calls: its own and, if it forks, one for each branch.
  function CalledInTurn(c: Config, agent: string, outcome: TurnOutcome): seq<string> {
    if agent in c.registry && outcome.AgentSucceeds? && (c.registry[agent].declaresPlugins ==> c.hasPluginRegistry) then
      match NextOf(c.op, c.registry[agent], outcome.output)
      case Some(Fork(targets)) => [agent] + targets
      case _ => [agent]
    else [agent]
  }

  // The agents a run calls, in the main chain and in forks.
  function Called(c: Config, world: World, turn: nat, agent: string, input: Input): seq<string>
    requires turn <= c.maxIterations
    decreases c.maxIterations - turn
  {
    if turn == c.maxIterations then []
    else
      var outcome := world(turn, agent, input);
      CalledInTurn(c, agent, outcome)
      + match Turn(c, agent, input, outcome).0
        case Advance(next, nextInput) => Called(c, world, turn + 1, next, nextInput)
        case _ => []
  }

  // ---- the pipeline object ----

  datatype PipelineResult = PipelineResult(
    results: seq<AgentResult>, errors: seq<AgentError>, completed: bool, skipped: seq<string>)

  class Pipeline {
    const config: Config

    constructor (config: Config)
      ensures this.config == config
    {
      this.config := config;
    }

    method OnError(p: Profile, input: Input, log: Log) returns (outcome: LoopOutcome, log1: Log)
      ensures var (o, l) := HandleError(config, p, input); outcome == o && log1 == Plus(log, l)
    {
      var error := AgentError(p.name, AgentFailed, p.skippable);
      if p.skippable {
        log1 := Log(log.results, log.errors + [error], log.skipped + [p.name]);
        var next := HandleFallback(config.registry, p);
        if next.Some? {
          outcome := Advance(next.value, input);
        } else {
          outcome := Halted;
        }
      } else {
        log1 := Log(log.results, log.errors + [error], log.skipped);
        outcome := Halted;
      }
      assert log.results + [] == log.results && log.skipped + [] == log.skipped;
    }

    method AfterSuccess(p: Profile, output: Json, outcomes: nat -> BranchOutcome, log: Log)
      returns (outcome: LoopOutcome, log1: Log)
      ensures var (o, l) := RouteAfterSuccess(config, p, output, outcomes); outcome == o && log1 == Plus(log, l)
    {
      var next := if p.rules == [] then p.fallback else EvalRules(config.op, p.rules, output);
      var results := log.results + [AgentResult(p.name, output, next)];
      var errors, skipped := log.errors, log.skipped;
      assert errors + [] == errors && skipped + [] == skipped;
      match next {
        case None =>
          return ChainEnd, Log(results, errors, skipped);
        case Some(Single(name)) =>
          return Advance(name, Serialized(output)), Log(results, errors, skipped);
        case Some(Fork(targets)) =>
          var forkResults;
          ghost var j := JoinBranches(Branches(config.op, config.registry, targets, outcomes));
          forkResults, errors, skipped := RunFork(config.op, config.registry, targets, outcomes, errors, skipped);
          ghost var more := AfterFork(p, j).1;
          assert log.errors + (j.errors + more) == log.errors + j.errors + more;
          if forkResults == [] {
            return ChainEnd, Log(results, errors + [AgentError(p.name, AllBranchesFailed, p.skippable)], skipped);
          }
          var merged := MergeForkOutputs(forkResults);
          var forkNext := FirstNext(forkResults);
          if forkNext == None {
            forkNext := p.fallback;
          }
          match forkNext {
            case None =>
              return ChainEnd, Log(results, errors, skipped);
            case Some(Single(name)) =>
              return Advance(name, Serialized(Object(merged))), Log(results, errors, skipped);
            case Some(Fork(names)) =>
              if names != [] {
                return Advance(names[0], Serialized(Object(merged))), Log(results, errors, skipped);
              }
              return ChainEnd, Log(results, errors + [AgentError(p.name, NoForkTarget, false)], skipped);
          }
      }
    }

    method TakeTurn(agent: string, input: Input, outcome: TurnOutcome, log: Log) returns (next: LoopOutcome, log1: Log)
      ensures var (o, l) := Turn(config, agent, input, outcome); next == o && log1 == Plus(log, l)
    {
      assert log.results + [] == log.results && log.skipped + [] == log.skipped;
      if agent !in config.registry {
        return Halted, Log(log.results, log.errors + [AgentError(agent, NotInRegistry, false)], log.skipped);
      }
      var profile := config.registry[agent];
      if outcome == ResolveFails {
        next, log1 := OnError(profile, input, log);
        return;
      }
      if profile.declaresPlugins && !config.hasPluginRegistry {
        return Halted, Log(log.results, log.errors + [AgentError(agent, NoPluginRegistry, false)], log.skipped);
      }
      match outcome {
        case AgentSucceeds(output, branches) => next, log1 := AfterSuccess(profile, output, branches, log);
        case AgentFails => next, log1 := OnError(profile, input, log);
      }
    }

    /** Runs the pipeline. What it returns is the specified run, for every world. */
    method Run(start: string, input: string, world: World) returns (r: PipelineResult)
      ensures var (end, log) := RunFrom(config, world, 0, start, Text(input));
              r == PipelineResult(log.results, log.errors, end == Completed, log.skipped)
    {
      hide Turn;
      var log := EMPTY;
      var currentAgent, currentInput := start, Text(input);
      var completed := false;
      ghost var (end, all) := RunFrom(config, world, 0, start, Text(input));
      var turn := 0;
      assert Plus(EMPTY, all) == all;
      while turn < config.maxIterations
        invariant 0 <= turn <= config.maxIterations && !completed
        invariant RunFrom(config, world, turn, currentAgent, currentInput).0 == end
        invariant Plus(log, RunFrom(config, world, turn, currentAgent, currentInput).1) == all
      {
        ghost var before := log;
        var called := world(turn, currentAgent, currentInput);
        var outcome;
        outcome, log := TakeTurn(currentAgent, currentInput, called, log);
        match outcome {
          case Advance(agent, next) =>
            RunStep(config, world, turn, currentAgent, currentInput, before);
            currentAgent, currentInput := agent, next;
          case ChainEnd =>
            completed := true;
            break;
          case Halted =>
            break;
        }
        turn := turn + 1;
      }
      assert Plus(log, EMPTY) == log;
      r := PipelineResult(log.results, log.errors, completed, log.skipped);
    }
  }

  // The rest of a run that goes on, after one turn of it.
  lemma RunStep(c: Config, world: World, turn: nat, agent: string, input: Input, earlier: Log)
    requires turn < c.maxIterations && Turn(c, agent, input, world(turn, agent, input)).0.Advance?
    ensures var (next, log) := Turn(c, agent, input, world(turn, agent, input));
            var (end, rest) := RunFrom(c, world, turn + 1, next.agent, next.input);
            RunFrom(c, world, turn, agent, input).0 == end
            && Plus(earlier, RunFrom(c, world, turn, agent, input).1) == Plus(Plus(earlier, log), rest)
  {
    var (next, log) := Turn(c, agent, input, world(turn, agent, input));
    PlusAssociates(earlier, log, RunFrom(c, world, turn + 1, next.agent, next.input).1);
  }

  lemma PlusAssociates(a: Log, b: Log, c: Log)
    ensures Plus(a, Plus(b, c)) == Plus(Plus(a, b), c)
  {
    assert a.results + (b.results + c.results) == a.results + b.results + c.results;
    assert a.errors + (b.errors + c.errors) == a.errors + b.errors + c.errors;
    assert a.skipped + (b.skipped + c.skipped) == a.skipped + b.skipped + c.skipped;
  }

  // ---- every step follows one or two edges ----

  lemma NextIsTarget(op: Operator, p: Profile, output: Json)
    requires NextOf(op, p, output).Some?
    ensures forall n | n in AgentNames(NextOf(op, p, output).value) :: n in Targets(p)
  {
    if p.rules != [] {
      FirstRuleDecides(op, p.rules, output);
      var r := p.rules[FirstApplying(op, p.rules, output)];
      forall n | n in AgentNames(r.target.value)
        ensures n in Targets(p)
      {
        RuleTargetIsTarget(p.rules, r, n);
      }
    }
  }

  lemma {:induction false} FirstNextIsSomeones(results: seq<AgentResult>)
    requires FirstNext(results).Some?
    ensures exists r | r in results :: r.next == FirstNext(results)
  {
    if results[0].next == None {
      FirstNextIsSomeones(results[1..]);
    }
  }

  lemma {:induction false} NoNextAtAll(results: seq<AgentResult>)
    ensures FirstNext(results) == None <==> forall r | r in results :: r.next == None
  {
    if results != [] {
      NoNextAtAll(results[1..]);
      assert results == [results[0]] + results[1..];
    }
  }

  /** A fork goes where its first result says exactly when that result has a next target or none
      of the results has one. */
  lemma FirstResultDecides(results: seq<AgentResult>)
    requires results != []
    ensures FirstNext(results) == results[0].next
            <==> results[0].next.Some? || forall r | r in results :: r.next == None
  {
    NoNextAtAll(results);
    assert results[0] in results;
  }

  /** Otherwise it does not: "x" ends its chain and "y" hands off to "z". Both succeed, "x" first,
      and the fork goes to "z", not to the fallback of the agent that forked. */
  lemma SecondResultDecides(op: Operator, p: Profile, output: Json)
    ensures var x := Profile("x", false, false, [], None);
            var y := Profile("y", false, false, [], Some(Single("z")));
            var j := JoinBranches(Branches(op, map["x" := x, "y" := y], ["x", "y"], i => Succeeds(output)));
            |j.results| == 2 && j.errors == [] && j.results[0].next == None
            && AfterFork(p, j) == (Advance("z", Serialized(Object(Merged(j.results)))), [])
  {
    var x := Profile("x", false, false, [], None);
    var y := Profile("y", false, false, [], Some(Single("z")));
    var reg, targets := map["x" := x, "y" := y], ["x", "y"];
    var branches := Branches(op, reg, targets, i => Succeeds(output));
    assert branches[1..][1..] == [];
    var first, second := AgentResult("x", output, None), AgentResult("y", output, Some(Single("z")));
    assert "x"[0] != "y"[0] && reg["x"] == x && reg["y"] == y;
    assert branches[0] == Branch(op, reg, targets[0], Succeeds(output)) == Okay(first);
    assert branches[1] == Branch(op, reg, targets[1], Succeeds(output)) == Okay(second);
    assert JoinBranches(branches).results == [first, second] by {
      assert JoinBranches(branches[1..]).results == [second];
    }
    assert [first, second][1..] == [second];
    assert FirstNext([first, second]) == FirstNext([second]) == Some(Single("z"));
  }

  // A result of a fork comes from a registered target and carries a target of that agent.
  lemma ForkResultIsBranch(c: Config, targets: seq<string>, outcomes: nat -> BranchOutcome, r: AgentResult)
    requires r in JoinBranches(Branches(c.op, c.registry, targets, outcomes)).results
    ensures r.agent in targets && r.agent in c.registry
    ensures r.next.Some? ==> forall n | n in AgentNames(r.next.value) :: Edge(c.registry, r.agent, n)
  {
    var branches := Branches(c.op, c.registry, targets, outcomes);
    JoinedResultsAreBranches(branches);
    BranchesAreBranches(c.op, c.registry, targets, outcomes, Okay(r));
    var i: nat :| i < |targets| && Okay(r) == Branch(c.op, c.registry, targets[i], outcomes(i));
    if r.next.Some? {
      NextIsTarget(c.op, c.registry[r.agent], r.output);
    }
  }

  // The second edge is that of a fork branch.
  ghost predicate OneOrTwoEdges(reg: Registry, a: string, b: string) {
    Edge(reg, a, b) || exists via :: Edge(reg, a, via) && Edge(reg, via, b)
  }

  /** Every step of a run follows one or two edges of the handoff graph. */
  lemma AdvanceFollowsEdges(c: Config, agent: string, input: Input, outcome: TurnOutcome)
    requires Turn(c, agent, input, outcome).0.Advance?
    ensures OneOrTwoEdges(c.registry, agent, Turn(c, agent, input, outcome).0.agent)
  {
    var reg, p := c.registry, c.registry[agent];
    var to := Turn(c, agent, input, outcome).0.agent;
    if !Edge(reg, agent, to) {
      NextIsTarget(c.op, p, outcome.output);
      var targets := NextOf(c.op, p, outcome.output).value.names;
      var j := JoinBranches(Branches(c.op, reg, targets, outcome.branches));
      assert FirstNext(j.results).Some? && to in AgentNames(FirstNext(j.results).value);
      FirstNextIsSomeones(j.results);
      var r :| r in j.results && r.next == FirstNext(j.results);
      ForkResultIsBranch(c, targets, outcome.branches, r);
      assert Edge(reg, agent, r.agent) && Edge(reg, r.agent, to);
    }
  }

  lemma AdvanceSteps(c: Config, agent: string, input: Input, outcome: TurnOutcome)
    requires Turn(c, agent, input, outcome).0.Advance?
    ensures StepsTo(c.registry, agent, Turn(c, agent, input, outcome).0.agent)
  {
    AdvanceFollowsEdges(c, agent, input, outcome);
    var reg, to := c.registry, Turn(c, agent, input, outcome).0.agent;
    if Edge(reg, agent, to) {
      EdgeSteps(reg, agent, to);
    } else {
      var via :| Edge(reg, agent, via) && Edge(reg, via, to);
      EdgeSteps(reg, agent, via);
      EdgeSteps(reg, via, to);
      ReachesTransitive(reg, agent, via, to);
    }
  }

  // ---- a valid dry run protects every run ----

  predicate MissingAgent(e: AgentError) {
    e.kind == NotInRegistry
  }

  lemma NoBranchIsMissing(c: Config, targets: seq<string>, outcomes: nat -> BranchOutcome)
    requires AllRegistered(c.registry, targets)
    ensures forall e | e in JoinBranches(Branches(c.op, c.registry, targets, outcomes)).errors :: !MissingAgent(e)
  {
    var branches := Branches(c.op, c.registry, targets, outcomes);
    JoinedResultsAreBranches(branches);
    forall e | e in JoinBranches(branches).errors
      ensures !MissingAgent(e)
    {
      BranchesAreBranches(c.op, c.registry, targets, outcomes, Failed(e));
      var i: nat :| i < |targets| && Failed(e) == Branch(c.op, c.registry, targets[i], outcomes(i));
      assert targets[i] in targets;
    }
  }

  lemma TurnMissesNoAgent(c: Config, agent: string, input: Input, outcome: TurnOutcome)
    requires NoDangling(c.registry, agent)
    ensures forall e | e in Turn(c, agent, input, outcome).1.errors :: !MissingAgent(e)
  {
    ReachesSelf(c.registry, agent);
    var p := c.registry[agent];
    if outcome.AgentSucceeds? && NextOf(c.op, p, outcome.output).Some? && NextOf(c.op, p, outcome.output).value.Fork? {
      var targets := NextOf(c.op, p, outcome.output).value.names;
      NextIsTarget(c.op, p, outcome.output);
      forall n | n in targets
        ensures n in c.registry
      {
        EdgeSteps(c.registry, agent, n);
      }
      NoBranchIsMissing(c, targets, outcome.branches);
    }
  }

  lemma ReachedHasNoDangling(reg: Registry, a: string, b: string)
    requires NoDangling(reg, a) && Reaches(reg, a, b)
    ensures NoDangling(reg, b)
  {
    forall x | Reaches(reg, b, x)
      ensures x in reg
    {
      ReachesTransitive(reg, a, b, x);
    }
  }

  // Everything later in the chain is at least one step away.
  lemma {:induction false} ChainSteps(c: Config, world: World, turn: nat, agent: string, input: Input, i: nat)
    requires turn <= c.maxIterations && 1 <= i < |Chain(c, world, turn, agent, input)|
    ensures StepsTo(c.registry, agent, Chain(c, world, turn, agent, input)[i])
    decreases c.maxIterations - turn
  {
    hide Turn;
    var outcome := world(turn, agent, input);
    AdvanceSteps(c, agent, input, outcome);
    var next := Turn(c, agent, input, outcome).0;
    var rest := Chain(c, world, turn + 1, next.agent, next.input);
    if i > 1 {
      ChainSteps(c, world, turn + 1, next.agent, next.input, i - 1);
      StepsToReaches(c.registry, agent, next.agent);
      StepsToReaches(c.registry, next.agent, rest[i - 1]);
      ReachesTransitive(c.registry, agent, next.agent, rest[i - 1]);
    }
  }

  /** Where nothing dangles no run ever finds an agent missing. */
  lemma {:induction false} RunMissesNoAgent(c: Config, world: World, turn: nat, agent: string, input: Input)
    requires turn <= c.maxIterations && NoDangling(c.registry, agent)
    ensures forall e | e in RunFrom(c, world, turn, agent, input).1.errors :: !MissingAgent(e)
    decreases c.maxIterations - turn
  {
    hide Turn, NoDangling;
    if turn < c.maxIterations {
      var outcome := world(turn, agent, input);
      TurnMissesNoAgent(c, agent, input, outcome);
      var next := Turn(c, agent, input, outcome).0;
      if next.Advance? {
        AdvanceSteps(c, agent, input, outcome);
        StepsToReaches(c.registry, agent, next.agent);
        ReachedHasNoDangling(c.registry, agent, next.agent);
        RunMissesNoAgent(c, world, turn + 1, next.agent, next.input);
      }
    }
  }

  /** Where no cycle can be reached no agent comes twice, whether or not something dangles. */
  lemma {:induction false} ChainIsDistinct(c: Config, world: World, turn: nat, agent: string, input: Input, i: nat,
                                           j: nat)
    requires turn <= c.maxIterations && i < j < |Chain(c, world, turn, agent, input)|
    requires !ReachesCycle(c.registry, agent)
    ensures Chain(c, world, turn, agent, input)[i] != Chain(c, world, turn, agent, input)[j]
    decreases c.maxIterations - turn
  {
    hide Turn, ReachesCycle;
    if i == 0 {
      ChainSteps(c, world, turn, agent, input, j);
      if Chain(c, world, turn, agent, input)[j] == agent {
        LoopIsCycle(c.registry, agent);
      }
    } else {
      var outcome := world(turn, agent, input);
      var next := Turn(c, agent, input, outcome).0;
      AdvanceSteps(c, agent, input, outcome);
      StepsToReaches(c.registry, agent, next.agent);
      if ReachesCycle(c.registry, next.agent) {
        CycleIsInherited(c.registry, agent, next.agent);
      }
      ChainIsDistinct(c, world, turn + 1, next.agent, next.input, i - 1, j - 1);
    }
  }

  // A run that runs out of iterations has used every one of them for another agent.
  lemma {:induction false} ExhaustedMeansFull(c: Config, world: World, turn: nat, agent: string, input: Input)
    requires turn <= c.maxIterations
    requires RunFrom(c, world, turn, agent, input).0 == Exhausted
    ensures |Chain(c, world, turn, agent, input)| == c.maxIterations - turn + 1
    decreases c.maxIterations - turn
  {
    if turn < c.maxIterations {
      var next := Turn(c, agent, input, world(turn, agent, input)).0;
      ExhaustedMeansFull(c, world, turn + 1, next.agent, next.input);
    }
  }

  // Distinct members of a list are no more than the list.
  lemma {:induction false} Pigeonhole(s: seq<string>, pool: seq<string>)
    requires Distinct(s) && forall a | a in s :: a in pool
    ensures |s| <= |pool|
    decreases |s|
  {
    if s != [] {
      assert s[0] in pool;
      var k :| 0 <= k < |pool| && pool[k] == s[0];
      var smaller := pool[..k] + pool[k + 1..];
      forall a | a in s[1..]
        ensures a in smaller
      {
        var i :| 1 <= i < |s| && s[i] == a;
        assert s[i] in pool;
        var m :| 0 <= m < |pool| && pool[m] == a;
        assert s[0] != s[i];
        if m < k { assert smaller[m] == a; } else { assert smaller[m - 1] == a; }
      }
      Pigeonhole(s[1..], smaller);
    }
  }

  // ---- who is called, and whose names appear ----

  lemma CalledInTurnAreReached(c: Config, agent: string, outcome: TurnOutcome, name: string)
    requires name in CalledInTurn(c, agent, outcome)
    ensures Reaches(c.registry, agent, name)
  {
    ReachesSelf(c.registry, agent);
    if name != agent {
      NextIsTarget(c.op, c.registry[agent], outcome.output);
      EdgeSteps(c.registry, agent, name);
    }
  }

  lemma {:induction false} CalledAreReached(c: Config, world: World, turn: nat, agent: string, input: Input,
                                            name: string)
    requires turn <= c.maxIterations && name in Called(c, world, turn, agent, input)
    ensures Reaches(c.registry, agent, name)
    decreases c.maxIterations - turn
  {
    hide Turn, CalledInTurn;
    var outcome := world(turn, agent, input);
    if name in CalledInTurn(c, agent, outcome) {
      CalledInTurnAreReached(c, agent, outcome, name);
    } else {
      var next := Turn(c, agent, input, outcome).0;
      CalledAreReached(c, world, turn + 1, next.agent, next.input, name);
      AdvanceSteps(c, agent, input, outcome);
      StepsToReaches(c.registry, agent, next.agent);
      ReachesTransitive(c.registry, agent, next.agent, name);
    }
  }

  // Every name in the log is that of an agent called; a panicked branch has a name of its own.
  ghost predicate NamesOnly(log: Log, called: seq<string>) {
    && (forall r | r in log.results :: r.agent in called)
    && (forall e | e in log.errors :: e.agent in called || e.agent == PANICKED_BRANCH)
    && (forall s | s in log.skipped :: s in called)
  }

  lemma ForkNames(c: Config, targets: seq<string>, outcomes: nat -> BranchOutcome)
    ensures var j := JoinBranches(Branches(c.op, c.registry, targets, outcomes));
            (forall e | e in j.errors :: e.agent in targets || e.agent == PANICKED_BRANCH)
            && forall s | s in j.skipped :: s in targets
  {
    var branches := Branches(c.op, c.registry, targets, outcomes);
    JoinedResultsAreBranches(branches);
    forall e | e in JoinBranches(branches).errors
      ensures e.agent in targets || (e.agent == PANICKED_BRANCH && !e.skippable)
    {
      BranchesAreBranches(c.op, c.registry, targets, outcomes, Failed(e));
      var i: nat :| i < |targets| && Failed(e) == Branch(c.op, c.registry, targets[i], outcomes(i));
      assert targets[i] in targets;
    }
    forall s | s in JoinBranches(branches).skipped
      ensures s in targets
    {
      SkippedHasError(branches, s);
    }
  }

  lemma {:induction false} SkippedHasError(branches: seq<BranchResult>, s: string)
    requires s in JoinBranches(branches).skipped
    ensures exists e | e in JoinBranches(branches).errors :: e.agent == s && e.skippable
  {
    if branches[0].Okay? || s != branches[0].error.agent {
      SkippedHasError(branches[1..], s);
    } else {
      assert branches[0].error in JoinBranches(branches).errors;
    }
  }

  lemma TurnNamesCalled(c: Config, agent: string, input: Input, outcome: TurnOutcome)
    requires WellKeyed(c.registry)
    ensures NamesOnly(Turn(c, agent, input, outcome).1, CalledInTurn(c, agent, outcome))
  {
    if agent in c.registry && outcome.AgentSucceeds? {
      var next := NextOf(c.op, c.registry[agent], outcome.output);
      if next.Some? && next.value.Fork? {
        ForkNames(c, next.value.names, outcome.branches);
      }
    }
  }

  lemma MoreNames(a: Log, calledA: seq<string>, b: Log, calledB: seq<string>)
    requires NamesOnly(a, calledA) && NamesOnly(b, calledB)
    ensures NamesOnly(Plus(a, b), calledA + calledB)
  {
  }

  lemma {:induction false} LogNamesCalled(c: Config, world: World, turn: nat, agent: string, input: Input)
    requires turn <= c.maxIterations && WellKeyed(c.registry)
    ensures NamesOnly(RunFrom(c, world, turn, agent, input).1, Called(c, world, turn, agent, input))
    decreases c.maxIterations - turn
  {
    hide Turn, CalledInTurn;
    if turn < c.maxIterations {
      var outcome := world(turn, agent, input);
      var (next, log) := Turn(c, agent, input, outcome);
      TurnNamesCalled(c, agent, input, outcome);
      if next.Advance? {
        LogNamesCalled(c, world, turn + 1, next.agent, next.input);
        MoreNames(log, CalledInTurn(c, agent, outcome), RunFrom(c, world, turn + 1, next.agent, next.input).1,
                  Called(c, world, turn + 1, next.agent, next.input));
      }
    }
  }

  /** Main theorem. Let `chain` be what a dry run from `start` reports and let it be valid. Then
      in every world, whatever the agents answer and however calls, forks and fallbacks fail:
      no agent is ever missing from the registry, no agent of the main chain runs twice, only
      agents of the report are called, in the main chain or in a fork, and if they number at most
      the iteration limit, the run comes to the end of the chain or halts on an error; it never
      runs out of iterations. */
  lemma ValidDryRunProtectsEveryRun(c: Config, world: World, start: string, input: Input, chain: seq<string>)
    requires ListsReachable(c.registry, start, chain) && ValidChain(c.registry, start, chain)
    ensures forall e | e in RunFrom(c, world, 0, start, input).1.errors :: !MissingAgent(e)
    ensures Distinct(Chain(c, world, 0, start, input))
    ensures forall a | a in Chain(c, world, 0, start, input) :: a in chain
    ensures forall a | a in Called(c, world, 0, start, input) :: a in chain
    ensures |chain| <= c.maxIterations ==> RunFrom(c, world, 0, start, input).0 != Exhausted
  {
    forall a | a in Called(c, world, 0, start, input)
      ensures a in chain
    {
      CalledAreReached(c, world, 0, start, input, a);
    }
    RunMissesNoAgent(c, world, 0, start, input);
    var visits := Chain(c, world, 0, start, input);
    forall i, j | 0 <= i < j < |visits|
      ensures visits[i] != visits[j]
    {
      ChainIsDistinct(c, world, 0, start, input, i, j);
    }
    forall a | a in visits
      ensures a in chain
    {
      var i: nat :| i < |visits| && visits[i] == a;
      ReachesSelf(c.registry, start);
      if i > 0 {
        ChainSteps(c, world, 0, start, input, i);
        StepsToReaches(c.registry, start, a);
      }
    }
    Pigeonhole(visits, chain);
    if RunFrom(c, world, 0, start, input).0 == Exhausted {
      ExhaustedMeansFull(c, world, 0, start, input);
    }
  }

  /** And no other names appear: with every profile under its own name, those in the results, the
      errors and the skips of such a run are the report's, but for the name of panicked branches. */
  lemma OnlyReportedNamesAppear(c: Config, world: World, start: string, input: Input, chain: seq<string>)
    requires ListsReachable(c.registry, start, chain) && ValidChain(c.registry, start, chain) && WellKeyed(c.registry)
    ensures NamesOnly(RunFrom(c, world, 0, start, input).1, chain)
  {
    LogNamesCalled(c, world, 0, start, input);
    ValidDryRunProtectsEveryRun(c, world, start, input, chain);
  }
}
