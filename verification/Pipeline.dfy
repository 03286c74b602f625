/** The pipeline engine: what happens after each agent completion, and why every run ends. */
module Pipeline {
  import opened Text

  datatype Action = Advance(nextAgent: string, phase: nat) | Terminal | Retry | Deadletter

  /** Agent sequences per issue type; a depth of 0 means unlimited. */
  datatype Engine = Engine(definitions: map<string, seq<string>>, maxDepth: nat)

  const MAX_CONSECUTIVE_REVERTS: nat := 3
  const DEFAULT_AGENT: string := "dev-agent"

  function AgentsFor(e: Engine, issueType: string): seq<string> {
    var agents := if issueType in e.definitions then e.definitions[issueType] else [DEFAULT_AGENT];
    if 0 < e.maxDepth < |agents| then agents[..e.maxDepth] else agents
  }

  /** The configured agents of the type, or the one that is there for every type, cut to the depth when there is one. */
  ghost predicate IsPipeline(e: Engine, issueType: string, agents: seq<string>) {
    var all := if issueType in e.definitions then e.definitions[issueType] else ["dev-agent"];
    agents <= all && (if e.maxDepth == 0 || |all| <= e.maxDepth then agents == all else |agents| == e.maxDepth)
  }

  lemma AgentsForMeans(e: Engine, issueType: string)
    ensures IsPipeline(e, issueType, AgentsFor(e, issueType))
  {
  }

  /** A run starts with the first agent, and with the one for every type when the pipeline is empty. */
  lemma StartsFirst(e: Engine, issueType: string)
    ensures var agents := AgentsFor(e, issueType);
            Start(e, issueType) == Active(if agents == [] then "dev-agent" else agents[0], 0)
  {
  }

  function DefaultAgent(e: Engine, issueType: string): string {
    var agents := AgentsFor(e, issueType);
    if agents == [] then DEFAULT_AGENT else agents[0]
  }

  function Position(agents: seq<string>, agent: string): (r: Option<nat>)
    ensures r.Some? ==> r.value < |agents| && agents[r.value] == agent
    ensures r.Some? ==> forall k :: 0 <= k < r.value ==> agents[k] != agent
    ensures r.None? <==> agent !in agents
  {
    if agents == [] then None
    else if agents[0] == agent then Some(0)
    else match Position(agents[1..], agent)
         case Some(k) => Some(k + 1)
         case None => None
  }

  function NextAgent(e: Engine, issueType: string, current: string): Option<string> {
    var agents := AgentsFor(e, issueType);
    match Position(agents, current)
    case Some(k) => if k + 1 < |agents| then Some(agents[k + 1]) else None
    case None => None
  }

  function Decide(e: Engine, issueType: string, current: Option<string>, exitSuccess: bool,
                  verifyPassed: Option<bool>, retries: nat, maxRetries: nat, reverts: nat): Action
  {
    var exhausted := retries >= maxRetries || reverts >= MAX_CONSECUTIVE_REVERTS;
    if !exitSuccess then (if exhausted then Deadletter else Retry)
    else if verifyPassed == Some(false) then (if exhausted then Deadletter else Retry)
    else
      match current
      case None => Terminal
      case Some(agent) =>
        match NextAgent(e, issueType, agent)
        case None => Terminal
        case Some(next) =>
          // The phase is a byte: positions past 255 wrap around.
          Advance(next, match Position(AgentsFor(e, issueType), next) case Some(k) => k % 256 case None => 0)
  }

  /** Without repeated agents a passing completion moves to the very next stage. */
  lemma PassAdvances(e: Engine, issueType: string, k: nat, verified: Option<bool>, retries: nat, max: nat, reverts: nat)
    requires NoRepeats(AgentsFor(e, issueType)) && k < |AgentsFor(e, issueType)| && verified != Some(false)
    ensures var agents := AgentsFor(e, issueType);
            Decide(e, issueType, Some(agents[k]), true, verified, retries, max, reverts) ==
            if k + 1 < |agents| then Advance(agents[k + 1], (k + 1) % 256) else Terminal
  {
    var agents := AgentsFor(e, issueType);
    PositionOf(agents, k);
    if k + 1 < |agents| { PositionOf(agents, k + 1); }
  }

  /** A passing completion without an agent, or of one that is not in the pipeline, ends the run. */
  lemma PassOutsideEnds(e: Engine, issueType: string, current: Option<string>, verified: Option<bool>, retries: nat,
                        max: nat, reverts: nat)
    requires verified != Some(false) && (current.Some? ==> current.value !in AgentsFor(e, issueType))
    ensures Decide(e, issueType, current, true, verified, retries, max, reverts) == Terminal
  {
  }

  // ----- Runs -----

  datatype Outcome = Outcome(exitSuccess: bool, verifyPassed: Option<bool>, reverts: nat)
  datatype Progress = Active(agent: string, retries: nat) | Done | Dead

  predicate Succeeds(o: Outcome) {
    o.exitSuccess && o.verifyPassed != Some(false)
  }

  function Step(e: Engine, issueType: string, maxRetries: nat, p: Progress, o: Outcome): Progress {
    match p
    case Active(agent, retries) => (
      match Decide(e, issueType, Some(agent), o.exitSuccess, o.verifyPassed, retries, maxRetries, o.reverts)
      case Advance(next, _) => Active(next, 0)
      case Retry => Active(agent, retries + 1)
      case Terminal => Done
      case Deadletter => Dead)
    case Done => Done
    case Dead => Dead
  }

  function Run(e: Engine, issueType: string, maxRetries: nat, p: Progress, outcomes: seq<Outcome>): Progress
    decreases |outcomes|
  {
    if outcomes == [] then p
    else Run(e, issueType, maxRetries, Step(e, issueType, maxRetries, p, outcomes[0]), outcomes[1..])
  }

  predicate NoRepeats(agents: seq<string>) {
    forall i, j | 0 <= i < j < |agents| :: agents[i] != agents[j]
  }

  function Start(e: Engine, issueType: string): Progress {
    Active(DefaultAgent(e, issueType), 0)
  }

  /** Stages still to finish, counting the current one; 1 for the fallback agent of an empty pipeline. */
  function StagesLeft(e: Engine, issueType: string, agent: string): (n: nat)
    ensures n >= 1
  {
    match Position(AgentsFor(e, issueType), agent)
    case Some(k) => |AgentsFor(e, issueType)| - k
    case None => 1
  }

  function Budget(e: Engine, issueType: string, maxRetries: nat, p: Progress): int {
    match p
    case Active(agent, retries) => StagesLeft(e, issueType, agent) * (maxRetries + 1) - retries
    case Done => 0
    case Dead => 0
  }

  ghost predicate Sound(maxRetries: nat, p: Progress) {
    p.Active? ==> p.retries <= maxRetries
  }

  lemma PositionOf(agents: seq<string>, k: nat)
    requires NoRepeats(agents) && k < |agents|
    ensures Position(agents, agents[k]) == Some(k)
  {
    assert agents[k] in agents;
  }

  lemma BudgetPositive(m: nat, stages: nat, retries: nat)
    requires stages >= 1 && retries <= m
    ensures stages * (m + 1) - retries >= 1
    ensures (stages - 1) * (m + 1) < stages * (m + 1) - retries
  {
    assert stages * (m + 1) == (stages - 1) * (m + 1) + (m + 1);
  }

  /** Every completion of an unfinished run spends budget. */
  lemma StepSpends(e: Engine, issueType: string, m: nat, p: Progress, o: Outcome)
    requires NoRepeats(AgentsFor(e, issueType)) && p.Active? && Sound(m, p)
    ensures Sound(m, Step(e, issueType, m, p, o))
    ensures Budget(e, issueType, m, Step(e, issueType, m, p, o)) < Budget(e, issueType, m, p)
  {
    var agents := AgentsFor(e, issueType);
    BudgetPositive(m, StagesLeft(e, issueType, p.agent), p.retries);
    var q := Step(e, issueType, m, p, o);
    if q.Active? && Succeeds(o) {
      var k := Position(agents, p.agent).value;
      PositionOf(agents, k + 1);
      assert StagesLeft(e, issueType, q.agent) == StagesLeft(e, issueType, p.agent) - 1;
    }
  }

  lemma {:induction false} RunEnds(e: Engine, issueType: string, m: nat, p: Progress, outcomes: seq<Outcome>)
    requires NoRepeats(AgentsFor(e, issueType)) && Sound(m, p)
    requires Budget(e, issueType, m, p) <= |outcomes|
    ensures !Run(e, issueType, m, p, outcomes).Active?
    decreases |outcomes|
  {
    if p.Active? {
      BudgetPositive(m, StagesLeft(e, issueType, p.agent), p.retries);
      StepSpends(e, issueType, m, p, outcomes[0]);
      RunEnds(e, issueType, m, Step(e, issueType, m, p, outcomes[0]), outcomes[1..]);
    } else if outcomes != [] {
      RunEnds(e, issueType, m, p, outcomes[1..]);
    }
  }

  /** Any outcomes whatsoever: a pipeline without repeated agents is over after stages x (retries + 1) completions. */
  lemma EveryRunEnds(e: Engine, issueType: string, m: nat, outcomes: seq<Outcome>)
    requires NoRepeats(AgentsFor(e, issueType))
    requires var n := |AgentsFor(e, issueType)|; |outcomes| >= (if n == 0 then 1 else n) * (m + 1)
    ensures !Run(e, issueType, m, Start(e, issueType), outcomes).Active?
  {
    var agents := AgentsFor(e, issueType);
    if agents != [] { PositionOf(agents, 0); }
    RunEnds(e, issueType, m, Start(e, issueType), outcomes);
  }

  ghost predicate AllSucceed(outcomes: seq<Outcome>) {
    forall k :: 0 <= k < |outcomes| ==> Succeeds(outcomes[k])
  }

  lemma {:induction false} SuccessNeverDies(e: Engine, issueType: string, m: nat, p: Progress, outcomes: seq<Outcome>)
    requires AllSucceed(outcomes) && !p.Dead?
    ensures !Run(e, issueType, m, p, outcomes).Dead?
    decreases |outcomes|
  {
    if outcomes != [] {
      SuccessNeverDies(e, issueType, m, Step(e, issueType, m, p, outcomes[0]), outcomes[1..]);
    }
  }

  /** Up to the first repeated agent, at j, successes only ever visit agents before j. */
  lemma {:induction false} RepeatLoops(e: Engine, issueType: string, m: nat, i: nat, j: nat, p: Progress,
                                       outcomes: seq<Outcome>)
    requires var agents := AgentsFor(e, issueType);
             i < j < |agents| && agents[i] == agents[j] && p.Active? && p.agent in agents[..j]
    requires AllSucceed(outcomes)
    ensures Run(e, issueType, m, p, outcomes).Active?
    decreases |outcomes|
  {
    if outcomes != [] {
      var agents := AgentsFor(e, issueType);
      var q := Step(e, issueType, m, p, outcomes[0]);
      var k := Position(agents, p.agent).value;
      var t :| 0 <= t < j && agents[..j][t] == p.agent;
      assert k <= t;
      assert q == Active(agents[k + 1], 0);
      assert q.agent in agents[..j] by {
        if k + 1 < j { assert agents[..j][k + 1] == q.agent; } else { assert agents[..j][i] == q.agent; }
      }
      RepeatLoops(e, issueType, m, i, j, q, outcomes[1..]);
    }
  }

  /** A run in which every agent succeeds completes if and only if no agent appears twice. */
  lemma SuccessCompletesIffDistinct(e: Engine, issueType: string, m: nat, outcomes: seq<Outcome>)
    requires AllSucceed(outcomes)
    requires var n := |AgentsFor(e, issueType)|; |outcomes| >= (if n == 0 then 1 else n) * (m + 1)
    ensures Run(e, issueType, m, Start(e, issueType), outcomes).Done? <==> NoRepeats(AgentsFor(e, issueType))
  {
    var agents := AgentsFor(e, issueType);
    if NoRepeats(agents) {
      EveryRunEnds(e, issueType, m, outcomes);
      SuccessNeverDies(e, issueType, m, Start(e, issueType), outcomes);
    } else {
      var i, j :| 0 <= i < j < |agents| && agents[i] == agents[j];
      assert agents[..j][0] == agents[0];
      RepeatLoops(e, issueType, m, i, j, Start(e, issueType), outcomes);
    }
  }

  // ----- What ends a run -----

  /** Failures that are not a third consecutive revert use up the stage's retries one by one, and then kill the run. */
  lemma {:induction false} FailuresUseRetries(e: Engine, issueType: string, m: nat, agent: string, retries: nat,
                                              outcomes: seq<Outcome>)
    requires retries <= m
    requires forall k :: 0 <= k < |outcomes| ==> !Succeeds(outcomes[k]) && outcomes[k].reverts < 3
    ensures Run(e, issueType, m, Active(agent, retries), outcomes) ==
      if retries + |outcomes| <= m then Active(agent, retries + |outcomes|) else Dead
    decreases |outcomes|
  {
    if outcomes != [] {
      if retries < m {
        FailuresUseRetries(e, issueType, m, agent, retries + 1, outcomes[1..]);
      } else {
        StaysDead(e, issueType, m, outcomes[1..]);
      }
    }
  }

  lemma {:induction false} StaysDead(e: Engine, issueType: string, m: nat, outcomes: seq<Outcome>)
    ensures Run(e, issueType, m, Dead, outcomes) == Dead
    decreases |outcomes|
  {
    if outcomes != [] { StaysDead(e, issueType, m, outcomes[1..]); }
  }

  /** The third consecutive revert kills a failing run whatever retries are left. */
  lemma ThirdRevertKills(e: Engine, issueType: string, m: nat, p: Progress, o: Outcome, rest: seq<Outcome>)
    requires p.Active? && !Succeeds(o) && o.reverts >= 3
    ensures Run(e, issueType, m, p, [o] + rest) == Dead
  {
    assert ([o] + rest)[1..] == rest;
    StaysDead(e, issueType, m, rest);
  }

  /** Places in the run, in order, where a completion was a success that did not fail verification. */
  ghost predicate Picks(picks: seq<nat>, outcomes: seq<Outcome>) {
    && (forall i, j :: 0 <= i < j < |picks| ==> picks[i] < picks[j])
    && (forall i :: 0 <= i < |picks| ==>
          picks[i] < |outcomes| && outcomes[picks[i]].exitSuccess && outcomes[picks[i]].verifyPassed != Some(false))
  }

  lemma PickLater(later: seq<nat>, outcomes: seq<Outcome>) returns (picks: seq<nat>)
    requires outcomes != [] && Picks(later, outcomes[1..])
    ensures Picks(picks, outcomes) && |picks| == |later| + if Succeeds(outcomes[0]) then 1 else 0
  {
    var shifted: seq<nat> := seq(|later|, i requires 0 <= i < |later| => later[i] + 1);
    forall i | 0 <= i < |later| ensures outcomes[shifted[i]] == outcomes[1..][later[i]] { }
    picks := if Succeeds(outcomes[0]) then [0] + shifted else shifted;
  }

  /** A run is only ever done once every stage that was left has had its own success. */
  lemma {:induction false} DoneNeedsEveryStage(
    e: Engine, issueType: string, m: nat, p: Progress, outcomes: seq<Outcome>) returns (picks: seq<nat>)
    requires NoRepeats(AgentsFor(e, issueType)) && p.Active? && Run(e, issueType, m, p, outcomes).Done?
    ensures Picks(picks, outcomes) && |picks| >= StagesLeft(e, issueType, p.agent)
    decreases |outcomes|
  {
    var q, rest := Step(e, issueType, m, p, outcomes[0]), outcomes[1..];
    picks := [];
    match q
    case Active(next, _) =>
      picks := DoneNeedsEveryStage(e, issueType, m, q, rest);
      picks := PickLater(picks, outcomes);
      if Succeeds(outcomes[0]) { NextStage(e, issueType, p.agent); }
    case Done =>
      picks := PickLater([], outcomes);
      LastStage(e, issueType, p.agent);
    case Dead => StaysDead(e, issueType, m, rest);
  }

  lemma NextStage(e: Engine, issueType: string, agent: string)
    requires NoRepeats(AgentsFor(e, issueType)) && NextAgent(e, issueType, agent).Some?
    ensures StagesLeft(e, issueType, NextAgent(e, issueType, agent).value) == StagesLeft(e, issueType, agent) - 1
  {
    var agents := AgentsFor(e, issueType);
    PositionOf(agents, Position(agents, agent).value + 1);
  }

  lemma LastStage(e: Engine, issueType: string, agent: string)
    requires NextAgent(e, issueType, agent).None?
    ensures StagesLeft(e, issueType, agent) == 1
  {
  }

  /** So a run from the start needs as many successes as its pipeline has stages. */
  lemma WholeRunNeedsEveryStage(e: Engine, issueType: string, m: nat, outcomes: seq<Outcome>)
    returns (picks: seq<nat>)
    requires NoRepeats(AgentsFor(e, issueType)) && Run(e, issueType, m, Start(e, issueType), outcomes).Done?
    ensures Picks(picks, outcomes) && |picks| >= |AgentsFor(e, issueType)|
  {
    var agents := AgentsFor(e, issueType);
    picks := [];
    if agents != [] {
      PositionOf(agents, 0);
      picks := DoneNeedsEveryStage(e, issueType, m, Start(e, issueType), outcomes);
    }
  }
}
