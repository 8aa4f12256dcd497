/** The genepool: a controller that owns a population of roller agents,
    steps their evaluation tick by tick, and breeds the next generation by
    elitism, tournament selection, crossover and mutation.

    The controller is a state machine over `Generation`,
    `IsGenepoolInitialized` and `IsPopulationEvaluated`; the agent list is a
    field that its methods reassign. The world collaborator records every
    hook it receives in its log. Random draws and physics readings are
    oracle arguments. */
module Genepools {
  import opened Genomes
  import opened Agents

  /** Every parent is the winner of a tournament of three. */
  const TournamentSize: nat := 3

  /** What `IterateGeneration` draws for one child: a coin per crossover
      position and a mutation draw per position. */
  datatype Breeding = Breeding(coins: seq<bool>, mutation: seq<MutationDraw>)

  predicate Distinct(s: seq<RollerAgent>)
  {
    forall i, j :: 0 <= i < j < |s| ==> s[i] != s[j]
  }

  ghost predicate SortedByFitness(s: seq<RollerAgent>)
    reads s
  {
    forall i, j :: 0 <= i < j < |s| ==> s[i].fitness <= s[j].fitness
  }

  /** `winner` is one of the first `size` entries drawn into `pool` and no
      entry is fitter. Ties are not broken: any fittest entry wins. */
  ghost predicate WinsTournament(pool: seq<RollerAgent>, entries: seq<nat>, size: nat, winner: RollerAgent)
    reads pool, winner
  {
    && size <= |entries|
    && (forall j :: 0 <= j < size ==> entries[j] < |pool|)
    && (exists j :: 0 <= j < size && winner == pool[entries[j]])
    && (forall j :: 0 <= j < size ==> pool[entries[j]].fitness <= winner.fitness)
  }

  /** The tournament draws are enough for `count` tournaments of three over a
      pool of `poolSize` agents, and each lies in the pool. */
  predicate TournamentDraws(picks: seq<seq<nat>>, count: nat, poolSize: nat)
  {
    && |picks| >= count
    && forall i :: 0 <= i < count ==>
         |picks[i]| >= TournamentSize && forall j :: 0 <= j < TournamentSize ==> picks[i][j] < poolSize
  }

  /** The breeding draws are enough for `count` children of `geneCount` genes. */
  predicate BreedingDraws(breeding: seq<Breeding>, count: nat, geneCount: nat)
  {
    && |breeding| >= count
    && forall i :: 0 <= i < count ==> |breeding[i].coins| >= geneCount && |breeding[i].mutation| >= geneCount
  }

  /** The genes of a child: the crossover of its parents' genes, then mutated. */
  function Offspring(mine: seq<Vec3>, theirs: seq<Vec3>, b: Breeding, mutationRate: real): (child: seq<Vec3>)
    requires |theirs| >= |mine| && |b.coins| >= |mine| && |b.mutation| >= |mine|
    ensures |child| == |mine|
  {
    Mutated(Crossed(mine, theirs, b.coins), mutationRate, b.mutation)
  }

  /** With a mutation rate of zero or below, every gene of a child comes
      from one of its two parents. */
  lemma OffspringWithoutMutation(mine: seq<Vec3>, theirs: seq<Vec3>, b: Breeding, mutationRate: real)
    requires |theirs| >= |mine| && |b.coins| >= |mine| && |b.mutation| >= |mine|
    requires mutationRate <= 0.0 && forall i :: 0 <= i < |b.mutation| ==> 0.0 <= b.mutation[i].roll
    ensures forall i :: 0 <= i < |mine| ==>
      Offspring(mine, theirs, b, mutationRate)[i] == mine[i] || Offspring(mine, theirs, b, mutationRate)[i] == theirs[i]
  {
    NonPositiveRateKeepsGenes(Crossed(mine, theirs, b.coins), mutationRate, b.mutation);
    CrossedInherits(mine, theirs, b.coins);
  }

  /** What the world sees when the first `n` of `agents` are stepped one
      after another. */
  function StepTrace(agents: seq<RollerAgent>, n: nat): (trace: seq<Event>)
    requires n <= |agents|
    ensures |trace| == n
  {
    seq(n, i requires 0 <= i < n => Stepped(agents[i]))
  }

  /** What the world sees during one effective tick of the population
      `agents`: the pre-evaluation hook, then one step per agent in list
      order, then the post-evaluation hook that runs the physics on those
      steps. */
  function TickTrace(agents: seq<RollerAgent>): (trace: seq<Event>)
    ensures |trace| == |agents| + 2
  {
    [PreEvaluateGeneration] + StepTrace(agents, |agents|) + [PostEvaluateGeneration]
  }

  /** What the world sees during `ticks` effective ticks, one after another. */
  function TickLog(agents: seq<RollerAgent>, ticks: nat): seq<Event>
  {
    if ticks == 0 then [] else TickLog(agents, ticks - 1) + TickTrace(agents)
  }

  /** Whether every agent of a population has finished its evaluation. */
  predicate AllEvaluated(states: seq<AgentState>)
  {
    forall i :: 0 <= i < |states| ==> states[i].hasEvaluated
  }

  /** One tick on the population's evaluation states: every agent steps once
      on its own reading. */
  function TickAll(states: seq<AgentState>, genomeSize: int, obs: seq<Observation>): (r: seq<AgentState>)
    requires genomeSize > 0 && |obs| == |states|
    ensures |r| == |states| && forall i :: 0 <= i < |states| ==> r[i] == Step(states[i], genomeSize, obs[i])
  {
    seq(|states|, i requires 0 <= i < |states| => Step(states[i], genomeSize, obs[i]))
  }

  /** One reading per agent per tick. */
  predicate Readings(ticks: seq<seq<Observation>>, agentCount: nat)
  {
    forall t :: 0 <= t < |ticks| ==> |ticks[t]| == agentCount
  }

  /** The population's states after the ticks, taken in order. */
  function RunTicks(states: seq<AgentState>, genomeSize: int, ticks: seq<seq<Observation>>): (r: seq<AgentState>)
    requires genomeSize > 0 && Readings(ticks, |states|)
    ensures |r| == |states|
    decreases |ticks|
  {
    if ticks == [] then states
    else TickAll(RunTicks(states, genomeSize, ticks[..|ticks| - 1]), genomeSize, ticks[|ticks| - 1])
  }

  /** The readings agent `i` receives over the ticks. */
  function Column(ticks: seq<seq<Observation>>, i: nat): (c: seq<Observation>)
    requires forall t :: 0 <= t < |ticks| ==> i < |ticks[t]|
    ensures |c| == |ticks| && forall t :: 0 <= t < |ticks| ==> c[t] == ticks[t][i]
  {
    seq(|ticks|, t requires 0 <= t < |ticks| => ticks[t][i])
  }

  /** Ticking a population is stepping each agent on its own readings: the
      agents do not influence each other's evaluation state. */
  lemma {:induction false} RunTicksPerAgent(states: seq<AgentState>, genomeSize: int, ticks: seq<seq<Observation>>, i: nat)
    requires genomeSize > 0 && Readings(ticks, |states|) && i < |states|
    ensures RunTicks(states, genomeSize, ticks)[i] == Steps(states[i], genomeSize, Column(ticks, i))
    decreases |ticks|
  {
    if ticks != [] {
      var earlier := ticks[..|ticks| - 1];
      RunTicksPerAgent(states, genomeSize, earlier, i);
      StepsAppend(states[i], genomeSize, Column(earlier, i), ticks[|ticks| - 1][i]);
      assert Column(ticks, i) == Column(earlier, i) + [ticks[|ticks| - 1][i]];
    }
  }

  /** Whatever the physics reports, a population whose agents are within the
      evaluation invariant has finished after `genomeSize` ticks. */
  lemma PopulationEvaluatedWithin(states: seq<AgentState>, genomeSize: int, ticks: seq<seq<Observation>>)
    requires genomeSize > 0 && Readings(ticks, |states|) && |ticks| >= genomeSize
    requires forall i :: 0 <= i < |states| ==> InRange(states[i], genomeSize)
    ensures AllEvaluated(RunTicks(states, genomeSize, ticks))
  {
    forall i | 0 <= i < |states|
      ensures RunTicks(states, genomeSize, ticks)[i].hasEvaluated
    {
      RunTicksPerAgent(states, genomeSize, ticks, i);
      EvaluatedWithin(states[i], genomeSize, Column(ticks, i));
    }
  }

  /** After none of the first `n - 1` tick counts had every agent finished. */
  ghost predicate UnfinishedBefore(states: seq<AgentState>, genomeSize: int, ticks: seq<seq<Observation>>, n: nat)
    requires genomeSize > 0 && Readings(ticks, |states|) && n <= |ticks| + 1
    decreases n
  {
    n <= 1 || (UnfinishedBefore(states, genomeSize, ticks, n - 1)
               && !AllEvaluated(RunTicks(states, genomeSize, ticks[..n - 1])))
  }

  lemma {:induction false} UnfinishedBeforeAll(states: seq<AgentState>, genomeSize: int, ticks: seq<seq<Observation>>, n: nat)
    requires genomeSize > 0 && Readings(ticks, |states|) && n <= |ticks| + 1
    requires UnfinishedBefore(states, genomeSize, ticks, n)
    ensures forall m :: 1 <= m < n ==> !AllEvaluated(RunTicks(states, genomeSize, ticks[..m]))
    decreases n
  {
    if n > 1 {
      UnfinishedBeforeAll(states, genomeSize, ticks, n - 1);
    }
  }

  /** One more tick is one more `TickAll` after the others. */
  lemma RunTicksAppend(states: seq<AgentState>, genomeSize: int, ticks: seq<seq<Observation>>, t: nat)
    requires genomeSize > 0 && Readings(ticks, |states|) && t < |ticks|
    ensures RunTicks(states, genomeSize, ticks[..t + 1])
         == TickAll(RunTicks(states, genomeSize, ticks[..t]), genomeSize, ticks[t])
  {
    assert ticks[..t + 1][..t] == ticks[..t];
  }

  /** Before any tick: the states and the log as they were. */
  lemma NoTicks(states: seq<AgentState>, genomeSize: int, ticks: seq<seq<Observation>>,
                log: seq<Event>, agents: seq<RollerAgent>)
    requires genomeSize > 0 && Readings(ticks, |states|)
    ensures RunTicks(states, genomeSize, ticks[..0]) == states
    ensures log + TickLog(agents, 0) == log
  {
  }

  /** After one tick: one `TickAll` on the first readings, and one trace. */
  lemma OneTick(states: seq<AgentState>, genomeSize: int, ticks: seq<seq<Observation>>,
                log: seq<Event>, agents: seq<RollerAgent>)
    requires genomeSize > 0 && Readings(ticks, |states|) && |ticks| >= 1
    ensures RunTicks(states, genomeSize, ticks[..1]) == TickAll(states, genomeSize, ticks[0])
    ensures log + TickLog(agents, 1) == log + TickTrace(agents)
  {
  }

  /** A tick's trace is the pre-evaluation hook, one step per agent in list
      order, then the post-evaluation hook. */
  lemma TickTraceOrder(agents: seq<RollerAgent>)
    ensures TickTrace(agents)[0] == PreEvaluateGeneration
    ensures TickTrace(agents)[|agents| + 1] == PostEvaluateGeneration
    ensures forall i :: 0 <= i < |agents| ==> TickTrace(agents)[i + 1] == Stepped(agents[i])
  {
  }

  /** A log extended by one more agent's step. */
  lemma StepTraceAppend(log: seq<Event>, agents: seq<RollerAgent>, i: nat)
    requires i < |agents|
    ensures log + StepTrace(agents, i + 1) == (log + StepTrace(agents, i)) + [Stepped(agents[i])]
  {
  }

  /** A log extended by one more tick's trace. */
  lemma TickLogAppend(log: seq<Event>, agents: seq<RollerAgent>, t: nat)
    ensures log + TickLog(agents, t + 1) == (log + TickLog(agents, t)) + TickTrace(agents)
  {
  }

  /** A log extended event by event over one tick ends with that tick's trace. */
  lemma TickTraceAppend(log: seq<Event>, agents: seq<RollerAgent>)
    ensures (log + [PreEvaluateGeneration] + StepTrace(agents, |agents|)) + [PostEvaluateGeneration]
            == log + TickTrace(agents)
  {
  }


  /** The last agent of a list sorted by fitness is at least as fit as any. */
  lemma LastIsFittest(s: seq<RollerAgent>)
    requires |s| > 0 && SortedByFitness(s)
    ensures forall a :: a in s ==> a.fitness <= s[|s| - 1].fitness
  {
  }

  /** `List.Sort` with the fitness comparison: some ordering of the same
      agents by ascending fitness. Nothing is promised about the relative
      order of agents of equal fitness, as the library sort is not stable. */
  method SortByFitness(s: seq<RollerAgent>) returns (r: seq<RollerAgent>)
    ensures multiset(r) == multiset(s) && |r| == |s|
    ensures SortedByFitness(r)
    ensures forall a :: a in r <==> a in s
    ensures |s| > 0 ==> forall a :: a in s ==> a.fitness <= r[|r| - 1].fitness
  {
    r := [];
    for i := 0 to |s|
      invariant multiset(r) == multiset(s[..i])
      invariant SortedByFitness(r)
    {
      r := InsertByFitness(r, s[i]);
      assert s[..i + 1] == s[..i] + [s[i]];
    }
    assert s[..|s|] == s;
    assert |multiset(r)| == |multiset(s)|;
    forall a
      ensures a in r <==> a in s
    {
      assert a in r <==> a in multiset(r);
      assert a in s <==> a in multiset(s);
    }
    if |s| > 0 {
      LastIsFittest(r);
    }
  }

  /** Inserts `x` into a list sorted by fitness, after every agent that is
      no fitter. */
  method InsertByFitness(r: seq<RollerAgent>, x: RollerAgent) returns (r': seq<RollerAgent>)
    requires SortedByFitness(r)
    ensures multiset(r') == multiset(r) + multiset{x}
    ensures SortedByFitness(r')
  {
    var k := 0;
    while k < |r| && r[k].fitness <= x.fitness
      invariant 0 <= k <= |r|
      invariant forall m :: 0 <= m < k ==> r[m].fitness <= x.fitness
    {
      k := k + 1;
    }
    InsertionSorted(r, x, k);
    r' := r[..k] + [x] + r[k..];
    assert r == r[..k] + r[k..];
  }

  /** Putting `x` after every agent no fitter and before every fitter one
      keeps the list sorted. */
  lemma InsertionSorted(r: seq<RollerAgent>, x: RollerAgent, k: nat)
    requires SortedByFitness(r) && k <= |r|
    requires forall m :: 0 <= m < k ==> r[m].fitness <= x.fitness
    requires k < |r| ==> x.fitness < r[k].fitness
    ensures SortedByFitness(r[..k] + [x] + r[k..])
  {
  }

  class Genepool {
    var Generation: nat
    var IsGenepoolInitialized: bool
    var IsPopulationEvaluated: bool

    const populationSize: nat
    const mutationRate: real
    const world: World

    var agents: seq<RollerAgent>

    /** An agent of this pool: stepped in this world, with a genome of the
        prefab's size. */
    ghost predicate Member(a: RollerAgent)
      reads a
    {
      && a.Valid()
      && a.world == world
      && a.genomeSize == world.agentGenomeSize
      && a.genome.genes.Length == world.agentGenomeSize
    }

    /** An agent carrying a genome of the prefab's size. */
    ghost predicate HasGenome(a: RollerAgent)
      reads a
    {
      a.genome != null && a.genome.genes.Length == world.agentGenomeSize
    }

    /** The agents' evaluation states, in list order. */
    ghost function States(): (s: seq<AgentState>)
      reads this, agents
      ensures |s| == |agents|
    {
      seq(|agents|, i requires 0 <= i < |agents| reads this, agents => agents[i].State())
    }

    /** The pool's invariant. `IsPopulationEvaluated` is deliberately not tied
        to the agents: `InitGenepool` leaves it as it was. It is only ever set
        on an initialised pool. */
    ghost predicate Valid()
      reads this, agents
    {
      && world.agentGenomeSize > 0
      && (!IsGenepoolInitialized ==> !IsPopulationEvaluated)
      && (IsGenepoolInitialized ==> |agents| == populationSize)
      && (!IsGenepoolInitialized ==> agents == [])
      && Distinct(agents)
      && forall i :: 0 <= i < |agents| ==> Member(agents[i])
    }

    constructor(populationSize: nat, mutationRate: real, world: World)
      requires world.agentGenomeSize > 0
      ensures Valid()
      ensures this.populationSize == populationSize && this.mutationRate == mutationRate && this.world == world
      ensures Generation == 0 && !IsGenepoolInitialized && !IsPopulationEvaluated && agents == []
    {
      this.populationSize := populationSize;
      this.mutationRate := mutationRate;
      this.world := world;
      Generation := 0;
      IsGenepoolInitialized, IsPopulationEvaluated := false, false;
      agents := [];
    }

    /** Replaces the population with `populationSize` fresh agents of random
        genomes and restarts the generation count. */
    method InitGenepool(draws: seq<seq<Planar>>)
      requires Valid()
      requires |draws| >= populationSize
      requires forall i :: 0 <= i < populationSize ==> |draws[i]| >= world.agentGenomeSize
      modifies this, world`log
      ensures Valid()
      ensures IsGenepoolInitialized && Generation == 0
      ensures IsPopulationEvaluated == old(IsPopulationEvaluated)
      ensures |agents| == populationSize
      ensures forall i :: 0 <= i < |agents| ==>
        && fresh(agents[i]) && agents[i].Unstarted()
        && fresh(agents[i].genome)
        && agents[i].genome.Genes() == RandomGenes(draws[i][..world.agentGenomeSize])
      ensures world.log == old(world.log) + [Event.InitGenepool, StartPopulation]
    {
      ClearAgents();

      Spawn(seq(populationSize, _ => null), draws);
      Generation := 0;
      IsGenepoolInitialized := true;

      world.OnInitGenepool();
      world.OnStartPopulation();
    }

    /** Fills the empty population with one new agent per entry of
        `genomes`, in order: seeded with that genome, or with a fresh random
        genome drawn from `draws[i]` where the entry is null. */
    method Spawn(genomes: seq<RollerGenome?>, draws: seq<seq<Planar>>)
      requires agents == []
      requires forall i :: 0 <= i < |genomes| ==>
        if genomes[i] == null then i < |draws| && |draws[i]| >= world.agentGenomeSize
        else genomes[i].genes.Length == world.agentGenomeSize
      requires world.agentGenomeSize > 0
      modifies this`agents
      ensures |agents| == |genomes| && Distinct(agents)
      ensures forall i :: 0 <= i < |agents| ==> Member(agents[i]) && fresh(agents[i]) && agents[i].Unstarted()
      ensures forall i :: 0 <= i < |agents| && genomes[i] != null ==> agents[i].genome == genomes[i]
      ensures forall i :: 0 <= i < |agents| && genomes[i] == null ==>
        && fresh(agents[i].genome)
        && agents[i].genome.Genes() == RandomGenes(draws[i][..world.agentGenomeSize])
    {
      for i := 0 to |genomes|
        invariant |agents| == i && Distinct(agents)
        invariant forall k :: 0 <= k < i ==> Member(agents[k]) && fresh(agents[k]) && agents[k].Unstarted()
        invariant forall k :: 0 <= k < i && genomes[k] != null ==> agents[k].genome == genomes[k]
        invariant forall k :: 0 <= k < i && genomes[k] == null ==>
          && fresh(agents[k].genome)
          && agents[k].genome.Genes() == RandomGenes(draws[k][..world.agentGenomeSize])
      {
        var agent := world.CreateAgent(genomes[i], if genomes[i] == null then draws[i] else []);
        agents := agents + [agent];
      }
    }

    /** The second half of `IterateGeneration`: replaces the population by
        one new agent per genome, the elite genome first and then the
        children in order, advances the generation and starts it. */
    method StartGeneration(elite: RollerGenome, children: seq<RollerGenome>)
      requires world.agentGenomeSize > 0
      requires elite.genes.Length == world.agentGenomeSize
      requires forall k :: 0 <= k < |children| ==> children[k].genes.Length == world.agentGenomeSize
      modifies this`agents, this`Generation, this`IsPopulationEvaluated, world`log
      ensures Generation == old(Generation) + 1 && !IsPopulationEvaluated
      ensures world.log == old(world.log) + [StartPopulation]
      ensures |agents| == |children| + 1 && Distinct(agents)
      ensures forall i :: 0 <= i < |agents| ==> Member(agents[i]) && fresh(agents[i]) && agents[i].Unstarted()
      ensures agents[0].genome == elite
      ensures forall i :: 1 <= i < |agents| ==> agents[i].genome == children[i - 1]
    {
      ClearAgents();
      var nextGenomes := [elite] + children;
      Spawn(nextGenomes, []);
      forall i | 1 <= i < |agents|
        ensures agents[i].genome == children[i - 1]
      {
        assert nextGenomes[i] == children[i - 1];
      }
      Generation := Generation + 1;
      IsPopulationEvaluated := false;

      world.OnStartPopulation();
    }

    /** One evaluation tick: steps every agent once, in list order, each with
        its own physics reading, records whether all have finished, and lets
        the world step the physics scene. */
    method EvaluatePopulation(obs: seq<Observation>)
      requires Valid()
      requires |obs| == |agents|
      modifies this`IsPopulationEvaluated, world`log, agents`hasEvaluated, agents`fitness,
        agents`genomeIndex, agents`appliedForces, agents`isKinematic
      ensures Valid()
      ensures old(!IsGenepoolInitialized || IsPopulationEvaluated) ==>
        unchanged(this, world) && unchanged(agents)
      ensures old(IsGenepoolInitialized && !IsPopulationEvaluated) ==>
        && (forall i :: 0 <= i < |agents| ==>
              && agents[i].State() == Step(old(agents[i].State()), world.agentGenomeSize, obs[i])
              && agents[i].appliedForces == old(agents[i].appliedForces) + old(agents[i].NextForces()))
        && (IsPopulationEvaluated <==> forall i :: 0 <= i < |agents| ==> agents[i].hasEvaluated)
        && world.log == old(world.log) + TickTrace(agents)
    {
      if !IsGenepoolInitialized {
        return;
      }
      if IsPopulationEvaluated {
        return;
      }
      Tick(obs);
    }

    /** The body of `EvaluatePopulation` once its guards have passed. */
    method Tick(obs: seq<Observation>)
      requires Valid() && IsGenepoolInitialized
      requires |obs| == |agents|
      modifies this`IsPopulationEvaluated, world`log, agents`hasEvaluated, agents`fitness,
        agents`genomeIndex, agents`appliedForces, agents`isKinematic
      ensures Valid()
      ensures forall i :: 0 <= i < |agents| ==>
        && agents[i].State() == Step(old(agents[i].State()), world.agentGenomeSize, obs[i])
        && agents[i].appliedForces == old(agents[i].appliedForces) + old(agents[i].NextForces())
      ensures IsPopulationEvaluated <==> forall i :: 0 <= i < |agents| ==> agents[i].hasEvaluated
      ensures world.log == old(world.log) + TickTrace(agents)
    {
      TickTraceAppend(world.log, agents);
      world.OnPreEvaluateGeneration();
      forall i | 0 <= i < |agents|
        ensures agents[i].State() == old(agents[i].State())
        ensures agents[i].appliedForces == old(agents[i].appliedForces)
        ensures agents[i].NextForces() == old(agents[i].NextForces())
      {
        assert unchanged(agents[i]);
      }
      var allEvaluated := StepAgents(obs);
      IsPopulationEvaluated := allEvaluated;
      label AllStepped:
      world.OnPostEvaluateGeneration();
      forall i | 0 <= i < |agents|
        ensures agents[i].State() == old@AllStepped(agents[i].State())
        ensures agents[i].appliedForces == old@AllStepped(agents[i].appliedForces)
        ensures agents[i].hasEvaluated == old@AllStepped(agents[i].hasEvaluated)
      {
        assert unchanged@AllStepped(agents[i]);
      }
    }

    /** Steps every agent once, in list order, and reports whether all of
        them have finished. */
    method StepAgents(obs: seq<Observation>) returns (allEvaluated: bool)
      requires Valid()
      requires |obs| == |agents|
      modifies agents`hasEvaluated, agents`fitness, agents`genomeIndex, agents`appliedForces, agents`isKinematic,
        world`log
      ensures Valid()
      ensures world.log == old(world.log) + StepTrace(agents, |agents|)
      ensures forall i :: 0 <= i < |agents| ==>
        && agents[i].State() == Step(old(agents[i].State()), world.agentGenomeSize, obs[i])
        && agents[i].appliedForces == old(agents[i].appliedForces) + old(agents[i].NextForces())
      ensures allEvaluated <==> forall i :: 0 <= i < |agents| ==> agents[i].hasEvaluated
    {
      allEvaluated := true;
      for i := 0 to |agents|
        invariant Distinct(agents)
        invariant forall k :: 0 <= k < |agents| ==> Member(agents[k])
        invariant forall k :: i <= k < |agents| ==>
          agents[k].State() == old(agents[k].State()) && agents[k].appliedForces == old(agents[k].appliedForces)
        invariant forall k :: 0 <= k < i ==>
          && agents[k].State() == Step(old(agents[k].State()), world.agentGenomeSize, obs[k])
          && agents[k].appliedForces == old(agents[k].appliedForces) + old(agents[k].NextForces())
        invariant allEvaluated <==> forall k :: 0 <= k < i ==> agents[k].hasEvaluated
        invariant world.log == old(world.log) + StepTrace(agents, i)
      {
        StepTraceAppend(old(world.log), agents, i);
        StepAgent(i, obs[i]);
        if !agents[i].HasEvaluated() {
          allEvaluated := false;
        }
      }
    }

    /** Steps the agent at index `i` of the population, and no other. */
    method StepAgent(i: nat, obs: Observation)
      requires i < |agents| && Distinct(agents)
      requires forall k :: 0 <= k < |agents| ==> Member(agents[k])
      requires Member(agents[i])
      modifies {agents[i]}`hasEvaluated, {agents[i]}`fitness, {agents[i]}`genomeIndex,
        {agents[i]}`appliedForces, {agents[i]}`isKinematic, world`log
      ensures forall k :: 0 <= k < |agents| ==> Member(agents[k])
      ensures world.log == old(world.log) + [Stepped(agents[i])]
      ensures agents[i].State() == Step(old(agents[i].State()), world.agentGenomeSize, obs)
      ensures agents[i].appliedForces == old(agents[i].appliedForces) + old(agents[i].NextForces())
      ensures forall k :: 0 <= k < |agents| && k != i ==>
        agents[k].State() == old(agents[k].State()) && agents[k].appliedForces == old(agents[k].appliedForces)
    {
      agents[i].StepEvaluation(obs);
      forall k | 0 <= k < |agents| && k != i
        ensures agents[k].State() == old(agents[k].State())
        ensures agents[k].appliedForces == old(agents[k].appliedForces)
      {
        assert agents[k] != agents[i];
      }
    }

    /** Quick-evaluate: ticks until the population is evaluated. The source
        loop has no bound; for roller agents it stops within
        `agentGenomeSize` ticks once the pool is initialised, so one reading
        per agent for that many ticks is supplied. `n` is the number of ticks
        run: none when the population was already evaluated, and otherwise
        the first tick count after which every agent has finished. */
    method QuickEvaluate(ticks: seq<seq<Observation>>) returns (ghost n: nat)
      requires Valid() && IsGenepoolInitialized
      requires |ticks| >= world.agentGenomeSize
      requires Readings(ticks, |agents|)
      modifies this`IsPopulationEvaluated, world`log, agents`hasEvaluated, agents`fitness,
        agents`genomeIndex, agents`appliedForces, agents`isKinematic
      ensures Valid() && IsPopulationEvaluated && IsGenepoolInitialized
      ensures agents == old(agents) && Generation == old(Generation)
      ensures old(IsPopulationEvaluated) ==> n == 0 && unchanged(this, world) && unchanged(agents)
      ensures !old(IsPopulationEvaluated) ==> 1 <= n <= world.agentGenomeSize && AllEvaluated(States())
      ensures States() == RunTicks(old(States()), world.agentGenomeSize, ticks[..n])
      ensures forall m :: 1 <= m < n ==> !AllEvaluated(RunTicks(old(States()), world.agentGenomeSize, ticks[..m]))
      ensures world.log == old(world.log) + TickLog(agents, n)
    {
      if IsPopulationEvaluated {
        return 0;
      }
      ghost var start := States();
      assert forall i :: 0 <= i < |start| ==> InRange(start[i], world.agentGenomeSize) by {
        forall i | 0 <= i < |start| ensures InRange(start[i], world.agentGenomeSize) {
          assert Member(agents[i]);
        }
      }
      n := TickUntilEvaluated(ticks, start, old(world.log));
      UnfinishedBeforeAll(start, world.agentGenomeSize, ticks, n);
    }

    /** The loop of `QuickEvaluate`: ticks a pool not yet evaluated until
        it is, which takes at least one and at most `agentGenomeSize`
        ticks. */
    method TickUntilEvaluated(ticks: seq<seq<Observation>>, ghost start: seq<AgentState>, ghost log: seq<Event>)
      returns (ghost n: nat)
      requires Ticked(ticks, 0, start, log) && !IsPopulationEvaluated
      requires world.agentGenomeSize <= |ticks|
      requires forall i :: 0 <= i < |start| ==> InRange(start[i], world.agentGenomeSize)
      modifies this`IsPopulationEvaluated, world`log, agents`hasEvaluated, agents`fitness,
        agents`genomeIndex, agents`appliedForces, agents`isKinematic
      ensures Ticked(ticks, n, start, log) && IsPopulationEvaluated
      ensures 1 <= n <= world.agentGenomeSize
    {
      var t := 0;
      while !IsPopulationEvaluated
        // compared with `true`, `Ticked` is checked whole rather than conjunct by conjunct
        invariant Ticked(ticks, t, start, log) == true
        invariant t <= world.agentGenomeSize
        invariant !IsPopulationEvaluated ==> t < world.agentGenomeSize
        invariant t == 0 ==> !IsPopulationEvaluated
        decreases world.agentGenomeSize - t
      {
        QuickEvaluateStep(ticks, t, start, log);
        t := t + 1;
      }
      n := t;
    }

    /** The pool after `t` ticks of `QuickEvaluate` from agents in the
        states `start` and a world whose log was `log`: the agents' states
        are those `t` ticks give, no earlier tick count had finished them
        all, the flag tells whether they all have finished now, and the log
        holds one trace per tick. */
    ghost predicate Ticked(ticks: seq<seq<Observation>>, t: nat, start: seq<AgentState>, log: seq<Event>)
      reads this, agents, world
    {
      && Valid() && IsGenepoolInitialized
      && Readings(ticks, |agents|) && t <= |ticks| && |start| == |agents|
      && States() == RunTicks(start, world.agentGenomeSize, ticks[..t])
      && UnfinishedBefore(start, world.agentGenomeSize, ticks, t)
      && (t > 0 ==> (IsPopulationEvaluated <==> AllEvaluated(States())))
      && world.log == log + TickLog(agents, t)
    }

    /** Tick `t` of `QuickEvaluate`, on a pool not yet evaluated. */
    method QuickEvaluateStep(ticks: seq<seq<Observation>>, t: nat, ghost start: seq<AgentState>, ghost log: seq<Event>)
      // `== true`: checked whole at the call, as the loop invariant is
      requires Ticked(ticks, t, start, log) == true && !IsPopulationEvaluated
      requires t < world.agentGenomeSize <= |ticks|
      requires forall i :: 0 <= i < |start| ==> InRange(start[i], world.agentGenomeSize)
      modifies this`IsPopulationEvaluated, world`log, agents`hasEvaluated, agents`fitness,
        agents`genomeIndex, agents`appliedForces, agents`isKinematic
      ensures Ticked(ticks, t + 1, start, log)
      ensures !IsPopulationEvaluated ==> t + 1 < world.agentGenomeSize
    {
      RunTicksAppend(start, world.agentGenomeSize, ticks, t);
      TickLogAppend(log, agents, t);
      label Before:
      EvaluatePopulation(ticks[t]);
      forall i | 0 <= i < |agents| ensures States()[i] == TickAll(old@Before(States()), world.agentGenomeSize, ticks[t])[i] {
        assert States()[i] == agents[i].State();
      }
      if t + 1 == world.agentGenomeSize {
        PopulationEvaluatedWithin(start, world.agentGenomeSize, ticks[..t + 1]);
      }
    }

    /** Breeds the next generation from an evaluated population: the fittest
        genome carried forward unchanged, then `populationSize - 1` children,
        each the mutated crossover of two tournament winners. */
    method IterateGeneration(picks: seq<seq<nat>>, breeding: seq<Breeding>)
      returns (ghost ranked: seq<RollerAgent>, ghost parents: seq<RollerAgent>)
      requires Valid()
      requires IsGenepoolInitialized && IsPopulationEvaluated ==>
        && populationSize >= 1
        && TournamentDraws(picks, 2 * (populationSize - 1), populationSize)
        && BreedingDraws(breeding, populationSize - 1, world.agentGenomeSize)
      modifies this, world`log
      ensures Valid()
      ensures old(!IsGenepoolInitialized || !IsPopulationEvaluated) ==> unchanged(this, world)
      ensures old(IsGenepoolInitialized && IsPopulationEvaluated) ==>
        && Generation == old(Generation) + 1
        && IsGenepoolInitialized && !IsPopulationEvaluated
        && |agents| == populationSize
        && world.log == old(world.log) + [StartPopulation]
        && (forall a :: a in agents ==> fresh(a) && a.Unstarted())
        // the agents ranked by their fitness, the elite last
        && multiset(ranked) == multiset(old(agents)) && |ranked| == populationSize
        && old(allocated(ranked))
        && old(SortedByFitness(ranked))
        && old(forall a :: a in agents ==> a.fitness <= ranked[|ranked| - 1].fitness)
        && agents[0].genome == ranked[|ranked| - 1].genome
        // the parents, each the winner of its own tournament over the ranking
        && |parents| == 2 * (populationSize - 1)
        && (forall a :: a in parents ==> a in old(agents))
        && old(allocated(parents))
        && old(forall i :: 0 <= i < |parents| ==> WinsTournament(ranked, picks[i], TournamentSize, parents[i]))
        && old(forall i :: 0 <= i < |parents| ==> HasGenome(parents[i]))
        // the children, fresh genomes bred from consecutive pairs of parents
        && (forall i :: 1 <= i < populationSize ==>
              && fresh(agents[i].genome)
              && agents[i].genome.Genes() == Offspring(parents[2 * i - 2].genome.Genes(),
                                                       parents[2 * i - 1].genome.Genes(),
                                                       breeding[i - 1], mutationRate))
    {
      ranked, parents := [], [];
      if !IsGenepoolInitialized {
        return;
      }
      if !IsPopulationEvaluated {
        return;
      }
      var childCount := populationSize - 1;
      var elite, selected;
      ranked, elite, selected := RankAndSelect(childCount * 2, picks);
      parents := selected;

      var children := Breed(selected, childCount, breeding);
      StartGeneration(elite.GetGenome(), children);
    }

    /** The first half of `IterateGeneration`: sorts the population by
        fitness, the fittest last, and draws `count` parents, each the winner
        of a tournament of three over the sorted population. */
    method RankAndSelect(count: nat, picks: seq<seq<nat>>)
      returns (ghost ranked: seq<RollerAgent>, elite: RollerAgent, selected: seq<RollerAgent>)
      requires Valid() && |agents| >= 1
      requires TournamentDraws(picks, count, |agents|)
      modifies this`agents
      ensures agents == ranked && |ranked| == |old(agents)| && elite == ranked[|ranked| - 1]
      ensures multiset(ranked) == multiset(old(agents))
      ensures |selected| == count && forall a :: a in selected ==> a in old(agents)
      ensures old(allocated(ranked)) && old(allocated(selected))
      ensures old(SortedByFitness(ranked))
      ensures old(forall a :: a in agents ==> a.fitness <= elite.fitness)
      ensures old(forall i :: 0 <= i < count ==> WinsTournament(ranked, picks[i], TournamentSize, selected[i]))
      ensures HasGenome(elite) && forall i :: 0 <= i < count ==> HasGenome(selected[i])
      ensures old(forall i :: 0 <= i < count ==> HasGenome(selected[i]))
    {
      var sorted := SortByFitness(agents);
      elite := sorted[|sorted| - 1];
      assert elite in agents;
      selected := SelectTournament(sorted, TournamentSize, count, picks);
      forall i | 0 <= i < count
        ensures selected[i] in old(agents) && HasGenome(selected[i])
      {
        assert selected[i] in sorted;
      }
      ranked := sorted;
      agents := sorted;
    }

    /** The genomes bred from `parents` taken in consecutive pairs: each the
        crossover of a pair's genomes, then mutated. Every child is a fresh
        genome; no parent genome is touched. */
    method Breed(parents: seq<RollerAgent>, childCount: nat, breeding: seq<Breeding>)
      returns (children: seq<RollerGenome>)
      requires world.agentGenomeSize > 0 && |parents| >= 2 * childCount
      requires forall i :: 0 <= i < |parents| ==> HasGenome(parents[i])
      requires BreedingDraws(breeding, childCount, world.agentGenomeSize)
      ensures forall i :: 0 <= i < |parents| ==> HasGenome(parents[i])
      ensures |children| == childCount
      ensures forall k :: 0 <= k < childCount ==>
        && fresh(children[k]) && fresh(children[k].genes)
        && children[k].genes.Length == world.agentGenomeSize
        && HasGenome(parents[2 * k]) && HasGenome(parents[2 * k + 1])
        && children[k].Genes() == Offspring(parents[2 * k].genome.Genes(),
                                            parents[2 * k + 1].genome.Genes(),
                                            breeding[k], mutationRate)
    {
      children := [];
      for i := 0 to childCount
        invariant forall k :: 0 <= k < |parents| ==> HasGenome(parents[k])
        invariant |children| == i
        invariant forall k :: 0 <= k < i ==>
          && fresh(children[k]) && fresh(children[k].genes)
          && children[k].genes.Length == world.agentGenomeSize
          && HasGenome(parents[2 * k]) && HasGenome(parents[2 * k + 1])
          && children[k].Genes() == Offspring(parents[2 * k].genome.Genes(),
                                              parents[2 * k + 1].genome.Genes(),
                                              breeding[k], mutationRate)
      {
        var parent1 := parents[i * 2 + 0].GetGenome();
        var parent2 := parents[i * 2 + 1].GetGenome();
        var childGenome := parent1.Crossover(parent2, breeding[i].coins);
        childGenome.Mutate(mutationRate, breeding[i].mutation);
        children := children + [childGenome];
      }
    }

    /** One frame of the control panel: evaluate (one tick, or until done in
        quick mode), then breed the next generation if asked and the
        population is evaluated. `n` is the number of ticks run, after which
        the pool was `evaluated` or not, and `bred` tells whether a new
        generation was bred. */
    method Update(toEvaluate: bool, toQuickEvaluate: bool, toIterate: bool,
                  ticks: seq<seq<Observation>>, picks: seq<seq<nat>>, breeding: seq<Breeding>)
      returns (ghost n: nat, ghost evaluated: bool, ghost bred: bool)
      requires Valid()
      requires Readings(ticks, |agents|)
      requires toEvaluate && !toQuickEvaluate ==> |ticks| >= 1
      requires toEvaluate && toQuickEvaluate ==> IsGenepoolInitialized && |ticks| >= world.agentGenomeSize
      requires toIterate && IsGenepoolInitialized && (IsPopulationEvaluated || toEvaluate) ==>
        && populationSize >= 1
        && TournamentDraws(picks, 2 * (populationSize - 1), populationSize)
        && BreedingDraws(breeding, populationSize - 1, world.agentGenomeSize)
      modifies this, world`log, agents`hasEvaluated, agents`fitness, agents`genomeIndex,
        agents`appliedForces, agents`isKinematic
      ensures Valid()
      ensures !toEvaluate && !toIterate ==> unchanged(this, world) && unchanged(agents)
      // the evaluating half: `n` ticks, after which the pool is `evaluated` or not
      ensures n <= |ticks|
      ensures !toEvaluate ==> n == 0
      ensures toEvaluate && !toQuickEvaluate ==> n == (if old(IsGenepoolInitialized && !IsPopulationEvaluated) then 1 else 0)
      ensures toEvaluate && toQuickEvaluate ==>
        && evaluated
        && (old(IsPopulationEvaluated) ==> n == 0)
        && (!old(IsPopulationEvaluated) ==> 1 <= n <= world.agentGenomeSize)
        && forall m :: 1 <= m < n ==> !AllEvaluated(RunTicks(old(States()), world.agentGenomeSize, ticks[..m]))
      ensures n == 0 ==> evaluated == old(IsPopulationEvaluated)
      ensures n > 0 ==> (evaluated <==> AllEvaluated(RunTicks(old(States()), world.agentGenomeSize, ticks[..n])))
      // the breeding half runs exactly when asked for on an evaluated pool
      ensures bred <==> toIterate && evaluated
      ensures !bred ==>
        && Generation == old(Generation) && agents == old(agents) && IsPopulationEvaluated == evaluated
        && States() == RunTicks(old(States()), world.agentGenomeSize, ticks[..n])
        && world.log == old(world.log) + TickLog(agents, n)
      ensures !bred && n == 0 ==> unchanged(this, world) && unchanged(agents)
      // a single tick, as `EvaluatePopulation`
      ensures toEvaluate && !toQuickEvaluate && !bred ==>
        if old(IsGenepoolInitialized && !IsPopulationEvaluated) then
          && agents == old(agents)
          && (forall i :: 0 <= i < |agents| ==>
                agents[i].State() == Step(old(agents[i].State()), world.agentGenomeSize, ticks[0][i]))
          && (IsPopulationEvaluated <==> AllEvaluated(States()))
          && world.log == old(world.log) + TickTrace(agents)
        else unchanged(this, world) && unchanged(agents)
      // ticking until done, as `QuickEvaluate`
      ensures toEvaluate && toQuickEvaluate && !bred ==>
        && IsPopulationEvaluated && agents == old(agents)
        && n <= world.agentGenomeSize
        && States() == RunTicks(old(States()), world.agentGenomeSize, ticks[..n])
        && world.log == old(world.log) + TickLog(agents, n)
      // breeding, as `IterateGeneration`
      ensures !bred ==> Generation == old(Generation)
      ensures bred ==>
        && toIterate && Generation == old(Generation) + 1 && !IsPopulationEvaluated
        && |agents| == populationSize && (forall a :: a in agents ==> fresh(a) && a.Unstarted())
        && world.log == old(world.log) + TickLog(old(agents), n) + [StartPopulation]
      ensures toIterate ==> !IsPopulationEvaluated
      ensures toIterate && ((toEvaluate && toQuickEvaluate) || old(IsPopulationEvaluated)) ==> bred
    {
      n, evaluated, bred := 0, IsPopulationEvaluated, false;
      if toEvaluate {
        n := Evaluate(toQuickEvaluate, ticks);
        evaluated := IsPopulationEvaluated;
      } else {
        NoTicks(States(), world.agentGenomeSize, ticks, world.log, agents);
      }

      if toIterate && IsPopulationEvaluated {
        ghost var ranked, parents := IterateGeneration(picks, breeding);
        bred := true;
      }
    }

    /** The evaluating half of `Update`: one tick, or ticks until the
        population is evaluated in quick mode. `n` is the number of ticks
        run. */
    method Evaluate(toQuickEvaluate: bool, ticks: seq<seq<Observation>>) returns (ghost n: nat)
      requires Valid()
      requires Readings(ticks, |agents|)
      requires !toQuickEvaluate ==> |ticks| >= 1
      requires toQuickEvaluate ==> IsGenepoolInitialized && |ticks| >= world.agentGenomeSize
      modifies this`IsPopulationEvaluated, world`log, agents`hasEvaluated, agents`fitness,
        agents`genomeIndex, agents`appliedForces, agents`isKinematic
      ensures Valid()
      ensures old(IsPopulationEvaluated) ==> IsPopulationEvaluated
      ensures !toQuickEvaluate ==>
        if old(IsGenepoolInitialized && !IsPopulationEvaluated) then
          && (forall i :: 0 <= i < |agents| ==>
                agents[i].State() == Step(old(agents[i].State()), world.agentGenomeSize, ticks[0][i]))
          && (IsPopulationEvaluated <==> AllEvaluated(States()))
          && world.log == old(world.log) + TickTrace(agents)
        else unchanged(this, world) && unchanged(agents)
      ensures toQuickEvaluate ==>
        && IsPopulationEvaluated
        && (old(IsPopulationEvaluated) ==> n == 0)
        && (!old(IsPopulationEvaluated) ==> 1 <= n <= world.agentGenomeSize)
        && forall m :: 1 <= m < n ==> !AllEvaluated(RunTicks(old(States()), world.agentGenomeSize, ticks[..m]))
      // `n` ticks in either mode
      ensures n <= |ticks|
      ensures !toQuickEvaluate ==> n == (if old(IsGenepoolInitialized && !IsPopulationEvaluated) then 1 else 0)
      ensures n == 0 ==> unchanged(this, world) && unchanged(agents)
      ensures n > 0 ==> (IsPopulationEvaluated <==> AllEvaluated(States()))
      ensures States() == RunTicks(old(States()), world.agentGenomeSize, ticks[..n])
      ensures world.log == old(world.log) + TickLog(agents, n)
    {
      if toQuickEvaluate {
        n := QuickEvaluate(ticks);
      } else if IsGenepoolInitialized && !IsPopulationEvaluated {
        n := 1;
        OneTick(States(), world.agentGenomeSize, ticks, world.log, agents);
        label Before:
        EvaluatePopulation(ticks[0]);
        forall i | 0 <= i < |agents| ensures States()[i] == TickAll(old@Before(States()), world.agentGenomeSize, ticks[0])[i] {
          assert States()[i] == agents[i].State();
        }
      } else {
        n := 0;
        NoTicks(States(), world.agentGenomeSize, ticks, world.log, agents);
        EvaluatePopulation(ticks[0]);
      }
    }

    /** Discards the current population. */
    method ClearAgents()
      modifies this`agents
      ensures agents == []
    {
      agents := [];
    }

    /** Draws `count` agents, each the fittest of `tournamentSize` agents
        sampled from `agents` with replacement. */
    static method SelectTournament(agents: seq<RollerAgent>, tournamentSize: nat, count: nat, picks: seq<seq<nat>>)
      returns (selected: seq<RollerAgent>)
      requires count > 0 ==> tournamentSize > 0
      requires |picks| >= count
      requires forall i :: 0 <= i < count ==>
        |picks[i]| >= tournamentSize && forall j :: 0 <= j < tournamentSize ==> picks[i][j] < |agents|
      ensures |selected| == count
      ensures forall i :: 0 <= i < count ==> selected[i] in agents
      ensures forall i :: 0 <= i < count ==> WinsTournament(agents, picks[i], tournamentSize, selected[i])
    {
      selected := [];
      for i := 0 to count
        invariant |selected| == i
        invariant forall k :: 0 <= k < i ==> selected[k] in agents
        invariant forall k :: 0 <= k < i ==> WinsTournament(agents, picks[k], tournamentSize, selected[k])
      {
        var tournament: seq<RollerAgent> := [];
        for j := 0 to tournamentSize
          invariant |tournament| == j
          invariant forall m :: 0 <= m < j ==> tournament[m] == agents[picks[i][m]]
        {
          tournament := tournament + [agents[picks[i][j]]];
        }
        var ranking := SortByFitness(tournament);
        var winner := ranking[|ranking| - 1];
        assert winner in tournament;
        forall m | 0 <= m < tournamentSize
          ensures agents[picks[i][m]].fitness <= winner.fitness
        {
          assert tournament[m] in tournament;
        }
        selected := selected + [winner];
      }
    }
  }
}
