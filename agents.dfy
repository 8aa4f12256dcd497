/** The roller agent and the world it acts in.

    `StepEvaluation` is a counter-driven state machine: each effective step
    applies the gene at `genomeIndex`, scaled by the agent's force, to its
    rigidbody, advances the index by one, and finishes the evaluation when
    the target is reached or the genome is exhausted. The physics is not
    modelled: whether the target has been reached and the agent's speed at
    that moment are an `Observation` supplied per step, and the rigidbody is
    reduced to the forces applied to it and its kinematic flag.

    The world is the collaborator the genepool notifies; the hooks it
    receives are recorded, in order, in its `log`. */
module Agents {
  import opened Genomes

  /** What the physics scene reports to an agent during one step. */
  datatype Observation = Observation(targetReached: bool, speed: real)

  /** The evaluation fields of a roller agent. */
  datatype AgentState = AgentState(hasEvaluated: bool, fitness: real, genomeIndex: int)

  /** The state of a newly instantiated agent. */
  const Unevaluated := AgentState(false, 0.0, 0)

  /** What the world sees, in call order: the genepool's hooks, and each
      `StepEvaluation` of an agent living in it, naming the agent (whose
      force the next physics step acts on). */
  datatype Event =
    | InitGenepool
    | StartPopulation
    | PreEvaluateGeneration
    | Stepped(agent: RollerAgent)   // `agent`, of this world, was stepped
    | PostEvaluateGeneration   // steps the physics scene once

  /** `direction * force`. */
  function Scale(direction: Vec3, force: real): Vec3
  {
    Vec3(direction.x * force, direction.y * force, direction.z * force)
  }

  /** The evaluation invariant: the index never runs past the genome size,
      and an unfinished agent still has a gene to read. */
  predicate InRange(s: AgentState, genomeSize: int)
  {
    0 <= s.genomeIndex <= genomeSize && (!s.hasEvaluated ==> s.genomeIndex < genomeSize)
  }

  /** One `StepEvaluation` on the evaluation fields. It does nothing once
      evaluated, and otherwise advances the index by exactly one; it keeps
      the invariant; an exhausted genome fixes the fitness at 1/genomeSize
      even when the target was reached in the same step; before that, the
      agent finishes exactly when the target is reached. */
  function Step(s: AgentState, genomeSize: int, obs: Observation): (r: AgentState)
    requires genomeSize > 0
    ensures s.hasEvaluated ==> r == s
    ensures !s.hasEvaluated ==> r.genomeIndex == s.genomeIndex + 1
    ensures InRange(s, genomeSize) ==> InRange(r, genomeSize)
    ensures !s.hasEvaluated && s.genomeIndex + 1 >= genomeSize ==>
      r == AgentState(true, 1.0 / genomeSize as real, s.genomeIndex + 1)
    ensures !s.hasEvaluated && s.genomeIndex + 1 < genomeSize ==>
      && (r.hasEvaluated <==> obs.targetReached)
      && r.fitness == (if obs.targetReached then obs.speed else s.fitness)
  {
    if s.hasEvaluated then s
    else
      var index := s.genomeIndex + 1;
      if index >= genomeSize then AgentState(true, 1.0 / genomeSize as real, index)
      else if obs.targetReached then AgentState(true, obs.speed, index)
      else AgentState(false, s.fitness, index)
  }

  /** The state after one step per observation, in order: the invariant is
      kept, and the index advances by at most one per step. */
  function Steps(s: AgentState, genomeSize: int, obs: seq<Observation>): (r: AgentState)
    requires genomeSize > 0
    ensures InRange(s, genomeSize) ==> InRange(r, genomeSize)
    ensures s.genomeIndex <= r.genomeIndex <= s.genomeIndex + |obs|
    decreases |obs|
  {
    if obs == [] then s else Steps(Step(s, genomeSize, obs[0]), genomeSize, obs[1..])
  }

  /** One more observation is one more step after the others. */
  lemma {:induction false} StepsAppend(s: AgentState, genomeSize: int, obs: seq<Observation>, o: Observation)
    requires genomeSize > 0
    ensures Steps(s, genomeSize, obs + [o]) == Step(Steps(s, genomeSize, obs), genomeSize, o)
    decreases |obs|
  {
    if obs == [] {
      assert Steps(s, genomeSize, [o]) == Steps(Step(s, genomeSize, o), genomeSize, []);
    } else {
      assert (obs + [o])[1..] == obs[1..] + [o];
      StepsAppend(Step(s, genomeSize, obs[0]), genomeSize, obs[1..], o);
    }
  }

  /** A fresh agent (indeed any agent within the invariant) has finished
      after at most `genomeSize - genomeIndex` steps, whatever the physics
      reports; after that, further steps change nothing. */
  lemma {:induction false} EvaluatedWithin(s: AgentState, genomeSize: int, obs: seq<Observation>)
    requires genomeSize > 0 && InRange(s, genomeSize)
    requires |obs| >= genomeSize - s.genomeIndex
    ensures Steps(s, genomeSize, obs).hasEvaluated
    ensures InRange(Steps(s, genomeSize, obs), genomeSize)
    decreases |obs|
  {
    if s.hasEvaluated {
      StaysEvaluated(s, genomeSize, obs);
    } else {
      EvaluatedWithin(Step(s, genomeSize, obs[0]), genomeSize, obs[1..]);
    }
  }

  /** Once evaluated, an agent stays as it is. */
  lemma {:induction false} StaysEvaluated(s: AgentState, genomeSize: int, obs: seq<Observation>)
    requires genomeSize > 0 && s.hasEvaluated
    ensures Steps(s, genomeSize, obs) == s
    decreases |obs|
  {
    if obs != [] {
      StaysEvaluated(s, genomeSize, obs[1..]);
    }
  }

  class World {
    /** The genome size and force of the agent prefab this world
        instantiates (400 and 10 by default). */
    const agentGenomeSize: int
    const agentForce: real
    var log: seq<Event>

    constructor(agentGenomeSize: int, agentForce: real)
      ensures this.agentGenomeSize == agentGenomeSize && this.agentForce == agentForce && log == []
    {
      this.agentGenomeSize, this.agentForce := agentGenomeSize, agentForce;
      log := [];
    }

    method OnInitGenepool()
      modifies this`log
      ensures log == old(log) + [InitGenepool]
    {
      log := log + [InitGenepool];
    }

    method OnStartPopulation()
      modifies this`log
      ensures log == old(log) + [StartPopulation]
    {
      log := log + [StartPopulation];
    }

    method OnPreEvaluateGeneration()
      modifies this`log
      ensures log == old(log) + [PreEvaluateGeneration]
    {
      log := log + [PreEvaluateGeneration];
    }

    method OnPostEvaluateGeneration()
      modifies this`log
      ensures log == old(log) + [PostEvaluateGeneration]
    {
      log := log + [PostEvaluateGeneration];
    }

    /** A fresh agent of the prefab, seeded with `genome`, or with a fresh
        random genome (drawn from `draws`) when there is none. */
    method CreateAgent(genome: RollerGenome?, draws: seq<Planar>) returns (agent: RollerAgent)
      requires genome == null ==> agentGenomeSize >= 0 && |draws| >= agentGenomeSize
      ensures fresh(agent)
      ensures agent.world == this && agent.genomeSize == agentGenomeSize && agent.force == agentForce
      ensures agent.Unstarted()
      ensures genome != null ==> agent.genome == genome
      ensures genome == null ==>
        && agent.genome != null && fresh(agent.genome) && fresh(agent.genome.genes)
        && agent.genome.Genes() == RandomGenes(draws[..agentGenomeSize])
    {
      agent := new RollerAgent(agentGenomeSize, agentForce);
      agent.SetGenome(genome, draws);
      agent.SetWorld(this);
    }
  }

  class RollerAgent {
    /** The prefab's genome size and force. */
    const genomeSize: int
    const force: real
    var world: World?
    var genome: RollerGenome?
    var hasEvaluated: bool
    var fitness: real
    var genomeIndex: int
    /** The rigidbody: the forces applied to it, in order, and whether it
        has been frozen. */
    var appliedForces: seq<Vec3>
    var isKinematic: bool

    function State(): AgentState
      reads this
    {
      AgentState(hasEvaluated, fitness, genomeIndex)
    }

    /** A newly instantiated agent: nothing evaluated, no force applied and
        its rigidbody free. */
    ghost predicate Unstarted()
      reads this
    {
      State() == Unevaluated && appliedForces == [] && !isKinematic
    }

    /** An agent that can be stepped: it has a world, a genome with at least
        `genomeSize` genes, a positive genome size, its index in range, and
        its rigidbody frozen once it has finished. */
    ghost predicate Valid()
      reads this
    {
      && world != null && genome != null
      && genomeSize > 0 && genome.genes.Length >= genomeSize
      && InRange(State(), genomeSize)
      && (hasEvaluated ==> isKinematic)
    }

    /** The forces the next `StepEvaluation` hands to the physics scene: the
        gene at the index, unless the evaluation has finished. */
    ghost function NextForces(): seq<Vec3>
      reads this, genome.genes
      requires Valid()
    {
      if hasEvaluated then [] else [Scale(genome.genes[genomeIndex], force)]
    }

    constructor(genomeSize: int, force: real)
      ensures this.genomeSize == genomeSize && this.force == force && world == null && genome == null
      ensures Unstarted()
    {
      this.genomeSize, this.force := genomeSize, force;
      world, genome := null, null;
      hasEvaluated, fitness, genomeIndex := false, 0.0, 0;
      appliedForces, isKinematic := [], false;
    }

    method SetWorld(world: World)
      modifies this`world
      ensures this.world == world
    {
      this.world := world;
    }

    /** Installs `genome` as given, or a fresh random genome of `genomeSize`
        genes when there is none. */
    method SetGenome(genome: RollerGenome?, draws: seq<Planar>)
      requires genome == null ==> genomeSize >= 0 && |draws| >= genomeSize
      modifies this`genome
      ensures genome != null ==> this.genome == genome
      ensures genome == null ==>
        && this.genome != null && fresh(this.genome) && fresh(this.genome.genes)
        && this.genome.Genes() == RandomGenes(draws[..genomeSize])
    {
      if genome == null {
        this.genome := new RollerGenome.Random(genomeSize, draws);
      } else {
        this.genome := genome;
      }
    }

    /** One evaluation step. The world is told of every call, so that its
        log shows the steps between the genepool's hooks. */
    method StepEvaluation(obs: Observation)
      requires Valid()
      modifies this`hasEvaluated, this`fitness, this`genomeIndex, this`appliedForces, this`isKinematic, world`log
      ensures Valid()
      ensures world.log == old(world.log) + [Stepped(this)]
      ensures State() == Step(old(State()), genomeSize, obs)
      ensures appliedForces == old(appliedForces) + old(NextForces())
      ensures isKinematic == (old(isKinematic) || hasEvaluated)
    {
      world.log := world.log + [Stepped(this)];
      if hasEvaluated {
        return;
      }
      var direction := genome.Gene(genomeIndex);
      appliedForces := appliedForces + [Scale(direction, force)];
      genomeIndex := genomeIndex + 1;

      if obs.targetReached {
        fitness := obs.speed;
        isKinematic := true;
        hasEvaluated := true;
      }

      if genomeIndex >= genomeSize {
        fitness := 1.0 / genomeSize as real;
        isKinematic := true;
        hasEvaluated := true;
      }
    }

    function HasEvaluated(): (b: bool)
      reads this
      ensures b == hasEvaluated
    {
      hasEvaluated
    }

    function GetFitness(): (f: real)
      reads this
      ensures f == fitness
    {
      fitness
    }

    function GetGenome(): (g: RollerGenome?)
      reads this
      ensures g == genome
    {
      genome
    }
  }
}
