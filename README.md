# Genepool: a verified model of the evolutionary controller

This project models the core of a Unity experiment in which a population of
"roller" agents learns to roll towards a target. The core has three parts:

- **`Genepool`** (module `Genepools`, `genepool.dfy`). This is the
  generational controller. It is a state machine over `Generation`,
  `IsGenepoolInitialized` and `IsPopulationEvaluated`, and it owns the list of
  agents.
  - `InitGenepool` fills the pool with random agents.
  - `EvaluatePopulation` is one evaluation tick. Every agent steps once, and
    the pool records whether all of them have finished.
  - `IterateGeneration` breeds the next generation. It sorts the agents by
    fitness and keeps the fittest genome unchanged (elitism). It then draws
    `2 * (populationSize - 1)` parents by tournaments of three, with
    replacement. Each consecutive pair of parents is crossed, and each child
    is mutated once. Finally it rebuilds the population and advances the
    generation.
  - `Update` is the per-frame control panel that dispatches to these
    operations. Its quick-evaluate mode keeps ticking until the population
    is evaluated.
- **`RollerGenome`** (module `Genomes`, `genomes.dfy`). A genome is a
  fixed-length array of force directions.
  - Crossover picks each gene from one parent or the other, by a coin flip
    per gene, into a fresh array.
  - Mutation redraws single genes in place.
- **`RollerAgent`** (module `Agents`, `agents.dfy`). An agent is a
  counter-driven evaluation. Each step pushes the agent with the gene at
  `genomeIndex` and advances the index. The agent finishes when it reaches
  the target, or when its genome runs out; in the second case the fitness is
  `1/genomeSize`. The `World` it lives in is reduced to the hooks the
  genepool calls and to `CreateAgent`. The world keeps a log of the hooks in
  the order they fire, with a `Stepped` entry naming the agent for each
  step of one of its agents, so the log shows where in a tick, and in which
  order, the agents are stepped.

Every random draw is an explicit argument:

- a `Planar` stands for the two `Random.Range(-1, 1)` draws of a fresh gene;
- a `bool` coin stands for `Random.value < 0.5`;
- a `MutationDraw` stands for the roll and the replacement gene of one
  mutated position;
- a `nat` pick stands for `Random.Range(0, n)`.

The physics reading of one agent in one tick is an `Observation`: whether
the target has been reached, and the agent's speed. Fitness and gene
components are `real`.

Three facts about the code shape the model:

- `List.Sort` is not a stable sort, so the model promises only a sorted
  permutation: the elite and each tournament winner are *some* agent of
  maximal fitness.
- The genepool notifies one `world` object through its four hooks. There
  is no list of listeners.
- `InitGenepool` leaves `IsPopulationEvaluated` as it was.

## Model

| member | source | states |
|---|---|---|
| Genomes.RandomGenes | Assets/Scripts/Implementation/RollerGenome.cs:16-19 | one gene per draw, each with a zero y-component |
| Genomes.RandomGenesAt | Assets/Scripts/Implementation/RollerGenome.cs:18 | gene `i` of a random genome is built from draw `i` |
| Genomes.RollerGenome.Gene | Assets/Scripts/Implementation/RollerGenome.cs:6 | returns the gene at `index`; it reads only the genes and changes nothing |
| Genomes.RollerGenome.FromGenes | Assets/Scripts/Implementation/RollerGenome.cs:8-11 | the genome wraps the given array itself, without copying it |
| Genomes.RollerGenome.Random | Assets/Scripts/Implementation/RollerGenome.cs:13-20 | a freshly allocated array of exactly `geneCount` genes, each the random gene of its own draw with y-component 0 |
| Genomes.Crossed | Assets/Scripts/Implementation/RollerGenome.cs:27-31 | a child has exactly as many genes as the receiver |
| Genomes.CrossedAt | Assets/Scripts/Implementation/RollerGenome.cs:30 | child gene `i` is the receiver's gene when coin `i` is true, and the other parent's otherwise |
| Genomes.CrossedInherits | Assets/Scripts/Implementation/RollerGenome.cs:28-31 | every child gene equals the receiver's or the other parent's gene at the same position |
| Genomes.SelfCrossIsIdentity | Assets/Scripts/Implementation/RollerGenome.cs:22-34 | crossing a genome with itself (one agent winning both tournaments) gives back that genome, whatever the coins |
| Genomes.RollerGenome.Crossover | Assets/Scripts/Implementation/RollerGenome.cs:22-34 | the child is a fresh genome over a fresh array (no aliasing with either parent) whose genes are the crossover of both parents' genes; it requires the other parent to have at least as many genes; neither parent changes |
| Genomes.Mutated | Assets/Scripts/Implementation/RollerGenome.cs:38-44 | mutation preserves the number of genes |
| Genomes.MutatedAt | Assets/Scripts/Implementation/RollerGenome.cs:40-43 | position `i` holds a fresh horizontal gene when its roll is below the rate, and its old gene otherwise |
| Genomes.MutationIsLocal | Assets/Scripts/Implementation/RollerGenome.cs:38-44 | a position whose roll is not below the rate keeps its gene; a redrawn position lies in the horizontal plane |
| Genomes.NonPositiveRateKeepsGenes | Assets/Scripts/Implementation/RollerGenome.cs:40 | with rolls in [0, 1] and a rate of at most 0, mutation changes nothing |
| Genomes.RateAboveOneRedrawsAll | Assets/Scripts/Implementation/RollerGenome.cs:40-43 | with rolls in [0, 1] and a rate above 1, every gene is redrawn |
| Genomes.RollerGenome.Mutate | Assets/Scripts/Implementation/RollerGenome.cs:36-45 | overwrites the genes array in place with the mutation of its old contents; the array keeps its length and nothing else changes |
| Agents.Step | Assets/Scripts/Implementation/RollerAgent.cs:16-41 | a step does nothing once evaluated; otherwise the index advances by exactly one; the index invariant is kept; an exhausted genome finishes the agent with fitness 1/genomeSize, overriding a target reached in the same step; before that, the agent finishes exactly when the target is reached, and its fitness becomes the speed then |
| Agents.Steps | Assets/Scripts/Implementation/RollerAgent.cs:16-41 | repeated steps, one per reading, keep the index invariant and move the index forward by at most one per step |
| Agents.EvaluatedWithin | Assets/Scripts/Implementation/RollerAgent.cs:23-40 | whatever the physics reports, an agent within the invariant has finished after at most `genomeSize - genomeIndex` steps |
| Agents.StaysEvaluated | Assets/Scripts/Implementation/RollerAgent.cs:18 | once evaluated, any number of further steps leaves the agent's evaluation state unchanged |
| Agents.RollerAgent.constructor | Assets/Scripts/Implementation/RollerAgent.cs:49-61 | a new agent of the prefab's size and force: not evaluated, fitness 0, index 0, no force applied, rigidbody free |
| Agents.RollerAgent.SetWorld | Assets/Scripts/Implementation/RollerAgent.cs:5-8 | installs the world |
| Agents.RollerAgent.SetGenome | Assets/Scripts/Implementation/RollerAgent.cs:10-14 | a null genome installs a fresh random genome of `genomeSize` genes; any other genome is installed as given |
| Agents.RollerAgent.StepEvaluation | Assets/Scripts/Implementation/RollerAgent.cs:16-41 | the evaluation state moves by one `Step`; the world's log records one `Stepped` naming this agent; the force applied is the gene at the old index scaled by `force`, or none once evaluated; the rigidbody is frozen when evaluation finishes; the agent stays valid (the gene index stays in range) |
| Agents.RollerAgent.HasEvaluated | Assets/Scripts/Implementation/RollerAgent.cs:43 | returns the evaluated flag and changes nothing |
| Agents.RollerAgent.GetFitness | Assets/Scripts/Implementation/RollerAgent.cs:45 | returns the fitness and changes nothing |
| Agents.RollerAgent.GetGenome | Assets/Scripts/Implementation/RollerAgent.cs:47 | returns the genome and changes nothing |
| Agents.World.constructor | Assets/Scripts/Implementation/RollerWorld.cs:31-33 | a world for a prefab of the given genome size and force, with no hook received yet |
| Agents.World.OnInitGenepool | Assets/Scripts/Implementation/RollerWorld.cs:8-12 | the hook, which switches physics to scripted stepping, is appended to the world's log |
| Agents.World.OnStartPopulation | Assets/Scripts/Genepool.cs:27-28 | the hook is appended to the world's log |
| Agents.World.OnPreEvaluateGeneration | Assets/Scripts/Genepool.cs:30-31 | the hook is appended to the world's log |
| Agents.World.OnPostEvaluateGeneration | Assets/Scripts/Implementation/RollerWorld.cs:14-18 | the hook, which steps the physics scene, is appended to the world's log |
| Agents.World.CreateAgent | Assets/Scripts/Implementation/RollerWorld.cs:20-29 | a fresh, unstarted agent of the prefab, in this world, with the given genome, or with a fresh random genome when none is given |
| Genepools.Genepool.constructor | Assets/Scripts/Genepool.cs:41-43 | a new pool is at generation 0, uninitialised and unevaluated, with no agents |
| Genepools.Genepool.InitGenepool | Assets/Scripts/Genepool.cs:46-59 | exactly `populationSize` fresh, unstarted agents, each with its own fresh random genome; `Generation` is 0 and the pool is initialised; `IsPopulationEvaluated` is left as it was; the world receives `OnInitGenepool` and then `OnStartPopulation` |
| Genepools.Genepool.Spawn | Assets/Scripts/Genepool.cs:52 | one fresh agent per genome, in order, each seeded with its genome, or with a fresh random one when the entry is null |
| Genepools.Genepool.EvaluatePopulation | Assets/Scripts/Genepool.cs:61-79 | when uninitialised or already evaluated, nothing changes and no hook fires; otherwise every agent steps exactly once with its own reading and receives the force of its current gene, `IsPopulationEvaluated` holds exactly when every agent has finished, and the log gains `OnPreEvaluateGeneration`, one `Stepped` per agent in list order, then `OnPostEvaluateGeneration`, completed or not; only the flag, the log and the agents' evaluation fields, forces and rigidbody may change |
| Genepools.Genepool.Tick | Assets/Scripts/Genepool.cs:66-78 | the effective tick: every agent stepped once between the two hooks, and the flag set to the AND of the agents' evaluated flags |
| Genepools.Genepool.StepAgents | Assets/Scripts/Genepool.cs:69-74 | each agent in the list moves by exactly one step; the log gains one `Stepped` per agent, naming the agents in list order; the result is true exactly when all of them have finished |
| Genepools.Genepool.StepAgent | Assets/Scripts/Genepool.cs:71-72 | the agent at the given index moves by one step, the log gains `Stepped` naming it, and no other agent changes |
| Genepools.TickTraceOrder | Assets/Scripts/Genepool.cs:66-78 | the log of one tick over `n` agents: `OnPreEvaluateGeneration` first, then `Stepped` for each agent in list order, `OnPostEvaluateGeneration` last |
| Genepools.TickAll | Assets/Scripts/Genepool.cs:69-74 | the evaluation states after one tick: each agent's state moved by one `Step` with its own reading |
| Genepools.RunTicksPerAgent | Assets/Scripts/Genepool.cs:135 | after a run of ticks, each agent's state is its own run of `Steps` over its column of readings: agents do not affect one another |
| Genepools.PopulationEvaluatedWithin | Assets/Scripts/Genepool.cs:135 | from agents within the index invariant, `agentGenomeSize` ticks finish every agent, whatever the readings |
| Genepools.Genepool.QuickEvaluate | Assets/Scripts/Genepool.cs:133-136 | on an initialised pool, ticking until the population is evaluated stops within `agentGenomeSize` ticks. An already evaluated pool is left untouched and no tick runs. Otherwise the number of ticks `n` is at least one and is the first tick count after which every agent has finished; the agents' states are those `n` ticks give; the log holds `n` tick traces; the agents and generation are unchanged |
| Genepools.Genepool.TickUntilEvaluated | Assets/Scripts/Genepool.cs:135 | the quick-evaluate loop over a pool not yet evaluated ends evaluated after between 1 and `agentGenomeSize` ticks, each a full tick |
| Genepools.Genepool.QuickEvaluateStep | Assets/Scripts/Genepool.cs:135 | one pass of the quick-evaluate loop adds one tick to the states and the log, keeps the earlier tick counts unfinished, and leaves the pool unevaluated only while fewer than `agentGenomeSize` ticks have run |
| Genepools.Genepool.IterateGeneration | Assets/Scripts/Genepool.cs:81-115 | does nothing unless initialised and evaluated; otherwise `Generation` goes up by exactly 1, the flag is cleared, exactly `populationSize` fresh unstarted agents remain, and `OnStartPopulation` is logged once. The old agents are ranked as a sorted permutation. The first new agent carries, unmutated, the genome of a ranked-last agent, which is at least as fit as every old agent. `2 * (populationSize - 1)` parents are drawn from the old agents, each winning its own tournament. New agent `i` carries a fresh genome: the mutated crossover of parents `2i - 2` and `2i - 1` |
| Genepools.Genepool.RankAndSelect | Assets/Scripts/Genepool.cs:86-96 | the agents are re-ordered into a sorted permutation; the elite is the last of them and at least as fit as any; `count` parents are drawn from the old agents, each the winner of its own tournament of three over the ranking |
| Genepools.Genepool.Breed | Assets/Scripts/Genepool.cs:98-106 | exactly `childCount` children, child `k` a fresh genome whose genes are the crossover of parents `2k` and `2k + 1`, mutated once; no parent genome changes |
| Genepools.Genepool.StartGeneration | Assets/Scripts/Genepool.cs:108-114 | the population is rebuilt as one fresh agent per genome, elite first and then the children in order; `Generation` goes up by 1, the flag is cleared, and `OnStartPopulation` is logged |
| Genepools.Genepool.Update | Assets/Scripts/Genepool.cs:129-144 | with neither flag set nothing changes. The evaluating half runs `n` ticks: none without evaluation, one in single-tick mode on an initialised, unevaluated pool and none otherwise, and in quick mode none on an evaluated pool and otherwise the first tick count, at most `agentGenomeSize`, that finishes every agent. The pool is then `evaluated` exactly when it was before (no tick) or when those ticks finish every agent. Breeding happens exactly when iteration is on and the pool is `evaluated`. Without breeding, the states are those of the `n` ticks, the flag is `evaluated`, the log holds `n` tick traces, and the generation and agents are kept. Breeding advances the generation by one, clears the flag, leaves `populationSize` fresh, unstarted agents, and logs the `n` tick traces then `OnStartPopulation` |
| Genepools.Genepool.Evaluate | Assets/Scripts/Genepool.cs:131-138 | the evaluating half of `Update` runs `n` ticks: one tick with `EvaluatePopulation`'s effect, or none on a pool it skips; in quick mode, `QuickEvaluate`'s none on an evaluated pool and otherwise the first finishing tick count. The states are those of the `n` ticks, the log holds `n` tick traces, nothing changes when `n` is 0, and after a tick the flag tells whether every agent has finished |
| Genepools.Genepool.ClearAgents | Assets/Scripts/Genepool.cs:146-151 | the agent list is empty |
| Genepools.Genepool.SelectTournament | Assets/Scripts/Genepool.cs:153-168 | exactly `count` agents, each an element of the pool that is at least as fit as every one of the `tournamentSize` entries sampled, with replacement, for its own tournament |
| Genepools.SortByFitness | Assets/Scripts/Genepool.cs:87 | `List.Sort` by fitness: a permutation of its input in ascending fitness order, whose last element is at least as fit as any |
| Genepools.InsertByFitness | Assets/Scripts/Genepool.cs:163 | inserting one agent into a fitness-sorted list keeps it sorted and adds exactly that agent |
| Genepools.InsertionSorted | Assets/Scripts/Genepool.cs:163 | placing an agent after every agent no fitter than it keeps a list sorted |
| Genepools.LastIsFittest | Assets/Scripts/Genepool.cs:88-92 | the last agent of a fitness-sorted list is at least as fit as every agent in it |
| Genepools.Offspring | Assets/Scripts/Genepool.cs:101-104 | a child has as many genes as its first parent |
| Genepools.OffspringWithoutMutation | Assets/Scripts/Genepool.cs:99-106 | with a mutation rate of at most 0, every gene of a child equals one of its two parents' genes at that position |

## Left out

- Physics is not modelled. The distance to the target and the rigidbody's
  speed are supplied as an `Observation` per agent per tick. `rb.AddForce` is
  recorded as a list of forces per agent, so the order of forces across
  different agents is not kept. `Physics.simulationMode`, `Physics.Simulate`
  and the target's transform are left out.
- Randomness is not modelled as a distribution. Every `Random.Range` and
  `Random.value` is an argument, and no claim is made about how the draws
  are distributed.
- Genomes.Mutated: a `MutationDraw` always carries a replacement gene. It is
  ignored when the roll is not below the rate, where the source draws none.
- Scene plumbing is not modelled: `Instantiate`, the agent's spawn position,
  `Destroy` of the old agents' game objects in `ClearAgents`, `Debug.Log`,
  and the editor attributes.
- The UI script (`GenepoolUI`) is not part of this model.
- The abstract `Genome`, `Agent` and `World` classes have a single
  implementation each: the roller kinds. There is no dynamic dispatch.
  `CreateAgent`'s type assertion holds by typing.
- Floating point is not modelled. Fitness and gene components are `real`,
  and `1f / genomeSize` is exact division. NaN and the `CompareTo` ordering
  of NaN are left out.
- `Generation` is unbounded, so its 32-bit overflow is not modelled.
  `populationSize` is a `nat`, and `CreateAgent` and `SetGenome` require a
  genome size of at least 0, so negative sizes are not modelled (the
  source throws when it allocates a genes array of negative size).
- The `Stepped` entries of the world's log have no counterpart in the
  source. They only record which agent is stepped, and when, relative to
  the hooks and to the other agents.
- Genepools.SortByFitness: specified only as a sorted permutation. The
  order among agents of equal fitness that `List.Sort` happens to produce
  is not modelled, because it is unspecified.
- Genepools.Genepool.QuickEvaluate: requires an initialised pool and one
  reading per agent for `agentGenomeSize` ticks. The source loop has no
  bound, and on an uninitialised pool it never ends.
- Genepools.Genepool.QuickEvaluate: states the agents' evaluation states
  after the ticks, not the forces they received. The forces of each tick
  are stated by `EvaluatePopulation`, which each tick calls.
- Genepools.Genepool.Update: when it breeds, it states the generation, the
  flag, the fresh population and the log. The elite, the parents and the
  children are stated by `IterateGeneration`, which it calls. It states
  the agents' evaluation states, not the forces they received in its
  ticks; those are stated by `EvaluatePopulation`.
- Agents.RollerAgent.StepEvaluation: requires a valid agent: a world, a
  genome of at least `genomeSize` genes, and `genomeSize > 0`. Otherwise
  the source throws.
- Genepools.Genepool.IterateGeneration: requires `populationSize >= 1` and
  enough draws. With an empty population the source throws on
  `agents[agents.Count - 1]`.
- Genepools.Genepool.IterateGeneration: does not state that the old
  agents' genomes are unchanged. Its frame (it may change only the pool and
  the world's log) already implies this.
