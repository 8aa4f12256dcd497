/** The roller genome: a fixed-length array of planar force directions, with
    per-gene crossover and in-place per-gene mutation.

    Every random draw of the game engine is an argument here (an oracle): a
    `Planar` is the two `Random.Range(-1, 1)` draws that make a fresh gene, a
    `bool` coin is one `Random.value < 0.5` test, and a `MutationDraw` is the
    `Random.value` rolled for one position together with the replacement gene
    drawn when that roll is below the mutation rate. */
module Genomes {

  /** A force direction. The model only copies genes around; it never computes
      on their components. */
  datatype Vec3 = Vec3(x: real, y: real, z: real)

  /** The horizontal components of a freshly drawn gene. */
  datatype Planar = Planar(x: real, z: real)

  /** What `Mutate` draws for one position: the roll compared with the
      mutation rate and the gene that replaces the old one if it is lower. */
  datatype MutationDraw = MutationDraw(roll: real, replacement: Planar)

  /** A freshly drawn gene always lies in the horizontal plane. */
  function RandomGene(p: Planar): Vec3
  {
    Vec3(p.x, 0.0, p.z)
  }

  /** The genes a fresh random genome is filled with, one per draw. */
  function RandomGenes(draws: seq<Planar>): (genes: seq<Vec3>)
    ensures |genes| == |draws|
    ensures forall i :: 0 <= i < |genes| ==> genes[i].y == 0.0
  {
    if draws == [] then [] else [RandomGene(draws[0])] + RandomGenes(draws[1..])
  }

  lemma {:induction false} RandomGenesAt(draws: seq<Planar>, i: nat)
    requires i < |draws|
    ensures RandomGenes(draws)[i] == RandomGene(draws[i])
  {
    if i > 0 {
      RandomGenesAt(draws[1..], i - 1);
    }
  }

  /** The child of a crossover: position by position, the gene of `mine`
      where the coin came up true and the gene of `theirs` otherwise. */
  function Crossed(mine: seq<Vec3>, theirs: seq<Vec3>, coins: seq<bool>): (child: seq<Vec3>)
    requires |theirs| >= |mine| && |coins| >= |mine|
    ensures |child| == |mine|
  {
    if mine == [] then []
    else [if coins[0] then mine[0] else theirs[0]] + Crossed(mine[1..], theirs[1..], coins[1..])
  }

  lemma {:induction false} CrossedAt(mine: seq<Vec3>, theirs: seq<Vec3>, coins: seq<bool>, i: nat)
    requires |theirs| >= |mine| && |coins| >= |mine| && i < |mine|
    ensures Crossed(mine, theirs, coins)[i] == if coins[i] then mine[i] else theirs[i]
  {
    if i > 0 {
      CrossedAt(mine[1..], theirs[1..], coins[1..], i - 1);
    }
  }

  /** Every gene of a child is inherited from one of its two parents. */
  lemma {:induction false} CrossedInherits(mine: seq<Vec3>, theirs: seq<Vec3>, coins: seq<bool>)
    requires |theirs| >= |mine| && |coins| >= |mine|
    ensures forall i :: 0 <= i < |mine| ==>
      Crossed(mine, theirs, coins)[i] == mine[i] || Crossed(mine, theirs, coins)[i] == theirs[i]
  {
    forall i | 0 <= i < |mine|
      ensures Crossed(mine, theirs, coins)[i] == mine[i] || Crossed(mine, theirs, coins)[i] == theirs[i]
    {
      CrossedAt(mine, theirs, coins, i);
    }
  }

  /** Crossing a genome with itself (a tournament may pick the same agent
      twice) gives back that genome, whatever the coins. */
  lemma {:induction false} SelfCrossIsIdentity(genes: seq<Vec3>, coins: seq<bool>)
    requires |coins| >= |genes|
    ensures Crossed(genes, genes, coins) == genes
  {
    if genes != [] {
      SelfCrossIsIdentity(genes[1..], coins[1..]);
    }
  }

  /** The genes after mutation: a position is redrawn exactly when its roll is
      below the mutation rate. */
  function Mutated(genes: seq<Vec3>, mutationRate: real, draws: seq<MutationDraw>): (result: seq<Vec3>)
    requires |draws| >= |genes|
    ensures |result| == |genes|
  {
    if genes == [] then []
    else
      [if draws[0].roll < mutationRate then RandomGene(draws[0].replacement) else genes[0]]
      + Mutated(genes[1..], mutationRate, draws[1..])
  }

  lemma {:induction false} MutatedAt(genes: seq<Vec3>, mutationRate: real, draws: seq<MutationDraw>, i: nat)
    requires |draws| >= |genes| && i < |genes|
    ensures Mutated(genes, mutationRate, draws)[i]
         == if draws[i].roll < mutationRate then RandomGene(draws[i].replacement) else genes[i]
  {
    if i > 0 {
      MutatedAt(genes[1..], mutationRate, draws[1..], i - 1);
    }
  }

  /** A position whose roll is not below the rate keeps its gene; a redrawn
      position holds a gene in the horizontal plane. */
  lemma {:induction false} MutationIsLocal(genes: seq<Vec3>, mutationRate: real, draws: seq<MutationDraw>)
    requires |draws| >= |genes|
    ensures forall i :: 0 <= i < |genes| && draws[i].roll >= mutationRate ==>
      Mutated(genes, mutationRate, draws)[i] == genes[i]
    ensures forall i :: 0 <= i < |genes| && draws[i].roll < mutationRate ==>
      Mutated(genes, mutationRate, draws)[i].y == 0.0
  {
    forall i | 0 <= i < |genes|
      ensures Mutated(genes, mutationRate, draws)[i]
           == if draws[i].roll < mutationRate then RandomGene(draws[i].replacement) else genes[i]
    {
      MutatedAt(genes, mutationRate, draws, i);
    }
  }

  /** `Random.value` lies in [0, 1], so a rate of zero or below never
      mutates anything. */
  lemma {:induction false} NonPositiveRateKeepsGenes(genes: seq<Vec3>, mutationRate: real, draws: seq<MutationDraw>)
    requires |draws| >= |genes| && mutationRate <= 0.0
    requires forall i :: 0 <= i < |draws| ==> 0.0 <= draws[i].roll
    ensures Mutated(genes, mutationRate, draws) == genes
  {
    if genes != [] {
      NonPositiveRateKeepsGenes(genes[1..], mutationRate, draws[1..]);
    }
  }

  /** ... and a rate above one redraws every position. */
  lemma {:induction false} RateAboveOneRedrawsAll(genes: seq<Vec3>, mutationRate: real, draws: seq<MutationDraw>)
    requires |draws| >= |genes| && mutationRate > 1.0
    requires forall i :: 0 <= i < |draws| ==> draws[i].roll <= 1.0
    ensures Mutated(genes, mutationRate, draws) == RandomGenes(ReplacementsOf(draws[..|genes|]))
  {
    if genes != [] {
      RateAboveOneRedrawsAll(genes[1..], mutationRate, draws[1..]);
      var ps := ReplacementsOf(draws[..|genes|]);
      assert ps[1..] == ReplacementsOf(draws[1..][..|genes| - 1]);
      assert RandomGenes(ps) == [RandomGene(ps[0])] + RandomGenes(ps[1..]);
    }
  }

  /** The replacement genes of a run of mutation draws. */
  function ReplacementsOf(draws: seq<MutationDraw>): (ps: seq<Planar>)
    ensures |ps| == |draws|
    ensures forall i :: 0 <= i < |draws| ==> ps[i] == draws[i].replacement
  {
    seq(|draws|, i requires 0 <= i < |draws| => draws[i].replacement)
  }

  /** RollerGenome: the genes array is fixed at construction; `Mutate`
      overwrites its elements in place. */
  class RollerGenome {
    const genes: array<Vec3>

    /** The genes, as a value. */
    ghost function Genes(): (s: seq<Vec3>)
      reads genes
      ensures |s| == genes.Length
    {
      genes[..]
    }

    /** `Gene(index)`: reads one gene and changes nothing. */
    function Gene(index: int): (g: Vec3)
      reads genes
      requires 0 <= index < genes.Length
      ensures g == genes[index]
    {
      genes[index]
    }

    /** Wraps the given array (shared, not copied). */
    constructor FromGenes(genes: array<Vec3>)
      ensures this.genes == genes
    {
      this.genes := genes;
    }

    /** A fresh random genome of `geneCount` genes, each drawn in the
        horizontal plane. */
    constructor Random(geneCount: nat, draws: seq<Planar>)
      requires |draws| >= geneCount
      ensures fresh(genes)
      ensures genes[..] == RandomGenes(draws[..geneCount])
      ensures genes.Length == geneCount && forall i :: 0 <= i < geneCount ==> genes[i].y == 0.0
    {
      var a := new Vec3[geneCount];
      for i := 0 to geneCount
        invariant forall k :: 0 <= k < i ==> a[k] == RandomGene(draws[k])
      {
        a[i] := RandomGene(draws[i]);
      }
      genes := a;
      new;
      forall k | 0 <= k < geneCount
        ensures genes[k] == RandomGenes(draws[..geneCount])[k]
      {
        RandomGenesAt(draws[..geneCount], k);
      }
    }

    /** A child over a freshly allocated array; neither parent changes. */
    method Crossover(other: RollerGenome, coins: seq<bool>) returns (child: RollerGenome)
      requires other.genes.Length >= genes.Length && |coins| >= genes.Length
      ensures fresh(child) && fresh(child.genes)
      ensures child.genes[..] == Crossed(genes[..], other.genes[..], coins)
    {
      var newGenes := new Vec3[genes.Length];
      for i := 0 to genes.Length
        invariant forall k :: 0 <= k < i ==> newGenes[k] == if coins[k] then genes[k] else other.genes[k]
      {
        newGenes[i] := if coins[i] then genes[i] else other.genes[i];
      }
      forall k | 0 <= k < genes.Length
        ensures newGenes[k] == Crossed(genes[..], other.genes[..], coins)[k]
      {
        CrossedAt(genes[..], other.genes[..], coins, k);
      }
      child := new RollerGenome.FromGenes(newGenes);
    }

    /** Redraws, in place, each position whose roll is below the rate. */
    method Mutate(mutationRate: real, draws: seq<MutationDraw>)
      requires |draws| >= genes.Length
      modifies genes
      ensures genes[..] == Mutated(old(genes[..]), mutationRate, draws)
    {
      for i := 0 to genes.Length
        invariant forall k :: 0 <= k < i ==>
          genes[k] == if draws[k].roll < mutationRate then RandomGene(draws[k].replacement) else old(genes[k])
        invariant forall k :: i <= k < genes.Length ==> genes[k] == old(genes[k])
      {
        if draws[i].roll < mutationRate {
          genes[i] := RandomGene(draws[i].replacement);
        }
      }
      forall k | 0 <= k < genes.Length
        ensures genes[k] == Mutated(old(genes[..]), mutationRate, draws)[k]
      {
        MutatedAt(old(genes[..]), mutationRate, draws, k);
      }
    }
  }
}
