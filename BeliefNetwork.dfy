/**
 * The part of the SMILE belief network the hypotheses evaluator touches, as an
 * abstract state: each node has its outcome names, its definition (for the two
 * input nodes, the prior `[p, 1-p]`) and an optional hard-evidence outcome.
 * Inference is a function value `engine` from node states to posteriors
 * ("beliefs"); nothing about it is assumed unless a lemma says so.
 */
module BeliefNetwork {
  import opened Wrappers

  datatype Node = Node(outcomes: seq<string>, definition: seq<real>, evidence: Option<nat>)

  type Nodes = map<string, Node>

  /** The posterior of every node, one probability per outcome. */
  type Beliefs = map<string, seq<real>>

  type Engine = Nodes -> Beliefs

  datatype Network = Network(nodes: Nodes, beliefs: Beliefs)

  const Ellipse := "ellipse"
  const Area := "area"
  const Flat := "flat"
  const Nonflat := "nonflat"

  /** The two input nodes have outcomes HIGH/LOW, the two hypothesis nodes YES/NO. */
  predicate HasEvaluatorNodes(nodes: Nodes)
  {
    && Ellipse in nodes && nodes[Ellipse].outcomes == ["HIGH", "LOW"]
    && Area in nodes && nodes[Area].outcomes == ["HIGH", "LOW"]
    && Flat in nodes && nodes[Flat].outcomes == ["YES", "NO"]
    && Nonflat in nodes && nodes[Nonflat].outcomes == ["YES", "NO"]
  }

  /**
   * An engine that returns, for every node, a probability per outcome, and
   * puts all of a node's mass on its hard-evidence outcome when it has one.
   */
  ghost predicate SoundEngine(engine: Engine)
  {
    forall nodes: Nodes, name: string :: name in nodes ==>
      && name in engine(nodes)
      && |engine(nodes)[name]| == |nodes[name].outcomes|
      && (forall k :: 0 <= k < |engine(nodes)[name]| ==> 0.0 <= engine(nodes)[name][k] <= 1.0)
      && (nodes[name].evidence.Some? && nodes[name].evidence.value < |nodes[name].outcomes| ==>
            engine(nodes)[name][nodes[name].evidence.value] == 1.0)
  }

  /** `UpdateBeliefs`: recompute every posterior from the current node states. */
  function UpdateBeliefs(net: Network, engine: Engine): (r: Network)
    ensures r.nodes == net.nodes
  {
    net.(beliefs := engine(net.nodes))
  }

  /** `Value()->ClearEvidence()` on one node. */
  function ClearEvidence(nodes: Nodes, name: string): (r: Nodes)
    requires name in nodes
    ensures r.Keys == nodes.Keys
    ensures r[name].evidence.None?
    ensures r[name].outcomes == nodes[name].outcomes && r[name].definition == nodes[name].definition
    ensures forall n :: n in nodes && n != name ==> r[n] == nodes[n]
  {
    nodes[name := nodes[name].(evidence := None)]
  }

  /** `Definition()->SetDefinition(probs)` on one node. */
  function SetDefinition(nodes: Nodes, name: string, probs: seq<real>): (r: Nodes)
    requires name in nodes
    ensures r.Keys == nodes.Keys
    ensures r[name].definition == probs
    ensures r[name].outcomes == nodes[name].outcomes && r[name].evidence == nodes[name].evidence
    ensures forall n :: n in nodes && n != name ==> r[n] == nodes[n]
  {
    nodes[name := nodes[name].(definition := probs)]
  }

  /** `Value()->SetEvidence(outcome)` on one node. */
  function SetEvidence(nodes: Nodes, name: string, outcome: nat): (r: Nodes)
    requires name in nodes
    ensures r.Keys == nodes.Keys
    ensures r[name].evidence == Some(outcome)
    ensures r[name].outcomes == nodes[name].outcomes && r[name].definition == nodes[name].definition
    ensures forall n :: n in nodes && n != name ==> r[n] == nodes[n]
  {
    nodes[name := nodes[name].(evidence := Some(outcome))]
  }

  /**
   * The node states `updateNetwork` leaves behind for flatness evidence `p`
   * and area evidence `q`: both input nodes get the prior `[x, 1-x]` of their
   * evidence, the area node no hard evidence, and the ellipse node hard
   * evidence on its first outcome exactly when `p > 0.9`. No other node and
   * no outcome list changes.
   */
  function Evaluated(nodes: Nodes, p: real, q: real): (r: Nodes)
    requires Ellipse in nodes && Area in nodes
    ensures r.Keys == nodes.Keys
    ensures r[Ellipse].definition == [p, 1.0 - p] && r[Area].definition == [q, 1.0 - q]
    ensures r[Ellipse].evidence == (if p > 0.9 then Some(0) else None)
    ensures r[Area].evidence == None
    ensures r[Ellipse].outcomes == nodes[Ellipse].outcomes && r[Area].outcomes == nodes[Area].outcomes
    ensures forall n :: n in nodes && n != Ellipse && n != Area ==> r[n] == nodes[n]
  {
    nodes[Ellipse := Node(nodes[Ellipse].outcomes, [p, 1.0 - p], if p > 0.9 then Some(0) else None)]
         [Area := Node(nodes[Area].outcomes, [q, 1.0 - q], None)]
  }

  /**
   * Clearing both input nodes, defining both and then clamping the ellipse
   * node when `p > 0.9`, one call at a time, leaves exactly `Evaluated`.
   */
  lemma StepsReachEvaluated(nodes: Nodes, p: real, q: real)
    requires Ellipse in nodes && Area in nodes
    ensures
      var defined := SetDefinition(SetDefinition(ClearEvidence(ClearEvidence(nodes, Ellipse), Area),
                                                 Ellipse, [p, 1.0 - p]), Area, [q, 1.0 - q]);
      Evaluated(nodes, p, q) == if p > 0.9 then SetEvidence(defined, Ellipse, 0) else defined
  {
  }

  /** Both priors written by `updateNetwork` are distributions over two outcomes when the evidence is in [0, 1]. */
  lemma EvaluatedPriorsAreDistributions(nodes: Nodes, p: real, q: real)
    requires Ellipse in nodes && Area in nodes
    requires 0.0 <= p <= 1.0 && 0.0 <= q <= 1.0
    ensures forall name :: name in {Ellipse, Area} ==>
      && |Evaluated(nodes, p, q)[name].definition| == 2
      && Evaluated(nodes, p, q)[name].definition[0] + Evaluated(nodes, p, q)[name].definition[1] == 1.0
      && 0.0 <= Evaluated(nodes, p, q)[name].definition[0] <= 1.0
      && 0.0 <= Evaluated(nodes, p, q)[name].definition[1] <= 1.0
  {
  }

  /** `DSL_idArray::FindPosition`: the first index holding `name`, or -1. */
  function FindPosition(names: seq<string>, name: string): (i: int)
    ensures -1 <= i < |names|
    ensures i == -1 <==> name !in names
    ensures 0 <= i ==> names[i] == name && name !in names[..i]
  {
    if |names| == 0 then -1
    else if names[0] == name then 0
    else
      var j := FindPosition(names[1..], name);
      if j == -1 then -1
      else
        assert names[..j + 1] == [names[0]] + names[1..][..j];
        j + 1
  }

  /**
   * `getOutcomeProbability`: the posterior of `node` at the position of
   * `outcome` among its outcome names.
   */
  function OutcomeProbability(net: Network, node: string, outcome: string): (p: real)
    requires node in net.nodes && node in net.beliefs
    requires outcome in net.nodes[node].outcomes
    requires |net.beliefs[node]| == |net.nodes[node].outcomes|
    ensures exists i ::
              && 0 <= i < |net.nodes[node].outcomes| && net.nodes[node].outcomes[i] == outcome
              && outcome !in net.nodes[node].outcomes[..i] && p == net.beliefs[node][i]
  {
    net.beliefs[node][FindPosition(net.nodes[node].outcomes, outcome)]
  }

  /** Under a sound engine, every posterior read back after an update is a probability. */
  lemma OutcomeProbabilityInUnit(net: Network, engine: Engine, node: string, outcome: string)
    requires SoundEngine(engine)
    requires node in net.nodes && outcome in net.nodes[node].outcomes
    requires net.beliefs == engine(net.nodes)
    ensures node in net.beliefs && |net.beliefs[node]| == |net.nodes[node].outcomes|
    ensures 0.0 <= OutcomeProbability(net, node, outcome) <= 1.0
  {
  }

  /**
   * Hard evidence on the ellipse node fixes its posterior: after the update
   * with `p > 0.9`, a sound engine reports P(ellipse = HIGH) = 1.
   */
  lemma HardEvidenceFixesEllipse(nodes: Nodes, engine: Engine, p: real, q: real)
    requires SoundEngine(engine)
    requires HasEvaluatorNodes(nodes)
    requires p > 0.9
    ensures HasEvaluatorNodes(Evaluated(nodes, p, q))
    ensures Ellipse in engine(Evaluated(nodes, p, q))
    ensures OutcomeProbability(Network(Evaluated(nodes, p, q), engine(Evaluated(nodes, p, q))), Ellipse, "HIGH") == 1.0
  {
    var r := Evaluated(nodes, p, q);
    assert r[Ellipse].outcomes == ["HIGH", "LOW"];
    assert FindPosition(r[Ellipse].outcomes, "HIGH") == 0;
  }

  /** The prior of each root node in the hand-built network. */
  const RootPrior: seq<real> := [0.5, 0.5]

  /** The CPT of `flat`, one pair (P(YES), P(NO)) per parent configuration. */
  const FlatCpt: seq<real> := [0.95, 0.05, 0.65, 0.35, 0.6, 0.4, 0.01, 0.99]

  /** The CPT of `nonflat`. */
  const NonflatCpt: seq<real> := [0.05, 0.95, 0.35, 0.65, 0.4, 0.6, 0.99, 0.01]

  /** Every (YES, NO) pair of a table is a distribution. */
  predicate PairsSumToOne(cpt: seq<real>)
  {
    |cpt| % 2 == 0 && forall i :: 0 <= i < |cpt| / 2 ==> cpt[2 * i] + cpt[2 * i + 1] == 1.0
  }

  /** The table with the two entries of every pair exchanged. */
  function PairSwap(cpt: seq<real>): (r: seq<real>)
    requires |cpt| % 2 == 0
    ensures |r| == |cpt|
    ensures forall i :: 0 <= i < |cpt| / 2 ==> r[2 * i] == cpt[2 * i + 1] && r[2 * i + 1] == cpt[2 * i]
  {
    if |cpt| == 0 then []
    else
      var rest := PairSwap(cpt[2..]);
      assert forall i :: 1 <= i < |cpt| / 2 ==>
        ([cpt[1], cpt[0]] + rest)[2 * i] == rest[2 * (i - 1)] == cpt[2..][2 * (i - 1) + 1];
      [cpt[1], cpt[0]] + rest
  }

  /** Swapping the entries of every pair keeps each pair a distribution. */
  lemma PairSwapKeepsDistributions(cpt: seq<real>)
    requires PairsSumToOne(cpt)
    ensures PairsSumToOne(PairSwap(cpt))
  {
  }

  /**
   * The hand-built tables: each pair of `flat` is a distribution, and
   * `nonflat` is `flat` with YES and NO exchanged in every configuration.
   */
  lemma CptTables()
    ensures PairsSumToOne(FlatCpt) && PairsSumToOne(NonflatCpt)
    ensures NonflatCpt == PairSwap(FlatCpt)
    ensures RootPrior[0] + RootPrior[1] == 1.0
  {
    assert forall i :: 0 <= i < 4 ==> FlatCpt[2 * i] + FlatCpt[2 * i + 1] == 1.0 by {
      forall i | 0 <= i < 4
        ensures FlatCpt[2 * i] + FlatCpt[2 * i + 1] == 1.0
      {
        assert i == 0 || i == 1 || i == 2 || i == 3;
      }
    }
    PairSwapKeepsDistributions(FlatCpt);
    var s := PairSwap(FlatCpt);
    assert |s| == 8;
    assert forall k :: 0 <= k < 8 ==> s[k] == NonflatCpt[k] by {
      forall k | 0 <= k < 8
        ensures s[k] == NonflatCpt[k]
      {
        assert k % 2 == 0 ==> s[k] == FlatCpt[k + 1];
        assert k % 2 == 1 ==> s[k] == FlatCpt[k - 1];
      }
    }
  }
}
