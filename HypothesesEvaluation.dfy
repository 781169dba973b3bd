/**
 * The hypotheses evaluator: it keeps the history of flatness and area
 * features, turns the latest of them into two evidence values, writes those
 * into the belief network's two input nodes and reads back the posteriors of
 * the two hypotheses.
 */
module HypothesesEvaluation {
  import opened Evidence
  import opened BeliefNetwork

  /** An area history `calculateProbabilities` can divide by: its maximum is not 0 once it has two samples. */
  predicate AreaHistoryUsable(areas: seq<real>)
  {
    |areas| > 0 && (|areas| > 1 ==> MaxOf(areas) != 0.0)
  }

  /** The network has a posterior of the right length for the node `name`. */
  predicate HasBelief(net: Network, name: string)
  {
    name in net.nodes && name in net.beliefs && |net.beliefs[name]| == |net.nodes[name].outcomes|
  }

  class Evaluator {
    /** `features[0]` is the flatness history, `features[1]` the area history; both are created on the first frame. */
    var features: seq<seq<real>>
    /** The two evidence values of the last frame: flatness, then area. */
    const newProbabilities: array<real>
    var net: Network
    /** The network's inference, which this component never looks inside. */
    const engine: Engine

    ghost predicate Valid()
      reads this
    {
      && newProbabilities.Length == 2
      && (|features| == 0 || (|features| == 2 && |features[0]| == |features[1]|))
      && HasEvaluatorNodes(net.nodes)
      && SoundEngine(engine)
    }

    /** The flatness history, empty before the first frame. */
    function Flatness(): (s: seq<real>)
      reads this
      requires Valid()
      ensures |s| == |Areas()|
    {
      if |features| == 0 then [] else features[0]
    }

    /** The area history, empty before the first frame. */
    function Areas(): seq<real>
      reads this
      requires Valid()
    {
      if |features| == 0 then [] else features[1]
    }

    /** A component whose network was read in with the four named nodes and has no history yet. */
    constructor (nodes: Nodes, engine: Engine)
      requires HasEvaluatorNodes(nodes) && SoundEngine(engine)
      ensures Valid()
      ensures features == [] && net == Network(nodes, map[]) && this.engine == engine
      ensures fresh(newProbabilities)
    {
      features := [];
      newProbabilities := new real[2];
      net := Network(nodes, map[]);
      this.engine := engine;
    }

    /**
     * `updateFeatureVector`: create the two histories on first use, then
     * append the flatness (index 2) and area (index 3) of the new features.
     */
    method UpdateFeatureVector(newFeatures: seq<real>)
      requires Valid() && |newFeatures| >= 4
      modifies this
      ensures Valid() && |features| == 2
      ensures Flatness() == old(Flatness()) + [newFeatures[2]]
      ensures Areas() == old(Areas()) + [newFeatures[3]]
      ensures net == old(net)
    {
      if |features| == 0 {
        features := [[], []];
      }
      var newFlatness := newFeatures[2];
      var newArea := newFeatures[3];
      features := [features[0] + [newFlatness], features[1]];
      features := [features[0], features[1] + [newArea]];
    }

    /**
     * `calculateProbabilities`: the flatness evidence of the latest flatness
     * and the area evidence of the latest area over the largest one so far.
     */
    method CalculateProbabilities()
      requires Valid() && AreaHistoryUsable(Areas())
      modifies newProbabilities
      ensures newProbabilities[..] == [FlatnessEvidence(Flatness()[|Flatness()| - 1]), AreaEvidence(AreaRatio(Areas()))]
    {
      var flatness, area := features[0], features[1];
      var currentFlatness := flatness[|flatness| - 1];
      var currentArea := area[|area| - 1];
      var newFlatnessProbability, newAreaProbability;
      if currentFlatness <= 0.8 {
        newFlatnessProbability := 0.0;
      } else {
        newFlatnessProbability := 1.0 - (1.0 - currentFlatness) / 0.2;
      }
      var maxArea := currentArea;
      var ratio := 1.0;
      if |area| > 1 {
        maxArea := MaxOf(area);
        ratio := currentArea / maxArea;
      }
      if ratio < 0.4 {
        newAreaProbability := 0.0;
      } else {
        newAreaProbability := (ratio - 0.4) / 0.6;
      }
      newProbabilities[0] := newFlatnessProbability;
      newProbabilities[1] := newAreaProbability;
    }

    /**
     * `updateNetwork`: clear the evidence of both input nodes, give them the
     * priors `[p, 1-p]` and `[q, 1-q]`, clamp the ellipse node to its first
     * outcome when `p > 0.9`, and propagate.
     */
    method UpdateNetwork(probabilities: array<real>)
      requires Valid() && probabilities.Length >= 2
      modifies this
      ensures Valid()
      ensures net.nodes == Evaluated(old(net.nodes), probabilities[0], probabilities[1])
      ensures net.beliefs == engine(net.nodes)
      ensures features == old(features)
    {
      net := UpdateBeliefs(net, engine);
      var highFlatnessProbability := probabilities[0];
      var highAreaProbability := probabilities[1];
      StepsReachEvaluated(net.nodes, highFlatnessProbability, highAreaProbability);
      net := net.(nodes := ClearEvidence(net.nodes, Ellipse));
      net := net.(nodes := ClearEvidence(net.nodes, Area));
      net := net.(nodes := SetDefinition(net.nodes, Ellipse, [highFlatnessProbability, 1.0 - highFlatnessProbability]));
      net := net.(nodes := SetDefinition(net.nodes, Area, [highAreaProbability, 1.0 - highAreaProbability]));
      if highFlatnessProbability > 0.9 {
        net := net.(nodes := SetEvidence(net.nodes, Ellipse, 0));
      }
      net := UpdateBeliefs(net, engine);
    }

    /**
     * `computeDecision`: the posteriors P(flat = YES) and P(nonflat = YES), in
     * that order; the posteriors of the two input nodes are read but only
     * displayed.
     */
    method ComputeDecision() returns (resultingProbabilities: seq<real>)
      requires Valid()
      requires HasBelief(net, Ellipse) && HasBelief(net, Area) && HasBelief(net, Flat) && HasBelief(net, Nonflat)
      ensures resultingProbabilities == [OutcomeProbability(net, Flat, "YES"), OutcomeProbability(net, Nonflat, "YES")]
      ensures resultingProbabilities == [net.beliefs[Flat][0], net.beliefs[Nonflat][0]]
    {
      var ellipseProbability := OutcomeProbability(net, Ellipse, "HIGH");
      var areaProbability := OutcomeProbability(net, Area, "HIGH");
      var flatProbability := OutcomeProbability(net, Flat, "YES");
      var nonflatProbability := OutcomeProbability(net, Nonflat, "YES");
      assert FindPosition(net.nodes[Flat].outcomes, "YES") == 0;
      assert FindPosition(net.nodes[Nonflat].outcomes, "YES") == 0;
      resultingProbabilities := [];
      resultingProbabilities := resultingProbabilities + [flatProbability];
      resultingProbabilities := resultingProbabilities + [nonflatProbability];
    }

    /**
     * `onNewImage`: one frame of the evaluator. The histories grow by the new
     * features, the evidence is computed from them and written into the
     * network, and the two hypothesis posteriors are emitted.
     */
    method OnNewImage(newFeatures: seq<real>) returns (decision: seq<real>)
      requires Valid() && |newFeatures| >= 4
      requires AreaHistoryUsable(Areas() + [newFeatures[3]])
      modifies this, newProbabilities
      ensures Valid()
      ensures Flatness() == old(Flatness()) + [newFeatures[2]]
      ensures Areas() == old(Areas()) + [newFeatures[3]]
      ensures newProbabilities[..] == [FlatnessEvidence(newFeatures[2]), AreaEvidence(AreaRatio(Areas()))]
      ensures net.nodes == Evaluated(old(net.nodes), newProbabilities[0], newProbabilities[1])
      ensures net.beliefs == engine(net.nodes)
      ensures decision == [net.beliefs[Flat][0], net.beliefs[Nonflat][0]]
      ensures forall k :: 0 <= k < |decision| ==> 0.0 <= decision[k] <= 1.0
    {
      UpdateFeatureVector(newFeatures);
      CalculateProbabilities();
      UpdateNetwork(newProbabilities);
      assert HasEvaluatorNodes(net.nodes);
      decision := ComputeDecision();
    }
  }
}
