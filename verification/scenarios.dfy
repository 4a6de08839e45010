/**
 * The concrete runs of the state test suite, stated on the model: three nodes with the
 * activations 75, 70 and 50 for the maximum queries, two activated nodes for the threshold
 * queries, and the two-node, one-link network for `propagate`.
 */
module Scenarios {
  import opened Wrappers
  import opened ConceptGraph
  import opened ActivationState

  /** "Node 1", "sNode 2" and "tNode 3", each added once, with ids 0, 1 and 2. */
  function ThreeNodes(): map<string, Node> {
    map["Node 1" := Node(ObjectId(0), "Node 1", 1),
        "sNode 2" := Node(ObjectId(1), "sNode 2", 1),
        "tNode 3" := Node(ObjectId(2), "tNode 3", 1)]
  }

  /** "Node 1" activated and "Node 2" not: they read 100 and 0. */
  lemma GettersScenario()
    ensures var activated := Assigned(map[], ObjectId(0), 100.0);
      && ActivationValue(activated, ObjectId(0)) == 100.0
      && ActivationValue(activated, ObjectId(1)) == 0.0
  {
  }

  /** Setting "Node 2" to 0 and "Node 1" to 75 reads back 0 and 75, and the 0 leaves no
      record. */
  lemma SettersScenario()
    ensures var written := Assigned(Assigned(map[], ObjectId(1), 0.0), ObjectId(0), 75.0);
      && ActivationValue(written, ObjectId(1)) == 0.0 && ObjectId(1) !in written
      && ActivationValue(written, ObjectId(0)) == 75.0
  {
  }

  /** The test's three `setActivationValue` calls: 75, 70 and 50 on ids 0, 1 and 2. */
  function Scored(): Records {
    Assigned(Assigned(Assigned(map[], ObjectId(0), 75.0), ObjectId(1), 70.0), ObjectId(2), 50.0)
  }

  /** With no record the maximum is 0. */
  lemma MaximumNothingActivated()
    ensures MaximumActivationValue(map[], ThreeNodes(), None) == 0.0
  {
  }

  /** Over 75, 70 and 50 the maximum is 75. */
  lemma MaximumAnyToken()
    ensures MaximumActivationValue(Scored(), ThreeNodes(), None) == 75.0
  {
    var records := Scored();
    assert records == map[ObjectId(0) := Record(75.0, 0.0, 0), ObjectId(1) := Record(70.0, 0.0, 0),
                          ObjectId(2) := Record(50.0, 0.0, 0)];
    assert Counted(ThreeNodes(), None, ObjectId(0));
  }

  /** Only "sNode 2" starts with "s": restricted to it, the maximum is 70. */
  lemma MaximumSTokens()
    ensures MaximumActivationValue(Scored(), ThreeNodes(), Some("s")) == 70.0
  {
    var nodes := ThreeNodes();
    var records := Scored();
    assert records == map[ObjectId(0) := Record(75.0, 0.0, 0), ObjectId(1) := Record(70.0, 0.0, 0),
                          ObjectId(2) := Record(50.0, 0.0, 0)];
    assert "s"[0] != "Node 1"[0] && "s"[0] != "tNode 3"[0];
    assert nodes.Keys == {"Node 1", "sNode 2", "tNode 3"};
    assert LabelledIds(nodes, "s") == {ObjectId(1)};
  }

  /** With "Node 1" at 100 and "sNode 2" at 95: both exceed the default threshold 90, only
      "sNode 2" starts with "s", and only "Node 1" exceeds 96. */
  lemma ActivatedScenario()
    ensures var records := Assigned(Assigned(map[], ObjectId(0), 100.0), ObjectId(1), 95.0);
      && ActivatedTypedNodes(records, ThreeNodes(), None, None)
           == {(ThreeNodes()["Node 1"], 100.0), (ThreeNodes()["sNode 2"], 95.0)}
      && ActivatedTypedNodes(records, ThreeNodes(), Some("s"), None) == {(ThreeNodes()["sNode 2"], 95.0)}
      && ActivatedTypedNodes(records, ThreeNodes(), Some(""), Some(96.0)) == {(ThreeNodes()["Node 1"], 100.0)}
  {
    var nodes := ThreeNodes();
    var records := Assigned(Assigned(map[], ObjectId(0), 100.0), ObjectId(1), 95.0);
    assert records == map[ObjectId(0) := Record(100.0, 0.0, 0), ObjectId(1) := Record(95.0, 0.0, 0)];
    assert "" <= "Node 1" && "" <= "sNode 2";
    assert "s"[0] != "Node 1"[0];
    assert "s" <= "sNode 2" && !("s" <= "Node 1");
    assert ObjectId(2) !in records;
  }

  /** Two nodes joined by one link from the first to the second, the first activated: after
      one propagation step the first has dropped below 100 and the second is active. */
  lemma PropagateScenario(curves: Curves)
    requires Admissible(curves)
    ensures var links := map[(ObjectId(0), ObjectId(1)) := Link(ObjectId(2), ObjectId(0), ObjectId(1), 1)];
      var after := Propagated(Assigned(map[], ObjectId(0), 100.0), {ObjectId(0), ObjectId(1)}, links, curves);
      && ActivationValue(after, ObjectId(0)) < 100.0
      && ActivationValue(after, ObjectId(1)) > 0.0
  {
    var key := (ObjectId(0), ObjectId(1));
    var links := map[key := Link(ObjectId(2), ObjectId(0), ObjectId(1), 1)];
    var sources := {ObjectId(0), ObjectId(1)};
    var records := Assigned(map[], ObjectId(0), 100.0);
    assert Into(KeysFrom(links, sources), ObjectId(0)) == {};
    PropagatedDecays(records, sources, links, curves, ObjectId(0));
    PropagatedActivates(records, sources, links, curves, ObjectId(1), key);
  }
}
