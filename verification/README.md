# mongo-concept-network, modelled in Dafny

This project models the two components of `mongo-concept-network`, both stored in one MongoDB
collection (`conceptnetwork`).

**The concept graph (`ConceptNetwork`, module `ConceptGraph`, `concept_network.dfy`).**
- Nodes are unique by label and count their occurrences (`occ`).
- Links are unique by the ordered pair `(fromId, toId)` and count their co-occurrences (`coOcc`).
- Every mutator either upserts and increments, or decrements and removes the document by `_id`
  once the count reaches 0.
- The collection is a class holding a node table `map<string, Node>` keyed by label and a link
  table `map<(ObjectId, ObjectId), Link>` keyed by pair.
- A counter `nextId` stands in for Mongo's `_id` allocation. Nodes and links share it, because
  they share one collection.
- `WellFormed` is the table invariant, preserved by every mutator:
  - every entry is stored under its own label or pair;
  - every count is at least 1;
  - ids are unique across nodes and links.

**The activation state (`ConceptNetworkState`, module `ActivationState`, `concept_network_state.dfy`).**
- A sparse map from node id to `{activationValue, oldActivationValue, age}`. An id without a
  record reads as activation 0.
- Point operations: `activate`, `setActivationValue` (where 0 deletes the record), and the two
  getters.
- Two filtered queries:
  - the maximum activation over nodes whose label starts with a prefix;
  - the nodes whose activation exceeds a threshold.
- `propagate`, one spreading-activation step in three loops:
  1. age every record and remember its activation as the previous one;
  2. tally, for every node, the count and the total influence `0.5 + old(from) * coOcc` of the
     links entering it from nodes of the graph;
  3. write back each node's new activation: the previous value less 40 %, plus the normalised
     influence, less an age penalty, clamped to [0, 100].

Each loop is a method proved against a specification function (`Snapshot`, `InfluenceNb` /
`InfluenceValue`, `Settled`). The lemmas about `Propagated` state what one step does.
`Math.exp` and `Math.log` appear only in the age penalty and the influence normaliser. Both are
a parameter (`Curves`), of which only the sign facts `Admissible` are assumed.

`reductions.dfy` holds the finite sum and maximum these use. `wrappers.dfy` holds `Option`
(JavaScript `null`) and `Result` (an `Error` passed to the callback). `scenarios.dfy` states the
concrete runs of the test suites.

Where the documentation and the code disagree, the model follows the code, with one exception
described below (`getActivatedTypedNodes` and `propagate`):
- `removeNode` does not remove the node's links. The cascade is commented out, although the
  doc comment promises it (`RemoveNodeDoesNotCascade`).
- `addLink` checks only that both ids are objects (`typeof` is `'object'`). It does not check
  that the nodes exist.
- `activate` only `$set`s `activationValue` to 100. It neither resets nor creates `age` or
  `oldActivationValue`, which read as 0, like the default record `propagate` uses.

The exception: `getActivatedTypedNodes` and `propagate` are only partly ported to the store. They
iterate the in-memory `nodeState` and `cn.node`, which stay empty, and they call the
asynchronous getters as if these returned values. As written, `getActivatedTypedNodes` returns
an empty array for every state. The model gives both operations their evident intent over the
stored records and the stored node table.

## Model

| member | source | states |
|---|---|---|
| ConceptGraph.NodeAdded | lib/mongo-concept-network.js:44-57 | the label's count grows by exactly 1; an existing node keeps its id and label, a new label gets a node with count 1 and the fresh id; every other node is unchanged |
| ConceptGraph.NodeDecremented | lib/mongo-concept-network.js:66-86 | the label's count drops by exactly 1; the node is gone exactly when its count was 1, otherwise it stays with the lower count; no other node changes |
| ConceptGraph.LinkAdded | lib/mongo-concept-network.js:146-157 | the pair's co-occurrence grows by exactly 1; an existing link keeps its id and ends, a new pair gets a link with count 1 and the fresh id; every other link is unchanged |
| ConceptGraph.LinkDecremented | lib/mongo-concept-network.js:169-197 | the pair's co-occurrence drops by exactly 1; the link is gone exactly when it was 1; no other link changes |
| ConceptGraph.NodesWithoutId | lib/mongo-concept-network.js:122 | the nodes left are exactly those whose id differs from the removed one, unchanged |
| ConceptGraph.LinksWithoutId | lib/mongo-concept-network.js:212 | the links left are exactly those whose id differs from the removed one, unchanged |
| ConceptGraph.NodeAddedWellFormed | lib/mongo-concept-network.js:44-57 | adding a node keeps the collection well formed, with the id counter advanced only for a new label |
| ConceptGraph.NodeDecrementedWellFormed | lib/mongo-concept-network.js:66-86 | decrementing an existing node keeps the collection well formed |
| ConceptGraph.LinkAddedWellFormed | lib/mongo-concept-network.js:146-157 | adding a link keeps the collection well formed, with the id counter advanced only for a new pair |
| ConceptGraph.LinkDecrementedWellFormed | lib/mongo-concept-network.js:169-197 | decrementing an existing link keeps the collection well formed |
| ConceptGraph.WithoutIdWellFormed | lib/mongo-concept-network.js:122 | removing every document with an id keeps the collection well formed |
| ConceptGraph.RemoveNodeDoesNotCascade | lib/mongo-concept-network.js:100-122 | removing a node by its id removes that node only: every link from or to it stays |
| ConceptGraph.RemoveLinkKeepsNodes | lib/mongo-concept-network.js:211-216 | removing a link by its id removes that link only and no node |
| ConceptGraph.RemoveSpentNode | lib/mongo-concept-network.js:76-82 | removing by id a node whose count has just reached 0 yields the decremented node table and leaves every link |
| ConceptGraph.RemoveSpentLink | lib/mongo-concept-network.js:185-191 | removing by id a link whose count has just reached 0 yields the decremented link table and leaves every node |
| ConceptGraph.AddThenDecrementNode | lib/mongo-concept-network.js:44-86 | decrementNode undoes addNode on any node table |
| ConceptGraph.AddThenDecrementLink | lib/mongo-concept-network.js:146-197 | decrementLink undoes addLink on any link table |
| ConceptGraph.AddNodesCounts | lib/mongo-concept-network.js:44-57 | after a run of addNode calls, each label's count has grown by the number of calls naming it |
| ConceptGraph.AddNodesLabels | lib/mongo-concept-network.js:44-57 | after a run of addNode calls, the labels with a node are the earlier ones plus those named, one node each |
| ConceptGraph.AddNodesExample | test/mongo-concept-network_test.js:39-70 | "Chuck Norris", "Chuck Norris", "World", "Chuck Norris" on an empty collection: two nodes, with counts 3 and 1 |
| ConceptGraph.AddNodes | lib/mongo-concept-network.js:44-57 | the node table after addNode is called once per label of a sequence, in order; the counting and label laws above state what it holds |
| ConceptGraph.DecrementNodes | lib/mongo-concept-network.js:66-86 | the node table after decrementNode is called k times on one label; DecrementNodesRun states what it holds |
| ConceptGraph.DecrementNodesRun | lib/mongo-concept-network.js:66-86 | k decrementNode calls on a label counted n >= k times leave it counted n - k, which is the node the k-th call returns; the node is removed exactly when k == n; no other node changes |
| ConceptGraph.DecrementNodesExample | test/mongo-concept-network_test.js:73-85 | after the addNode run, one decrement leaves "Chuck Norris" at 2, and one decrement removes "World" |
| ConceptGraph.AddLinks | lib/mongo-concept-network.js:146-157 | the link table after addLink is called once per pair of a sequence, in order |
| ConceptGraph.AddLinksCounts | lib/mongo-concept-network.js:146-157 | after a run of addLink calls, each pair's co-occurrence has grown by the number of calls naming it; n calls on a new pair give n |
| ConceptGraph.DecrementLinks | lib/mongo-concept-network.js:169-197 | the link table after decrementLink is called k times on one pair; DecrementLinksRun states what it holds |
| ConceptGraph.DecrementLinksRun | lib/mongo-concept-network.js:169-197 | k decrementLink calls on a pair counted n >= k times leave it counted n - k; the link is removed exactly when k == n; no other link changes |
| ConceptGraph.DecrementLinksExample | test/mongo-concept-network_test.js:135-153 | two addLink calls on one pair give 2; one decrementLink leaves 1, and a second one removes the link |
| ConceptGraph.ConceptNetwork.constructor | lib/mongo-concept-network.js:18-33 | a new network has no node and no link and is well formed |
| ConceptGraph.ConceptNetwork.AddNode | lib/mongo-concept-network.js:44-57 | the node table becomes NodeAdded of the old one, links are unchanged, the collection stays well formed, and the returned node is the stored one |
| ConceptGraph.ConceptNetwork.DecrementNode | lib/mongo-concept-network.js:66-86 | the node table becomes NodeDecremented of the old one, links are unchanged, and the result is the updated node, or null once it is removed |
| ConceptGraph.ConceptNetwork.RemoveNode | lib/mongo-concept-network.js:100-127 | every document with the id is dropped from both tables, and a well-formed collection stays well formed |
| ConceptGraph.ConceptNetwork.AddLink | lib/mongo-concept-network.js:137-158 | a number or string fromId, then a number or string toId, is refused with its own error and changes nothing; otherwise the link table becomes LinkAdded of the old one and the stored link is returned |
| ConceptGraph.ConceptNetwork.DecrementLink | lib/mongo-concept-network.js:169-197 | the link table becomes LinkDecremented of the old one, nodes are unchanged, and the result is the updated link, or null once it is removed |
| ConceptGraph.ConceptNetwork.RemoveLink | lib/mongo-concept-network.js:211-216 | every document with the id is dropped from both tables, and a well-formed collection stays well formed |
| ConceptGraph.ConceptNetwork.GetNode | lib/mongo-concept-network.js:226-232 | the node stored under the label, or null exactly when there is none |
| ConceptGraph.ConceptNetwork.GetLink | lib/mongo-concept-network.js:242-248 | the link stored for the pair, or null exactly when there is none |
| ConceptGraph.ConceptNetwork.NodeFromLinks | lib/mongo-concept-network.js:257-263 | exactly the stored links whose fromId is the id (empty when there are none) |
| ConceptGraph.ConceptNetwork.NodeToLinks | lib/mongo-concept-network.js:272-278 | exactly the stored links whose toId is the id (empty when there are none) |
| ConceptGraph.ConceptNetwork.NodeIds | lib/mongo-concept-network-state.js:238 | exactly the ids of the stored nodes, the set propagate iterates over |
| Reductions.MaxOf | lib/mongo-concept-network-state.js:145-147 | the reduce step's maximum: a value some element takes, and no element's value is larger |
| ActivationState.ActivationValue | lib/mongo-concept-network-state.js:71-82 | 0 for an id without a record, the stored activation otherwise |
| ActivationState.OldActivationValue | lib/mongo-concept-network-state.js:120-131 | 0 for an id without a record, the stored previous activation otherwise |
| ActivationState.Assigned | lib/mongo-concept-network-state.js:90-113 | afterwards the id reads the value; it has a record exactly when the value is not 0; the record keeps its previous activation and age; no other record changes; sparseness is kept |
| ActivationState.MaximumActivationValue | lib/mongo-concept-network-state.js:139-196 | no counted record's activation exceeds the result, which is one of them, or 0 when none is counted; without a filter every record counts, with one only those of nodes whose label starts with it |
| ActivationState.ActivatedTypedNodes | lib/mongo-concept-network-state.js:207-221 | exactly the nodes with a record whose label starts with the filter (default "") and whose activation is strictly above the threshold (default 90), each with its activation |
| ActivationState.Current | lib/mongo-concept-network-state.js:263-266 | the stored record, or the all-zero default record `Unrecorded` for a node without one |
| ActivationState.Aged | lib/mongo-concept-network-state.js:232-234 | one record after the first loop: the age grows by one, and the previous activation becomes the current one |
| ActivationState.Snapshot | lib/mongo-concept-network-state.js:231-235 | the same ids; every record one step older, with its previous activation set to its current one |
| ActivationState.Clamp | lib/mongo-concept-network-state.js:289-290 | the result lies in [0, 100], equals the input inside that range, 0 below it and 100 above it |
| ActivationState.NextValue | lib/mongo-concept-network-state.js:262-290 | the new activation of one node lies in [0, 100] |
| ActivationState.Weight | lib/mongo-concept-network-state.js:252 | the influence one link carries, 0.5 + old(from) * coOcc; at least 0.5 when the previous activation and the count are non-negative |
| ActivationState.NoIncoming | lib/mongo-concept-network-state.js:243-257 | the set of links entering a target from the network's nodes is empty exactly when no such link exists |
| ActivationState.InfluenceNb | lib/mongo-concept-network-state.js:254-256 | the number of links entering a target from the network's nodes; 0 exactly when no such link exists |
| ActivationState.InfluenceValue | lib/mongo-concept-network-state.js:250-253 | the sum of the link weights over those links; 0 when there is none |
| ActivationState.Revised | lib/mongo-concept-network-state.js:263-290 | the new activation of one node from the aged records and its influence, always in [0, 100] |
| ActivationState.Revisions | lib/mongo-concept-network-state.js:262-292 | a revised activation for exactly the nodes of the graph |
| ActivationState.Overwritten | lib/mongo-concept-network-state.js:291 | the records with each given value written back through setActivationValue: 0 deletes the record, any other value is set on the record or the default one; other ids keep their record |
| ActivationState.Settled | lib/mongo-concept-network-state.js:262-292 | the aged records with every node's revised activation written back; the Propagated lemmas state what that means |
| ActivationState.Propagated | lib/mongo-concept-network-state.js:228-293 | the records after one step: Settled applied to the Snapshot of the records, over the network's nodes and links |
| ActivationState.TallyStep | lib/mongo-concept-network-state.js:249-256 | counting one more link against its target, and adding its weight to the target's total, keeps both arrays exact for the links seen |
| ActivationState.PropagatedRemembersPrevious | lib/mongo-concept-network-state.js:231-235 | after a step, every record's previous activation is the activation before the step, and its age is one more than before (0 for a new record) |
| ActivationState.PropagatedBounds | lib/mongo-concept-network-state.js:289-291 | after a step every node's activation lies in (0, 100], because a 0 deletes the record; activations in [0, 100] and sparseness are preserved |
| ActivationState.PropagatedOffGraph | lib/mongo-concept-network-state.js:262 | a record of an id that is not a node is only aged: the third loop visits nodes only |
| ActivationState.PropagatedDecays | lib/mongo-concept-network-state.js:272-277 | a node no link reaches ends the step strictly below the positive activation it had |
| ActivationState.PropagatedActivates | lib/mongo-concept-network-state.js:279-288 | a node without a record that a link from a node reaches becomes active, when no stored activation and no co-occurrence is negative |
| ActivationState.PropagatedEmpty | lib/mongo-concept-network-state.js:228-293 | on a graph without nodes and a state without records, a step changes nothing |
| ActivationState.ConceptNetworkState.constructor | lib/mongo-concept-network-state.js:28-39 | a new state is bound to its network and has no record |
| ActivationState.ConceptNetworkState.Activate | lib/mongo-concept-network-state.js:51-64 | the records become Assigned(old, id, 100), and the returned record is the stored one, with activation 100 |
| ActivationState.ConceptNetworkState.SetActivationValue | lib/mongo-concept-network-state.js:90-113 | the records become Assigned(old, id, value): 0 removes the record, any other value is upserted |
| ActivationState.ConceptNetworkState.Propagate | lib/mongo-concept-network-state.js:228-293 | the records become Propagated of the old records, over the network's nodes and links |
| ActivationState.ConceptNetworkState.Age | lib/mongo-concept-network-state.js:231-235 | the records become the Snapshot of the old ones |
| ActivationState.ConceptNetworkState.Influences | lib/mongo-concept-network-state.js:238-258 | for every target, the count equals the number of links entering it from the network's nodes, and the total equals the sum of 0.5 + old(from) * coOcc over those links |
| ActivationState.ConceptNetworkState.Spread | lib/mongo-concept-network-state.js:243-257 | after the links leaving one node, the arrays are exact for the links already seen plus those |
| ActivationState.ConceptNetworkState.Settle | lib/mongo-concept-network-state.js:262-292 | the records become Settled: each node gets its revised activation written back through setActivationValue |
| Scenarios.GettersScenario | test/mongo-concept-network-state_test.js:57-90 | an activated node reads 100 and another reads 0 |
| Scenarios.SettersScenario | test/mongo-concept-network-state_test.js:260-276 | setting 0 leaves no record and reads 0; setting 75 reads 75 |
| Scenarios.MaximumNothingActivated | test/mongo-concept-network-state_test.js:133-138 | the maximum over no record is 0 |
| Scenarios.MaximumAnyToken | test/mongo-concept-network-state_test.js:140-151 | over the activations 75, 70 and 50 the maximum is 75 |
| Scenarios.MaximumSTokens | test/mongo-concept-network-state_test.js:153-164 | restricted to labels starting with "s", the maximum is 70 |
| Scenarios.ActivatedScenario | test/mongo-concept-network-state_test.js:203-233 | with activations 100 and 95: both nodes by default, only "sNode 2" for the filter "s", only "Node 1" for threshold 96 |
| Scenarios.PropagateScenario | test/mongo-concept-network-state_test.js:281-320 | two nodes and one link, the first activated: after a step the first has dropped below 100 and the second is active |

## Left out

- MongoDB I/O is replaced by map operations: `findAndModify`, `findOne`, `find().toArray`, `remove`, `mapReduce`, the connection, callbacks and promises. Each call returns its value directly.
- Concurrency and the atomicity of concurrent upserts are not modelled; the model is sequential.
- `Math.exp` and `Math.log` are not computed. They are the `Curves` parameter, with only the sign facts in `Admissible`, so no exact floating-point activation is derived.
- Activations are exact reals. IEEE rounding, `NaN` and infinities are not modelled.
- `ActivationState.MaximumActivationValue`: the `"^" + filter` regular expression is modelled as a literal label prefix; regex metacharacters in a filter are not interpreted.
- `ActivationState.ActivatedTypedNodes`: the model gives the intended filter over the stored records and the stored node table. The code as written iterates the empty in-memory `nodeState` and returns `[]`. The result is a set, so the array's order is not modelled. A record whose id has no node is skipped, where the intended code would fail on `node.label`.
- `ConceptGraph.ConceptNetwork.NodeFromLinks` and `ConceptGraph.ConceptNetwork.NodeToLinks` return sets, so the order of `find()` results is not modelled.
- `ConceptGraph.ConceptNetwork.DecrementNode` and `ConceptGraph.ConceptNetwork.DecrementLink` require the node or link to exist. On an unknown key the source crashes reading a field of an undefined result.
- The driver reply check in `removeNode` / `removeLink` (`removed.n === undefined ? null : Error`) depends on the driver's reply shape and is not modelled.
- The constructors' vestigial in-memory fields (`node`, `link`, `labelIndex`, `fromIndex`, `toIndex`, `nodeLastId`, `normalNumberComingLinks` as a field), the `instanceof` checks and the `debug` logging are not modelled. The `normalNumberComingLinks` value 2 lives inside the `normaliser` curve.
- `ActivationState.ConceptNetworkState.Propagate` models the intended synchronous step over one state map and the graph tables. The source iterates an in-memory `nodeState` and `cn.node`, and calls the asynchronous getters and `setActivationValue` as if they returned values.
- `ActivationState.ConceptNetworkState.Propagate`: a record that lacks `age` or `oldActivationValue` is read with 0, as for the default record. Such a record is written only by `activate` or `setActivationValue`. In JavaScript `undefined + 1` would give `NaN`.
- The `ObjectId` type of Mongo is a natural-number serial.
- `ConceptGraph.ConceptNetwork.AddLink`: a non-id object passes the source's `typeof x !== 'object'` check and creates a link keyed on that value. This includes `null`, an array and a plain object. `Arg` cannot represent such values: its non-id cases are numbers and strings, which are refused.
- `ConceptGraph.DecrementNodes` and `ConceptGraph.DecrementLinks` stop at a missing key, where the source fails; their run lemmas require enough occurrences, so this case never arises in them.
