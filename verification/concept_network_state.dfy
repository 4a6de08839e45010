/**
 * The activation state of a concept network: a sparse map from node id to an activation
 * record `{activationValue, oldActivationValue, age}`, where a node without a record reads as
 * activation 0, and the spreading step `propagate` that recomputes every node's activation
 * from the previous values of the nodes linking to it.
 *
 * The store keeps the records in the same collection as the graph. Here they are a map held
 * by a `ConceptNetworkState` object beside the `ConceptNetwork` it reads. The getters and the
 * two filtered queries are functions of that map (and of the node table); `activate`,
 * `setActivationValue` and `propagate` are methods proved against the functions `Assigned`,
 * `Snapshot`, `Settled` and `Propagated`.
 *
 * `Math.exp` and `Math.log` enter `propagate` only through the age penalty and the influence
 * normaliser; both are parameters (`Curves`) of which only the sign facts are assumed.
 */
module ActivationState {
  import opened Wrappers
  import opened Reductions
  import opened ConceptGraph

  /** A node's activation record. A record written only through `activate` or
      `setActivationValue` has no `oldActivationValue` or `age` in the store; those read as 0. */
  datatype Record = Record(activationValue: real, oldActivationValue: real, age: nat)

  type Records = map<ObjectId, Record>

  /** What `propagate` assumes for a node without a record. */
  const Unrecorded := Record(0.0, 0.0, 0)

  /** Percentage of the previous value lost at each step. */
  const Decay := 40.0

  /** Threshold `getActivatedTypedNodes` uses when it is given none. */
  const DefaultThreshold := 90.0

  /** The record of `id`, or the all-zero record when there is none. */
  function Current(records: Records, id: ObjectId): Record {
    if id in records then records[id] else Unrecorded
  }

  /** `getActivationValue`: 0 without a record, else the stored value. */
  function ActivationValue(records: Records, id: ObjectId): (value: real)
    ensures id !in records ==> value == 0.0
    ensures id in records ==> value == records[id].activationValue
  {
    Current(records, id).activationValue
  }

  /** `getOldActivationValue`: 0 without a record, else the stored previous value. */
  function OldActivationValue(records: Records, id: ObjectId): (value: real)
    ensures id !in records ==> value == 0.0
    ensures id in records ==> value == records[id].oldActivationValue
  {
    Current(records, id).oldActivationValue
  }

  /** Sparse representation: a stored record never has activation 0. */
  ghost predicate Sparse(records: Records) {
    forall id :: id in records ==> records[id].activationValue != 0.0
  }

  /** Every stored activation lies in [0, 100]. */
  ghost predicate InRange(records: Records) {
    forall id :: id in records ==> 0.0 <= records[id].activationValue <= 100.0
  }

  /** The records after `setActivationValue(id, value)`: 0 removes the record, any other value
      is `$set` on the record (created if absent) and nothing else changes. */
  function Assigned(records: Records, id: ObjectId, value: real): (r: Records)
    ensures ActivationValue(r, id) == value
    ensures id in r <==> value != 0.0
    ensures id in r ==> r[id].oldActivationValue == OldActivationValue(records, id)
    ensures id in r ==> r[id].age == Current(records, id).age
    ensures forall other :: other != id ==> (other in r <==> other in records)
    ensures forall other :: other != id && other in r ==> r[other] == records[other]
    ensures Sparse(records) ==> Sparse(r)
  {
    if value == 0.0 then records - {id}
    else records[id := Current(records, id).(activationValue := value)]
  }

  // ---------------------------------------------------------------------------------------
  // Filtered queries

  /** Ids of the nodes whose label starts with `prefix`. */
  function LabelledIds(nodes: map<string, Node>, prefix: string): set<ObjectId> {
    set l | l in nodes && prefix <= l :: nodes[l].id
  }

  /** Whether a record of `id` takes part in a maximum restricted by `filter`. */
  function Counted(nodes: map<string, Node>, filter: Option<string>, id: ObjectId): bool {
    filter.None? || id in LabelledIds(nodes, filter.value)
  }

  /** `getMaximumActivationValue`: the largest stored activation among the records counted
      (all of them without a filter, those of nodes whose label starts with the filter
      otherwise), and 0 when no record is counted. */
  function MaximumActivationValue(records: Records, nodes: map<string, Node>, filter: Option<string>): (r: real)
    ensures forall id :: id in records && Counted(nodes, filter, id) ==> records[id].activationValue <= r
    ensures (exists id :: id in records && Counted(nodes, filter, id)) ==>
              exists id :: id in records && Counted(nodes, filter, id) && records[id].activationValue == r
    ensures (forall id :: id in records ==> !Counted(nodes, filter, id)) ==> r == 0.0
  {
    var ids := set id | id in records && Counted(nodes, filter, id);
    if ids == {} then
      assert forall id :: id in records && Counted(nodes, filter, id) ==> id in ids;
      0.0
    else
      var value := (id: ObjectId) => ActivationValue(records, id);
      var m := MaxOf(ids, value);
      assert forall id :: id in ids ==> value(id) == records[id].activationValue;
      m
  }

  /** `getActivatedTypedNodes`: the nodes with a record whose label starts with the filter
      (default "") and whose activation is strictly above the threshold (default 90), each
      paired with its activation. */
  function ActivatedTypedNodes(records: Records, nodes: map<string, Node>, filter: Option<string>,
                               threshold: Option<real>): (r: set<(Node, real)>)
    requires LabelsKeyed(nodes)
    ensures forall p :: p in r ==>
              && p.0.name in nodes && nodes[p.0.name] == p.0
              && filter.GetOr("") <= p.0.name
              && p.0.id in records && p.1 == records[p.0.id].activationValue
              && p.1 > threshold.GetOr(DefaultThreshold)
    ensures forall l :: l in nodes && filter.GetOr("") <= l && nodes[l].id in records &&
                        records[nodes[l].id].activationValue > threshold.GetOr(DefaultThreshold) ==>
                          (nodes[l], records[nodes[l].id].activationValue) in r
  {
    var prefix := filter.GetOr("");
    var bound := threshold.GetOr(DefaultThreshold);
    set l | l in nodes && prefix <= l && nodes[l].id in records && records[nodes[l].id].activationValue > bound
      :: (nodes[l], records[nodes[l].id].activationValue)
  }

  // ---------------------------------------------------------------------------------------
  // Spreading activation

  /** The two transcendental curves of `propagate`: the age penalty
      `200 / (1 + exp(-age / 100)) - 100` and the influence normaliser
      `log(2 + n) / log(2)` for `n` incoming links. */
  datatype Curves = Curves(ageFactor: nat -> real, normaliser: nat -> real)

  /** What the model relies on about the curves: no penalty at age 0, never a negative
      penalty, and a positive normaliser. */
  ghost predicate Admissible(curves: Curves) {
    && curves.ageFactor(0) == 0.0
    && (forall age: nat :: curves.ageFactor(age) >= 0.0)
    && (forall n: nat :: curves.normaliser(n) > 0.0)
  }

  /** One record after the first pass of `propagate`. */
  function Aged(r: Record): Record {
    Record(r.activationValue, r.activationValue, r.age + 1)
  }

  /** First pass of `propagate`: every record is one step older and remembers its current
      activation as the previous one; no record is added or removed. */
  function Snapshot(records: Records): (s: Records)
    ensures s.Keys == records.Keys
    ensures forall id :: id in s ==>
              && s[id].oldActivationValue == records[id].activationValue
              && s[id].activationValue == records[id].activationValue
              && s[id].age == records[id].age + 1
  {
    map id | id in records :: Aged(records[id])
  }

  /** `Math.max(x, 0)` then `Math.min(_, 100)`. */
  function Clamp(x: real): (r: real)
    ensures 0.0 <= r <= 100.0
    ensures 0.0 <= x <= 100.0 ==> r == x
    ensures x < 0.0 ==> r == 0.0
    ensures x > 100.0 ==> r == 100.0
  {
    var atLeastZero := if x < 0.0 then 0.0 else x;
    if atLeastZero > 100.0 then 100.0 else atLeastZero
  }

  /** The new activation of a node with record `state` that receives `influenceNb` links of
      total influence `influenceValue`: the previous value less 40%, plus the normalised
      influence when there is any, less the age penalty, clamped to [0, 100]. */
  function NextValue(state: Record, influenceNb: nat, influenceValue: real, curves: Curves): (v: real)
    requires Admissible(curves)
    ensures 0.0 <= v <= 100.0
  {
    var minusAge := curves.ageFactor(state.age);
    var decayed := state.oldActivationValue - Decay * state.oldActivationValue / 100.0;
    if influenceNb == 0 || influenceValue == 0.0 then Clamp(decayed - minusAge)
    else Clamp(decayed + influenceValue / curves.normaliser(influenceNb) - minusAge)
  }

  /** The influence one link exerts on its target: `0.5 + old(from) * coOcc`. */
  function Weight(snap: Records, links: map<LinkKey, Link>, key: LinkKey): (w: real)
    ensures OldActivationValue(snap, key.0) >= 0.0 && CoOcc(links, key.0, key.1) >= 0 ==> w >= 0.5
  {
    0.5 + OldActivationValue(snap, key.0) * (CoOcc(links, key.0, key.1) as real)
  }

  function Weights(snap: Records, links: map<LinkKey, Link>): LinkKey -> real {
    key => Weight(snap, links, key)
  }

  /** The keys of the links leaving one of `sources`. */
  function KeysFrom(links: map<LinkKey, Link>, sources: set<ObjectId>): set<LinkKey> {
    set k | k in links && k.0 in sources
  }

  /** The keys among `keys` of links entering `target`. */
  function Into(keys: set<LinkKey>, target: ObjectId): set<LinkKey> {
    set k | k in keys && k.1 == target
  }

  /** No link from `sources` enters `target` exactly when the incoming key set is empty. */
  lemma NoIncoming(links: map<LinkKey, Link>, sources: set<ObjectId>, target: ObjectId)
    ensures (|Into(KeysFrom(links, sources), target)| == 0)
        <==> (forall k :: k in links && k.0 in sources ==> k.1 != target)
  {
    var incoming := Into(KeysFrom(links, sources), target);
    if incoming == {} {
      forall k | k in links && k.0 in sources
        ensures k in incoming <==> k.1 == target
      {
      }
    } else {
      var k :| k in incoming;
      assert k in links && k.0 in sources && k.1 == target;
    }
  }

  /** Number of links into `target` from nodes of `sources`. */
  ghost function InfluenceNb(links: map<LinkKey, Link>, sources: set<ObjectId>, target: ObjectId): (n: nat)
    ensures n == 0 <==> forall k :: k in links && k.0 in sources ==> k.1 != target
  {
    NoIncoming(links, sources, target);
    |Into(KeysFrom(links, sources), target)|
  }

  /** Total influence carried by the links into `target` from nodes of `sources`. */
  ghost function InfluenceValue(snap: Records, links: map<LinkKey, Link>, sources: set<ObjectId>, target: ObjectId): (v: real)
    ensures InfluenceNb(links, sources, target) == 0 ==> v == 0.0
  {
    Sum(Into(KeysFrom(links, sources), target), Weights(snap, links))
  }

  /** Reading of the sparse influence arrays: an absent entry is 0. */
  function CountAt(influenceNb: map<ObjectId, nat>, id: ObjectId): nat {
    if id in influenceNb then influenceNb[id] else 0
  }

  function TotalAt(influenceValue: map<ObjectId, real>, id: ObjectId): real {
    if id in influenceValue then influenceValue[id] else 0.0
  }

  /** `influenceNb` holds, for every target, the number of links of `keys` into it. */
  ghost predicate Counts(influenceNb: map<ObjectId, nat>, keys: set<LinkKey>) {
    forall m :: CountAt(influenceNb, m) == |Into(keys, m)|
  }

  /** `influenceValue` holds, for every target, the total weight of the links of `keys` into it. */
  ghost predicate Totals(influenceValue: map<ObjectId, real>, keys: set<LinkKey>, weights: LinkKey -> real) {
    forall m :: TotalAt(influenceValue, m) == Sum(Into(keys, m), weights)
  }

  /** The influence arrays hold the count and the total influence of the links of `keys`. */
  ghost predicate Tallied(influenceNb: map<ObjectId, nat>, influenceValue: map<ObjectId, real>,
                          keys: set<LinkKey>, snap: Records, links: map<LinkKey, Link>) {
    Counts(influenceNb, keys) && Totals(influenceValue, keys, Weights(snap, links))
  }

  /** Adding a key changes only the incoming set of its own target. */
  lemma IntoInsert(keys: set<LinkKey>, key: LinkKey, target: ObjectId)
    ensures Into(keys + {key}, target) == if key.1 == target then Into(keys, target) + {key} else Into(keys, target)
  {
  }

  /** Counting one more link against its target keeps the counts right. */
  lemma CountStep(influenceNb: map<ObjectId, nat>, keys: set<LinkKey>, key: LinkKey)
    requires Counts(influenceNb, keys) && key !in keys
    ensures Counts(influenceNb[key.1 := CountAt(influenceNb, key.1) + 1], keys + {key})
  {
    var nb := influenceNb[key.1 := CountAt(influenceNb, key.1) + 1];
    forall m
      ensures CountAt(nb, m) == |Into(keys + {key}, m)|
    {
      IntoInsert(keys, key, m);
    }
  }

  /** Adding one more link's weight to its target keeps the totals right. */
  lemma TotalStep(influenceValue: map<ObjectId, real>, keys: set<LinkKey>, weights: LinkKey -> real, key: LinkKey)
    requires Totals(influenceValue, keys, weights) && key !in keys
    ensures Totals(influenceValue[key.1 := TotalAt(influenceValue, key.1) + weights(key)], keys + {key}, weights)
  {
    var total := influenceValue[key.1 := TotalAt(influenceValue, key.1) + weights(key)];
    forall m
      ensures TotalAt(total, m) == Sum(Into(keys + {key}, m), weights)
    {
      IntoInsert(keys, key, m);
      if m == key.1 {
        SumInsert(Into(keys, m), weights, key);
      }
    }
  }

  /** Accumulating one more link keeps the arrays tallied. */
  lemma TallyStep(influenceNb: map<ObjectId, nat>, influenceValue: map<ObjectId, real>,
                  keys: set<LinkKey>, snap: Records, links: map<LinkKey, Link>, key: LinkKey)
    requires Tallied(influenceNb, influenceValue, keys, snap, links)
    requires key !in keys
    ensures Tallied(influenceNb[key.1 := CountAt(influenceNb, key.1) + 1],
                    influenceValue[key.1 := TotalAt(influenceValue, key.1) + Weight(snap, links, key)],
                    keys + {key}, snap, links)
  {
    CountStep(influenceNb, keys, key);
    TotalStep(influenceValue, keys, Weights(snap, links), key);
  }

  /** The new activation `propagate` computes for node `id` from the aged records `snap`. */
  ghost function Revised(snap: Records, sources: set<ObjectId>, links: map<LinkKey, Link>,
                         curves: Curves, id: ObjectId): (v: real)
    requires Admissible(curves)
    ensures 0.0 <= v <= 100.0
  {
    NextValue(Current(snap, id), InfluenceNb(links, sources, id), InfluenceValue(snap, links, sources, id), curves)
  }

  /** The revised activation of every node of `sources`. */
  ghost function Revisions(snap: Records, sources: set<ObjectId>, links: map<LinkKey, Link>,
                           curves: Curves): (revised: map<ObjectId, real>)
    requires Admissible(curves)
    ensures revised.Keys == sources
  {
    map id | id in sources :: Revised(snap, sources, links, curves, id)
  }

  /** `snap` with each id of `values` written back through `setActivationValue`: 0 deletes the
      record, any other value is set on the (possibly new) record; other ids keep their record. */
  ghost function Overwritten(snap: Records, values: map<ObjectId, real>): Records {
    map id | id in snap.Keys + values.Keys && (id in values ==> values[id] != 0.0)
      :: if id in values then Current(snap, id).(activationValue := values[id]) else snap[id]
  }

  /** Third pass of `propagate`: every node of `sources` gets its revised activation written
      back; records of ids that are not nodes stay as they are. */
  ghost function Settled(snap: Records, sources: set<ObjectId>, links: map<LinkKey, Link>,
                         curves: Curves): Records
    requires Admissible(curves)
  {
    Overwritten(snap, Revisions(snap, sources, links, curves))
  }

  /** The records after `propagate` on a graph whose node ids are `sources`. */
  ghost function Propagated(records: Records, sources: set<ObjectId>, links: map<LinkKey, Link>,
                            curves: Curves): Records
    requires Admissible(curves)
  {
    Settled(Snapshot(records), sources, links, curves)
  }

  /** Every id of `done` has been written back with the value `written` gives it: absent when
      that value is 0, otherwise its snapshot record with that activation. */
  ghost predicate WrittenBack(records: Records, snap: Records, written: map<ObjectId, real>, done: set<ObjectId>) {
    forall id :: id in done ==>
      && id in written
      && (id in records <==> written[id] != 0.0)
      && (id in records ==> records[id] == Current(snap, id).(activationValue := written[id]))
  }

  /** Every id outside `done` still has its snapshot record (or none). */
  ghost predicate Untouched(records: Records, snap: Records, done: set<ObjectId>) {
    forall id :: id !in done ==> (id in records <==> id in snap) && (id in records ==> records[id] == snap[id])
  }

  /** `setActivationValue` on one more id extends what has been written back. */
  lemma WriteBackStep(records: Records, snap: Records, written: map<ObjectId, real>, done: set<ObjectId>,
                      id: ObjectId, value: real)
    requires WrittenBack(records, snap, written, done) && Untouched(records, snap, done)
    requires id !in done
    ensures WrittenBack(Assigned(records, id, value), snap, written[id := value], done + {id})
    ensures Untouched(Assigned(records, id, value), snap, done + {id})
  {
    assert Current(records, id) == Current(snap, id);
  }

  /** What `Overwritten` holds for one id. */
  lemma OverwrittenAt(snap: Records, values: map<ObjectId, real>, id: ObjectId)
    ensures var t := Overwritten(snap, values);
      && (id in values ==> (id in t <==> values[id] != 0.0))
      && (id in values && id in t ==> t[id] == Current(snap, id).(activationValue := values[id]))
      && (id !in values ==> (id in t <==> id in snap))
      && (id !in values && id in t ==> t[id] == snap[id])
  {
  }

  /** Once every id of `written` has been written back, the records are `Overwritten`. */
  lemma OverwrittenPointwise(r: Records, snap: Records, written: map<ObjectId, real>)
    requires WrittenBack(r, snap, written, written.Keys) && Untouched(r, snap, written.Keys)
    ensures r == Overwritten(snap, written)
  {
    var t := Overwritten(snap, written);
    forall id
      ensures id in r <==> id in t
      ensures id in r ==> r[id] == t[id]
    {
      OverwrittenAt(snap, written, id);
    }
  }

  /** Values that agree with `Revised` on exactly the nodes are the `Revisions`. */
  lemma RevisionsAgree(written: map<ObjectId, real>, snap: Records, sources: set<ObjectId>,
                       links: map<LinkKey, Link>, curves: Curves)
    requires Admissible(curves)
    requires written.Keys == sources
    requires forall id {:trigger written[id]} :: id in written ==> written[id] == Revised(snap, sources, links, curves, id)
    ensures written == Revisions(snap, sources, links, curves)
  {
    var revised := Revisions(snap, sources, links, curves);
    forall id | id in sources
      ensures written[id] == revised[id]
    {
    }
  }

  // ---------------------------------------------------------------------------------------
  // Properties of one propagation step

  /** Every record after the step was aged from the record before it (or starts at age 0),
      and remembers the activation the node had before the step. */
  lemma PropagatedRemembersPrevious(records: Records, sources: set<ObjectId>, links: map<LinkKey, Link>,
                                    curves: Curves, id: ObjectId)
    requires Admissible(curves)
    ensures var r := Propagated(records, sources, links, curves);
      id in r ==> && r[id].oldActivationValue == ActivationValue(records, id)
                  && r[id].age == (if id in records then records[id].age + 1 else 0)
  {
  }

  /** Every node's activation after the step lies in (0, 100], 0 having deleted the record;
      the step keeps every activation in [0, 100] and the representation sparse. */
  lemma PropagatedBounds(records: Records, sources: set<ObjectId>, links: map<LinkKey, Link>, curves: Curves)
    requires Admissible(curves)
    ensures var r := Propagated(records, sources, links, curves);
      forall id :: id in r && id in sources ==> 0.0 < r[id].activationValue <= 100.0
    ensures InRange(records) ==> InRange(Propagated(records, sources, links, curves))
    ensures Sparse(records) ==> Sparse(Propagated(records, sources, links, curves))
  {
  }

  /** A record of an id that is not a node of the graph is only aged. */
  lemma PropagatedOffGraph(records: Records, sources: set<ObjectId>, links: map<LinkKey, Link>,
                           curves: Curves, id: ObjectId)
    requires Admissible(curves) && id !in sources
    ensures var r := Propagated(records, sources, links, curves);
      && (id in r <==> id in records)
      && (id in r ==> r[id] == Aged(records[id]))
  {
  }

  /** A node no link reaches ends the step strictly below the positive activation it had. */
  lemma PropagatedDecays(records: Records, sources: set<ObjectId>, links: map<LinkKey, Link>,
                         curves: Curves, id: ObjectId)
    requires Admissible(curves) && id in sources
    requires InfluenceNb(links, sources, id) == 0
    requires ActivationValue(records, id) > 0.0
    ensures ActivationValue(Propagated(records, sources, links, curves), id) < ActivationValue(records, id)
  {
    var snap := Snapshot(records);
    var previous := ActivationValue(records, id);
    var state := Current(snap, id);
    assert state.oldActivationValue == previous;
    assert curves.ageFactor(state.age) >= 0.0;
    var raw := previous - Decay * previous / 100.0 - curves.ageFactor(state.age);
    assert raw < previous;
    assert Revised(snap, sources, links, curves, id) == Clamp(raw);
  }

  /** A node without a record that is reached by a link from a node of the graph becomes
      active, provided no stored activation and no co-occurrence count is negative. */
  lemma PropagatedActivates(records: Records, sources: set<ObjectId>, links: map<LinkKey, Link>,
                            curves: Curves, id: ObjectId, feeder: LinkKey)
    requires Admissible(curves) && id in sources && id !in records
    requires feeder in links && feeder.0 in sources && feeder.1 == id
    requires forall k :: k in links ==> links[k].coOcc >= 0
    requires forall x :: x in records ==> records[x].activationValue >= 0.0
    ensures ActivationValue(Propagated(records, sources, links, curves), id) > 0.0
  {
    var snap := Snapshot(records);
    var incoming := Into(KeysFrom(links, sources), id);
    assert feeder in incoming;
    forall k | k in incoming
      ensures Weights(snap, links)(k) > 0.0
    {
      var ov := OldActivationValue(snap, k.0);
      var co := CoOcc(links, k.0, k.1) as real;
      assert ov >= 0.0 && co >= 0.0;
      assert ov * co >= 0.0;
    }
    SumPositive(incoming, Weights(snap, links));
    var nb := InfluenceNb(links, sources, id);
    var total := InfluenceValue(snap, links, sources, id);
    assert nb > 0 && total > 0.0;
    var share := total / curves.normaliser(nb);
    assert share > 0.0;
    assert Current(snap, id) == Unrecorded;
    assert Revised(snap, sources, links, curves, id) == Clamp(share);
  }

  /** On a graph without nodes and a state without records the step changes nothing. */
  lemma PropagatedEmpty(links: map<LinkKey, Link>, curves: Curves)
    requires Admissible(curves)
    ensures Propagated(map[], {}, links, curves) == map[]
  {
  }

  // ---------------------------------------------------------------------------------------
  // The state object

  class ConceptNetworkState {
    const cn: ConceptNetwork
    var records: Records

    constructor (cn: ConceptNetwork)
      ensures this.cn == cn && records == map[]
    {
      this.cn := cn;
      records := map[];
    }

    /** `activate`: `$set` activation 100 on the node's record, creating it if absent;
        returns the record. */
    method Activate(nodeId: ObjectId) returns (state: Record)
      modifies this
      ensures records == Assigned(old(records), nodeId, 100.0)
      ensures nodeId in records && state == records[nodeId] && state.activationValue == 100.0
    {
      var value := 100.0;
      records := records[nodeId := Current(records, nodeId).(activationValue := value)];
      state := records[nodeId];
    }

    /** `setActivationValue`: 0 removes the record, any other value is `$set` (upsert). */
    method SetActivationValue(nodeId: ObjectId, value: real)
      modifies this
      ensures records == Assigned(old(records), nodeId, value)
    {
      if value == 0.0 {
        records := records - {nodeId};
      } else {
        records := records[nodeId := Current(records, nodeId).(activationValue := value)];
      }
    }

    /** `propagate`: one spreading-activation step over the whole graph. */
    method Propagate(curves: Curves)
      requires cn.Valid() && Admissible(curves)
      modifies this
      ensures records == Propagated(old(records), cn.NodeIds(), cn.links, curves)
    {
      Age();
      var influenceNb, influenceValue := Influences();
      Settle(influenceNb, influenceValue, curves);
    }

    /** First loop of `propagate`: ages every record and freezes its activation as the previous
        one, before any influence is read. */
    method Age()
      modifies this
      ensures records == Snapshot(old(records))
    {
      var pending := records.Keys;
      while pending != {}
        invariant pending <= records.Keys == old(records).Keys
        invariant forall id :: id in records ==>
                    records[id] == if id in pending then old(records)[id] else Aged(old(records)[id])
        decreases pending
      {
        var id :| id in pending;
        records := records[id := Aged(records[id])];
        pending := pending - {id};
      }
    }

    /** Second loop of `propagate`: for every node and every link leaving it, counts the link
        against its target and adds `0.5 + old(from) * coOcc` to the target's influence. */
    method Influences() returns (influenceNb: map<ObjectId, nat>, influenceValue: map<ObjectId, real>)
      requires cn.Valid()
      ensures forall m :: CountAt(influenceNb, m) == InfluenceNb(cn.links, cn.NodeIds(), m)
      ensures forall m :: TotalAt(influenceValue, m) == InfluenceValue(records, cn.links, cn.NodeIds(), m)
    {
      influenceNb, influenceValue := map[], map[];
      var sources := cn.NodeIds();
      var todo := sources;
      while todo != {}
        invariant todo <= sources
        invariant Tallied(influenceNb, influenceValue, KeysFrom(cn.links, sources - todo), records, cn.links)
        decreases todo
      {
        var nodeId :| nodeId in todo;
        var outgoing := cn.NodeFromLinks(nodeId);
        influenceNb, influenceValue := Spread(nodeId, outgoing, influenceNb, influenceValue, KeysFrom(cn.links, sources - todo));
        assert KeysFrom(cn.links, sources - todo) + KeysFrom(cn.links, {nodeId})
            == KeysFrom(cn.links, sources - (todo - {nodeId}));
        todo := todo - {nodeId};
      }
      assert sources - todo == sources;
    }

    /** Inner loop of the second pass: adds the links leaving `nodeId`, which are `outgoing`, to
        influence arrays that already hold the links of `fed`. */
    method Spread(nodeId: ObjectId, outgoing: set<Link>, influenceNb: map<ObjectId, nat>,
                  influenceValue: map<ObjectId, real>, ghost fed: set<LinkKey>)
      returns (nb: map<ObjectId, nat>, value: map<ObjectId, real>)
      requires forall k :: k in cn.links && k.0 == nodeId ==>
                 cn.links[k] in outgoing && (cn.links[k].fromId, cn.links[k].toId) == k
      requires forall l :: l in outgoing ==>
                 l.fromId == nodeId && (l.fromId, l.toId) in cn.links && cn.links[(l.fromId, l.toId)] == l
      requires forall k :: k in fed ==> k.0 != nodeId
      requires Tallied(influenceNb, influenceValue, fed, records, cn.links)
      ensures Tallied(nb, value, fed + KeysFrom(cn.links, {nodeId}), records, cn.links)
    {
      nb, value := influenceNb, influenceValue;
      var ov := OldActivationValue(records, nodeId);
      var out := set l | l in outgoing :: (l.fromId, l.toId);
      ghost var all := KeysFrom(cn.links, {nodeId});
      assert out == all;
      ghost var tallied := fed;
      while out != {}
        invariant out <= all
        invariant tallied == fed + (all - out)
        invariant Tallied(nb, value, tallied, records, cn.links)
        decreases out
      {
        var key :| key in out;
        var influence := 0.5 + ov * cn.links[key].coOcc as real;
        assert influence == Weight(records, cn.links, key);
        TallyStep(nb, value, tallied, records, cn.links, key);
        value := value[key.1 := TotalAt(value, key.1) + influence];
        nb := nb[key.1 := CountAt(nb, key.1) + 1];
        tallied := tallied + {key};
        out := out - {key};
      }
      assert tallied == fed + all;
    }

    /** Third loop of `propagate`: writes back every node's new activation through
        `setActivationValue`, so that 0 deletes the record. */
    method Settle(influenceNb: map<ObjectId, nat>, influenceValue: map<ObjectId, real>, curves: Curves)
      requires Admissible(curves)
      requires forall m :: CountAt(influenceNb, m) == InfluenceNb(cn.links, cn.NodeIds(), m)
      requires forall m :: TotalAt(influenceValue, m) == InfluenceValue(records, cn.links, cn.NodeIds(), m)
      modifies this
      ensures records == Settled(old(records), cn.NodeIds(), cn.links, curves)
    {
      var sources := cn.NodeIds();
      ghost var links := cn.links;
      ghost var snap := records;
      ghost var written: map<ObjectId, real> := map[];
      var rest := sources;
      while rest != {}
        invariant rest <= sources && written.Keys == sources - rest
        invariant WrittenBack(records, snap, written, written.Keys) && Untouched(records, snap, written.Keys)
        invariant forall id {:trigger written[id]} :: id in written ==> written[id] == Revised(snap, sources, links, curves, id)
        decreases rest
      {
        var nodeId :| nodeId in rest;
        var value := NextValue(Current(records, nodeId), CountAt(influenceNb, nodeId),
                               TotalAt(influenceValue, nodeId), curves);
        assert value == Revised(snap, sources, links, curves, nodeId);
        WriteBackStep(records, snap, written, written.Keys, nodeId, value);
        SetActivationValue(nodeId, value);
        written := written[nodeId := value];
        rest := rest - {nodeId};
      }
      RevisionsAgree(written, snap, sources, links, curves);
      OverwrittenPointwise(records, snap, written);
    }
  }
}
