/**
 * The concept graph store: concepts (nodes) unique by label with an occurrence counter, and
 * directed links unique by their ordered pair of node ids with a co-occurrence counter.
 *
 * The store keeps every document in one collection and lets it assign `_id`s. Here the
 * collection becomes two tables held by a `ConceptNetwork` object, a node table keyed by label
 * and a link table keyed by `(fromId, toId)`, and the `_id` assignment becomes an explicit
 * allocator `nextId` shared by both tables, as the one collection shares its `_id` space.
 * Every mutator is an upsert-and-increment or a decrement-then-delete-at-zero on one table;
 * the pure functions `NodeAdded`, `NodeDecremented`, `LinkAdded`, `LinkDecremented`,
 * `NodesWithoutId` and `LinksWithoutId` describe those table updates and the methods are
 * proved against them.
 */
module ConceptGraph {
  import opened Wrappers

  /** An opaque store-assigned identifier; never interpreted arithmetically. */
  datatype ObjectId = ObjectId(serial: nat)

  /** The natural key of a link: its ordered pair of node ids. */
  type LinkKey = (ObjectId, ObjectId)

  /** A concept; `name` holds the node's `label` (a reserved word in Dafny). */
  datatype Node = Node(id: ObjectId, name: string, occ: int)
  datatype Link = Link(id: ObjectId, fromId: ObjectId, toId: ObjectId, coOcc: int)

  /** A value a caller may pass to `addLink`: only an id is an object, numbers and strings
      are not. */
  datatype Arg = IdArg(id: ObjectId) | NumberArg(n: int) | StringArg(s: string)

  datatype LinkError = FromIdNotObject | ToIdNotObject

  /** Occurrence count of a label, 0 for a label without a node. */
  function Occ(nodes: map<string, Node>, name: string): int {
    if name in nodes then nodes[name].occ else 0
  }

  /** Co-occurrence count of an ordered pair, 0 for a pair without a link. */
  function CoOcc(links: map<LinkKey, Link>, fromId: ObjectId, toId: ObjectId): int {
    if (fromId, toId) in links then links[(fromId, toId)].coOcc else 0
  }

  /** Each node is stored under its own label. */
  ghost predicate LabelsKeyed(nodes: map<string, Node>) {
    forall l :: l in nodes ==> nodes[l].name == l
  }

  /** Each link is stored under its own ordered pair. */
  ghost predicate PairsKeyed(links: map<LinkKey, Link>) {
    forall k :: k in links ==> links[k].fromId == k.0 && links[k].toId == k.1
  }

  /** The collection's invariant: one node per label and one link per ordered pair (the
      tables' keys), no stored counter at zero, every id issued by the allocator, and no id
      shared by two documents. */
  ghost predicate WellFormed(nodes: map<string, Node>, links: map<LinkKey, Link>, nextId: nat) {
    && LabelsKeyed(nodes)
    && PairsKeyed(links)
    && (forall l :: l in nodes ==> nodes[l].occ >= 1 && nodes[l].id.serial < nextId)
    && (forall k :: k in links ==> links[k].coOcc >= 1 && links[k].id.serial < nextId)
    && (forall l, l' :: l in nodes && l' in nodes && nodes[l].id == nodes[l'].id ==> l == l')
    && (forall k, k' :: k in links && k' in links && links[k].id == links[k'].id ==> k == k')
    && (forall l, k :: l in nodes && k in links ==> nodes[l].id != links[k].id)
  }

  // ---------------------------------------------------------------------------------------
  // Table updates

  /** `findAndModify({label}, {$inc: {occ: 1}}, upsert)`: the node gains exactly one
      occurrence, a new label gets a node with the fresh id, and no other node changes. */
  function NodeAdded(nodes: map<string, Node>, name: string, freshId: ObjectId): (r: map<string, Node>)
    ensures Occ(r, name) == Occ(nodes, name) + 1
    ensures name in r && r[name].id == (if name in nodes then nodes[name].id else freshId)
    ensures name in nodes ==> r[name] == nodes[name].(occ := nodes[name].occ + 1)
    ensures name !in nodes ==> r[name].name == name
    ensures r.Keys == nodes.Keys + {name}
    ensures forall l :: l in nodes && l != name ==> r[l] == nodes[l]
  {
    var node := if name in nodes then nodes[name].(occ := nodes[name].occ + 1)
                else Node(freshId, name, 1);
    nodes[name := node]
  }

  /** `findAndModify({label}, {$inc: {occ: -1}})` followed by removal when the count reaches
      0: the node loses exactly one occurrence, is gone exactly when it had one, and no other
      node changes. */
  function NodeDecremented(nodes: map<string, Node>, name: string): (r: map<string, Node>)
    requires name in nodes
    ensures Occ(r, name) == Occ(nodes, name) - 1
    ensures name in r <==> nodes[name].occ != 1
    ensures name in r ==> r[name] == nodes[name].(occ := nodes[name].occ - 1)
    ensures r.Keys <= nodes.Keys
    ensures forall l :: l in nodes && l != name ==> l in r && r[l] == nodes[l]
  {
    var node := nodes[name].(occ := nodes[name].occ - 1);
    if node.occ == 0 then nodes - {name} else nodes[name := node]
  }

  /** `findAndModify({fromId, toId}, {$inc: {coOcc: 1}}, upsert)`: the pair gains exactly one
      co-occurrence, a new pair gets a link with the fresh id, and no other link changes. */
  function LinkAdded(links: map<LinkKey, Link>, fromId: ObjectId, toId: ObjectId, freshId: ObjectId)
    : (r: map<LinkKey, Link>)
    ensures CoOcc(r, fromId, toId) == CoOcc(links, fromId, toId) + 1
    ensures (fromId, toId) in r
    ensures r[(fromId, toId)].id == (if (fromId, toId) in links then links[(fromId, toId)].id else freshId)
    ensures (fromId, toId) in links ==> r[(fromId, toId)] == links[(fromId, toId)].(coOcc := links[(fromId, toId)].coOcc + 1)
    ensures (fromId, toId) !in links ==> r[(fromId, toId)].fromId == fromId && r[(fromId, toId)].toId == toId
    ensures r.Keys == links.Keys + {(fromId, toId)}
    ensures forall k :: k in links && k != (fromId, toId) ==> r[k] == links[k]
  {
    var key := (fromId, toId);
    var link := if key in links then links[key].(coOcc := links[key].coOcc + 1)
                else Link(freshId, fromId, toId, 1);
    links[key := link]
  }

  /** `findAndModify({fromId, toId}, {$inc: {coOcc: -1}})` followed by removal at 0. */
  function LinkDecremented(links: map<LinkKey, Link>, fromId: ObjectId, toId: ObjectId): (r: map<LinkKey, Link>)
    requires (fromId, toId) in links
    ensures CoOcc(r, fromId, toId) == CoOcc(links, fromId, toId) - 1
    ensures (fromId, toId) in r <==> links[(fromId, toId)].coOcc != 1
    ensures (fromId, toId) in r ==> r[(fromId, toId)] == links[(fromId, toId)].(coOcc := links[(fromId, toId)].coOcc - 1)
    ensures r.Keys <= links.Keys
    ensures forall k :: k in links && k != (fromId, toId) ==> k in r && r[k] == links[k]
  {
    var key := (fromId, toId);
    var link := links[key].(coOcc := links[key].coOcc - 1);
    if link.coOcc == 0 then links - {key} else links[key := link]
  }

  /** The node table after `remove({_id: id})`: every node with that id is gone. */
  function NodesWithoutId(nodes: map<string, Node>, id: ObjectId): (r: map<string, Node>)
    ensures forall l :: l in r <==> l in nodes && nodes[l].id != id
    ensures forall l :: l in r ==> r[l] == nodes[l]
  {
    map l | l in nodes && nodes[l].id != id :: nodes[l]
  }

  /** The link table after `remove({_id: id})`: every link with that id is gone. */
  function LinksWithoutId(links: map<LinkKey, Link>, id: ObjectId): (r: map<LinkKey, Link>)
    ensures forall k :: k in r <==> k in links && links[k].id != id
    ensures forall k :: k in r ==> r[k] == links[k]
  {
    map k | k in links && links[k].id != id :: links[k]
  }

  // ---------------------------------------------------------------------------------------
  // Properties of the table updates

  /** Adding a node keeps the collection well formed. */
  lemma NodeAddedWellFormed(nodes: map<string, Node>, links: map<LinkKey, Link>, nextId: nat, name: string)
    requires WellFormed(nodes, links, nextId)
    ensures WellFormed(NodeAdded(nodes, name, ObjectId(nextId)), links,
                       if name in nodes then nextId else nextId + 1)
  {
  }

  /** Decrementing an existing node keeps the collection well formed. */
  lemma NodeDecrementedWellFormed(nodes: map<string, Node>, links: map<LinkKey, Link>, nextId: nat, name: string)
    requires WellFormed(nodes, links, nextId) && name in nodes
    ensures WellFormed(NodeDecremented(nodes, name), links, nextId)
  {
  }

  /** Adding a link keeps the collection well formed. */
  lemma LinkAddedWellFormed(nodes: map<string, Node>, links: map<LinkKey, Link>, nextId: nat,
                            fromId: ObjectId, toId: ObjectId)
    requires WellFormed(nodes, links, nextId)
    ensures WellFormed(nodes, LinkAdded(links, fromId, toId, ObjectId(nextId)),
                       if (fromId, toId) in links then nextId else nextId + 1)
  {
  }

  /** Decrementing an existing link keeps the collection well formed. */
  lemma LinkDecrementedWellFormed(nodes: map<string, Node>, links: map<LinkKey, Link>, nextId: nat,
                                  fromId: ObjectId, toId: ObjectId)
    requires WellFormed(nodes, links, nextId) && (fromId, toId) in links
    ensures WellFormed(nodes, LinkDecremented(links, fromId, toId), nextId)
  {
  }

  /** Removing by id keeps the collection well formed. */
  lemma WithoutIdWellFormed(nodes: map<string, Node>, links: map<LinkKey, Link>, nextId: nat, id: ObjectId)
    requires WellFormed(nodes, links, nextId)
    ensures WellFormed(NodesWithoutId(nodes, id), LinksWithoutId(links, id), nextId)
  {
  }

  /** Removing a node by its id removes that node only and no link: node removal does not
      cascade to the links from or to the node. */
  lemma RemoveNodeDoesNotCascade(nodes: map<string, Node>, links: map<LinkKey, Link>, nextId: nat, name: string)
    requires WellFormed(nodes, links, nextId) && name in nodes
    ensures NodesWithoutId(nodes, nodes[name].id) == nodes - {name}
    ensures LinksWithoutId(links, nodes[name].id) == links
  {
  }

  /** Removing a link by its id removes that link only and no node. */
  lemma RemoveLinkKeepsNodes(nodes: map<string, Node>, links: map<LinkKey, Link>, nextId: nat, key: LinkKey)
    requires WellFormed(nodes, links, nextId) && key in links
    ensures LinksWithoutId(links, links[key].id) == links - {key}
    ensures NodesWithoutId(nodes, links[key].id) == nodes
  {
  }

  /** Removing, by its id, a node whose count has just dropped to 0 leaves the decremented
      table and every link. */
  lemma RemoveSpentNode(nodes: map<string, Node>, links: map<LinkKey, Link>, nextId: nat, name: string)
    requires WellFormed(nodes, links, nextId) && name in nodes && nodes[name].occ == 1
    ensures var spent := nodes[name := nodes[name].(occ := 0)];
      && NodesWithoutId(spent, nodes[name].id) == NodeDecremented(nodes, name)
      && LinksWithoutId(links, nodes[name].id) == links
  {
    var spent := nodes[name := nodes[name].(occ := 0)];
    RemoveNodeDoesNotCascade(nodes, links, nextId, name);
    assert NodesWithoutId(spent, nodes[name].id) == NodesWithoutId(nodes, nodes[name].id);
  }

  /** Removing, by its id, a link whose count has just dropped to 0 leaves the decremented
      table and every node. */
  lemma RemoveSpentLink(nodes: map<string, Node>, links: map<LinkKey, Link>, nextId: nat, key: LinkKey)
    requires WellFormed(nodes, links, nextId) && key in links && links[key].coOcc == 1
    ensures var spent := links[key := links[key].(coOcc := 0)];
      && LinksWithoutId(spent, links[key].id) == LinkDecremented(links, key.0, key.1)
      && NodesWithoutId(nodes, links[key].id) == nodes
  {
    var spent := links[key := links[key].(coOcc := 0)];
    RemoveLinkKeepsNodes(nodes, links, nextId, key);
    assert LinksWithoutId(spent, links[key].id) == LinksWithoutId(links, links[key].id);
  }

  /** `decrementNode` undoes `addNode`. */
  lemma AddThenDecrementNode(nodes: map<string, Node>, name: string, freshId: ObjectId)
    requires name in nodes ==> nodes[name].occ != 0
    ensures NodeDecremented(NodeAdded(nodes, name, freshId), name) == nodes
  {
    if name !in nodes {
      assert NodeAdded(nodes, name, freshId) - {name} == nodes;
    }
  }

  /** `decrementLink` undoes `addLink`. */
  lemma AddThenDecrementLink(links: map<LinkKey, Link>, fromId: ObjectId, toId: ObjectId, freshId: ObjectId)
    requires (fromId, toId) in links ==> links[(fromId, toId)].coOcc != 0
    ensures LinkDecremented(LinkAdded(links, fromId, toId, freshId), fromId, toId) == links
  {
    if (fromId, toId) !in links {
      assert LinkAdded(links, fromId, toId, freshId) - {(fromId, toId)} == links;
    }
  }

  /** The node table after `addNode` is called once for each label of `names`, in order,
      starting with the allocator at `nextId`. */
  function AddNodes(nodes: map<string, Node>, names: seq<string>, nextId: nat): map<string, Node>
    decreases |names|
  {
    if names == [] then nodes
    else AddNodes(NodeAdded(nodes, names[0], ObjectId(nextId)), names[1..],
                  if names[0] in nodes then nextId else nextId + 1)
  }

  /** Counting law: after a run of `addNode` calls each label's occurrence count has grown by
      the number of calls naming it. */
  lemma {:induction false} AddNodesCounts(nodes: map<string, Node>, names: seq<string>, nextId: nat, name: string)
    ensures Occ(AddNodes(nodes, names, nextId), name) == Occ(nodes, name) + multiset(names)[name]
    decreases |names|
  {
    if names != [] {
      var next := NodeAdded(nodes, names[0], ObjectId(nextId));
      AddNodesCounts(next, names[1..], if names[0] in nodes then nextId else nextId + 1, name);
      assert names == [names[0]] + names[1..];
      assert multiset(names) == multiset{names[0]} + multiset(names[1..]);
    }
  }

  /** After a run of `addNode` calls the labels with a node are the earlier ones plus the
      labels named, one node each. */
  lemma {:induction false} AddNodesLabels(nodes: map<string, Node>, names: seq<string>, nextId: nat)
    ensures AddNodes(nodes, names, nextId).Keys == nodes.Keys + set x | x in names
    decreases |names|
  {
    if names != [] {
      var next := NodeAdded(nodes, names[0], ObjectId(nextId));
      AddNodesLabels(next, names[1..], if names[0] in nodes then nextId else nextId + 1);
      assert (set x | x in names) == {names[0]} + set x | x in names[1..];
    }
  }

  /** The addNode test run: "Chuck Norris" twice, "World" once, then "Chuck Norris" again on
      an empty collection leaves two nodes, with occurrence counts 3 and 1. */
  lemma AddNodesExample()
    ensures var nodes := AddNodes(map[], ["Chuck Norris", "Chuck Norris", "World", "Chuck Norris"], 0);
      && Occ(nodes, "Chuck Norris") == 3 && Occ(nodes, "World") == 1 && |nodes| == 2
  {
    var names := ["Chuck Norris", "Chuck Norris", "World", "Chuck Norris"];
    AddNodesCounts(map[], names, 0, "Chuck Norris");
    AddNodesCounts(map[], names, 0, "World");
    AddNodesLabels(map[], names, 0);
    assert (set x | x in names) == {"Chuck Norris", "World"};
  }

  /** The node table after `decrementNode(name)` is called `k` times in a row. The source
      fails on a label that has no node; the run stops at that point, which
      `DecrementNodesRun` rules out. */
  function DecrementNodes(nodes: map<string, Node>, name: string, k: nat): map<string, Node>
    decreases k
  {
    if k == 0 || name !in nodes then nodes
    else DecrementNodes(NodeDecremented(nodes, name), name, k - 1)
  }

  /** Decrement law: `k` calls of `decrementNode` on a label counted `n >= k` times leave it
      counted `n - k` (the node the `k`-th call returns) and remove it exactly when `k == n`;
      no other node changes. */
  lemma {:induction false} DecrementNodesRun(nodes: map<string, Node>, name: string, k: nat)
    requires name in nodes && 1 <= nodes[name].occ && k <= nodes[name].occ
    ensures var r := DecrementNodes(nodes, name, k);
      && (name in r <==> k < nodes[name].occ)
      && (name in r ==> r[name] == nodes[name].(occ := nodes[name].occ - k))
      && (forall l :: l in nodes && l != name ==> l in r && r[l] == nodes[l])
      && r.Keys <= nodes.Keys
    decreases k
  {
    if k > 0 {
      var next := NodeDecremented(nodes, name);
      if nodes[name].occ == 1 {
        assert name !in next;
        assert DecrementNodes(next, name, k - 1) == next;
      } else {
        DecrementNodesRun(next, name, k - 1);
      }
    }
  }

  /** The decrementNode test run, after the addNode run: "Chuck Norris" drops from 3 to 2 and
      keeps its id, "World" drops from 1 and is removed. */
  lemma DecrementNodesExample()
    ensures var nodes := AddNodes(map[], ["Chuck Norris", "Chuck Norris", "World", "Chuck Norris"], 0);
      && Occ(DecrementNodes(nodes, "Chuck Norris", 1), "Chuck Norris") == 2
      && "World" !in DecrementNodes(nodes, "World", 1)
  {
    var nodes := AddNodes(map[], ["Chuck Norris", "Chuck Norris", "World", "Chuck Norris"], 0);
    AddNodesExample();
    DecrementNodesRun(nodes, "Chuck Norris", 1);
    DecrementNodesRun(nodes, "World", 1);
  }

  /** The link table after `addLink` is called once for each pair of `pairs`, in order,
      starting with the allocator at `nextId`. */
  function AddLinks(links: map<LinkKey, Link>, pairs: seq<LinkKey>, nextId: nat): map<LinkKey, Link>
    decreases |pairs|
  {
    if pairs == [] then links
    else AddLinks(LinkAdded(links, pairs[0].0, pairs[0].1, ObjectId(nextId)), pairs[1..],
                  if pairs[0] in links then nextId else nextId + 1)
  }

  /** Counting law: after a run of `addLink` calls each pair's co-occurrence count has grown
      by the number of calls naming it. */
  lemma {:induction false} AddLinksCounts(links: map<LinkKey, Link>, pairs: seq<LinkKey>, nextId: nat, key: LinkKey)
    ensures CoOcc(AddLinks(links, pairs, nextId), key.0, key.1) == CoOcc(links, key.0, key.1) + multiset(pairs)[key]
    decreases |pairs|
  {
    if pairs != [] {
      var next := LinkAdded(links, pairs[0].0, pairs[0].1, ObjectId(nextId));
      AddLinksCounts(next, pairs[1..], if pairs[0] in links then nextId else nextId + 1, key);
      assert pairs == [pairs[0]] + pairs[1..];
      assert multiset(pairs) == multiset{pairs[0]} + multiset(pairs[1..]);
    }
  }

  /** The link table after `decrementLink(key)` is called `k` times in a row; as for nodes,
      the run stops at a pair without a link, where the source fails. */
  function DecrementLinks(links: map<LinkKey, Link>, key: LinkKey, k: nat): map<LinkKey, Link>
    decreases k
  {
    if k == 0 || key !in links then links
    else DecrementLinks(LinkDecremented(links, key.0, key.1), key, k - 1)
  }

  /** Decrement law for links: `k` calls of `decrementLink` on a pair counted `n >= k` times
      leave it counted `n - k` and remove it exactly when `k == n`; no other link changes. */
  lemma {:induction false} DecrementLinksRun(links: map<LinkKey, Link>, key: LinkKey, k: nat)
    requires key in links && 1 <= links[key].coOcc && k <= links[key].coOcc
    ensures var r := DecrementLinks(links, key, k);
      && (key in r <==> k < links[key].coOcc)
      && (key in r ==> r[key] == links[key].(coOcc := links[key].coOcc - k))
      && (forall k' :: k' in links && k' != key ==> k' in r && r[k'] == links[k'])
      && r.Keys <= links.Keys
    decreases k
  {
    if k > 0 {
      var next := LinkDecremented(links, key.0, key.1);
      if links[key].coOcc == 1 {
        assert key !in next;
        assert DecrementLinks(next, key, k - 1) == next;
      } else {
        DecrementLinksRun(next, key, k - 1);
      }
    }
  }

  /** The decrementLink test run: after two `addLink(1, 2)` calls the pair is counted twice,
      one `decrementLink` leaves 1 and a second one removes the link. */
  lemma DecrementLinksExample()
    ensures var key := (ObjectId(1), ObjectId(2));
      var added := AddLinks(map[], [key, key], 3);
      && CoOcc(added, key.0, key.1) == 2
      && CoOcc(DecrementLinks(added, key, 1), key.0, key.1) == 1
      && key !in DecrementLinks(added, key, 2)
  {
    var key := (ObjectId(1), ObjectId(2));
    var added := AddLinks(map[], [key, key], 3);
    AddLinksCounts(map[], [key, key], 3, key);
    assert multiset([key, key])[key] == 2;
    DecrementLinksRun(added, key, 1);
    DecrementLinksRun(added, key, 2);
  }

  // ---------------------------------------------------------------------------------------
  // The store object

  class ConceptNetwork {
    var nodes: map<string, Node>
    var links: map<LinkKey, Link>
    var nextId: nat

    ghost predicate Valid()
      reads this
    {
      WellFormed(nodes, links, nextId)
    }

    constructor ()
      ensures Valid()
      ensures nodes == map[] && links == map[] && nextId == 0
    {
      nodes := map[];
      links := map[];
      nextId := 0;
    }

    /** Upserts the node for `name` and increments its occurrence count; returns the node. */
    method AddNode(name: string) returns (node: Node)
      requires Valid()
      modifies this
      ensures Valid()
      ensures nodes == NodeAdded(old(nodes), name, ObjectId(old(nextId)))
      ensures links == old(links)
      ensures nextId == if name in old(nodes) then old(nextId) else old(nextId) + 1
      ensures name in nodes && node == nodes[name] && node.name == name
    {
      if name in nodes {
        node := nodes[name].(occ := nodes[name].occ + 1);
      } else {
        node := Node(ObjectId(nextId), name, 1);
        nextId := nextId + 1;
      }
      nodes := nodes[name := node];
      NodeAddedWellFormed(old(nodes), links, old(nextId), name);
    }

    /** Decrements the node's occurrence count and removes it (by id) when the count reaches
        0; returns the updated node, or `None` once it is removed. */
    method DecrementNode(name: string) returns (result: Option<Node>)
      requires Valid() && name in nodes
      modifies this
      ensures Valid()
      ensures nodes == NodeDecremented(old(nodes), name)
      ensures links == old(links) && nextId == old(nextId)
      ensures result == if name in nodes then Some(nodes[name]) else None
    {
      NodeDecrementedWellFormed(nodes, links, nextId, name);
      var node := nodes[name].(occ := nodes[name].occ - 1);
      if node.occ == 0 {
        RemoveSpentNode(nodes, links, nextId, name);
        nodes := nodes[name := node];
        RemoveNode(node.id);
        result := None;
      } else {
        nodes := nodes[name := node];
        result := Some(node);
      }
    }

    /** `remove({_id: id})` on the shared collection: drops every document with that id. */
    method RemoveNode(id: ObjectId)
      modifies this
      ensures nodes == NodesWithoutId(old(nodes), id)
      ensures links == LinksWithoutId(old(links), id)
      ensures nextId == old(nextId)
      ensures old(Valid()) ==> Valid()
    {
      if Valid() {
        WithoutIdWellFormed(nodes, links, nextId, id);
      }
      nodes := NodesWithoutId(nodes, id);
      links := LinksWithoutId(links, id);
    }

    /** Upserts the link from `fromId` to `toId` and increments its co-occurrence count;
        refuses, changing nothing, an argument that is not an id. */
    method AddLink(fromId: Arg, toId: Arg) returns (result: Result<Link, LinkError>)
      requires Valid()
      modifies this
      ensures Valid()
      ensures !fromId.IdArg? ==> result == Err(FromIdNotObject)
      ensures fromId.IdArg? && !toId.IdArg? ==> result == Err(ToIdNotObject)
      ensures result.Err? ==> nodes == old(nodes) && links == old(links) && nextId == old(nextId)
      ensures fromId.IdArg? && toId.IdArg? ==>
        var key := (fromId.id, toId.id);
        && links == LinkAdded(old(links), fromId.id, toId.id, ObjectId(old(nextId)))
        && nodes == old(nodes)
        && nextId == (if key in old(links) then old(nextId) else old(nextId) + 1)
        && result == Ok(links[key])
    {
      if !fromId.IdArg? {
        return Err(FromIdNotObject);
      }
      if !toId.IdArg? {
        return Err(ToIdNotObject);
      }
      var key := (fromId.id, toId.id);
      var link;
      if key in links {
        link := links[key].(coOcc := links[key].coOcc + 1);
      } else {
        link := Link(ObjectId(nextId), fromId.id, toId.id, 1);
        nextId := nextId + 1;
      }
      links := links[key := link];
      LinkAddedWellFormed(nodes, old(links), old(nextId), fromId.id, toId.id);
      result := Ok(link);
    }

    /** Decrements the link's co-occurrence count and removes it (by id) when the count
        reaches 0; returns the updated link, or `None` once it is removed. */
    method DecrementLink(fromId: ObjectId, toId: ObjectId) returns (result: Option<Link>)
      requires Valid() && (fromId, toId) in links
      modifies this
      ensures Valid()
      ensures links == LinkDecremented(old(links), fromId, toId)
      ensures nodes == old(nodes) && nextId == old(nextId)
      ensures result == if (fromId, toId) in links then Some(links[(fromId, toId)]) else None
    {
      LinkDecrementedWellFormed(nodes, links, nextId, fromId, toId);
      var key := (fromId, toId);
      var link := links[key].(coOcc := links[key].coOcc - 1);
      if link.coOcc == 0 {
        RemoveSpentLink(nodes, links, nextId, key);
        links := links[key := link];
        RemoveLink(link.id);
        result := None;
      } else {
        links := links[key := link];
        result := Some(link);
      }
    }

    /** `remove({_id: linkId})` on the shared collection: drops every document with that id. */
    method RemoveLink(linkId: ObjectId)
      modifies this
      ensures nodes == NodesWithoutId(old(nodes), linkId)
      ensures links == LinksWithoutId(old(links), linkId)
      ensures nextId == old(nextId)
      ensures old(Valid()) ==> Valid()
    {
      if Valid() {
        WithoutIdWellFormed(nodes, links, nextId, linkId);
      }
      nodes := NodesWithoutId(nodes, linkId);
      links := LinksWithoutId(links, linkId);
    }

    /** The node labelled `name`, or `None` (null) when there is none. */
    function GetNode(name: string): (r: Option<Node>)
      reads this
      requires Valid()
      ensures r.None? <==> name !in nodes
      ensures r.Some? ==> r.value == nodes[name] && r.value.name == name && r.value.occ >= 1
    {
      if name in nodes then Some(nodes[name]) else None
    }

    /** The link from `fromId` to `toId`, or `None` (null) when there is none. */
    function GetLink(fromId: ObjectId, toId: ObjectId): (r: Option<Link>)
      reads this
      requires Valid()
      ensures r.None? <==> (fromId, toId) !in links
      ensures r.Some? ==> r.value == links[(fromId, toId)]
      ensures r.Some? ==> r.value.fromId == fromId && r.value.toId == toId && r.value.coOcc >= 1
    {
      if (fromId, toId) in links then Some(links[(fromId, toId)]) else None
    }

    /** Exactly the links leaving node `id`; empty when there are none. */
    function NodeFromLinks(id: ObjectId): (r: set<Link>)
      reads this
      requires Valid()
      ensures forall k :: k in links && k.0 == id ==> links[k] in r
      ensures forall l :: l in r ==> l.fromId == id && (l.fromId, l.toId) in links && links[(l.fromId, l.toId)] == l
    {
      set k | k in links && k.0 == id :: links[k]
    }

    /** Exactly the links entering node `id`; empty when there are none. */
    function NodeToLinks(id: ObjectId): (r: set<Link>)
      reads this
      requires Valid()
      ensures forall k :: k in links && k.1 == id ==> links[k] in r
      ensures forall l :: l in r ==> l.toId == id && (l.fromId, l.toId) in links && links[(l.fromId, l.toId)] == l
    {
      set k | k in links && k.1 == id :: links[k]
    }

    /** The ids of the nodes of the network. */
    function NodeIds(): (r: set<ObjectId>)
      reads this
      ensures forall l :: l in nodes ==> nodes[l].id in r
      ensures forall id :: id in r ==> exists l :: l in nodes && nodes[l].id == id
    {
      set l | l in nodes :: nodes[l].id
    }
  }
}
