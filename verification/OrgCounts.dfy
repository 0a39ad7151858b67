/**
 Reads of the organisation tree that count hosts: the level-by-level subtree walk,
 the host listing of a subtree, and the rolled-up totals of the rendered tree.
 */
module OrgCounts {
  import opened Prelude
  import opened OrgTree

  // `tid` None is the platform view over all tenants.
  predicate InView(tid: Option<nat>, tenant: nat) {
    tid.None? || tid.value == tenant
  }

  function Children(units: Units, ids: set<nat>): set<nat> {
    set u | u in units && units[u].parent.Some? && units[u].parent.value in ids
  }

  function Ids(list: seq<nat>): set<nat> {
    set u | u in list
  }

  predicate Distinct(list: seq<nat>) {
    forall i, j :: 0 <= i < j < |list| ==> list[i] != list[j]
  }

  lemma Append(a: seq<nat>, b: seq<nat>)
    requires Distinct(a) && Distinct(b) && Ids(a) !! Ids(b)
    ensures Distinct(a + b) && Ids(a + b) == Ids(a) + Ids(b)
  {
    forall i, j | 0 <= i < j < |a + b| ensures (a + b)[i] != (a + b)[j] {
      if i < |a| <= j {
        assert a[i] in Ids(a) && b[j - |a|] in Ids(b);
      }
    }
  }

  // The walk has collected every unit of the subtree down to tier `r`, and its
  // frontier is the units of tier `r` among them.
  ghost predicate Walked(units: Units, root: nat, ids: set<nat>, frontier: set<nat>, r: nat) {
    && (forall u :: u in ids <==> u in units && Under(units, root, u) && Rank(units[u].tier) <= r)
    && (forall u :: u in frontier <==> u in ids && Rank(units[u].tier) == r)
  }

  lemma NextLevel(units: Units, root: nat, ids: set<nat>, frontier: set<nat>, r: nat)
    requires AllPlaced(units) && root in units && Rank(units[root].tier) <= r
    requires Walked(units, root, ids, frontier, r)
    ensures Walked(units, root, ids + Children(units, frontier), Children(units, frontier), r + 1)
    ensures ids !! Children(units, frontier)
  {
    forall u | u in units && Under(units, root, u) && Rank(units[u].tier) == r + 1
      ensures u in Children(units, frontier)
    {
      assert u != root;
      assert units[u].parent.value in ids;
    }
  }

  /** `subtree_ids` and `org_subtree_ids`: the walk ends and lists every unit of the
      subtree exactly once. */
  method SubtreeIds(units: Units, root: nat) returns (ids: seq<nat>)
    requires AllPlaced(units) && root in units
    ensures forall u :: u in ids <==> u in units && Under(units, root, u)
    ensures Distinct(ids)
  {
    ids := [root];
    var frontier := [root];
    ghost var r := Rank(units[root].tier);
    forall u | u in units && Under(units, root, u) && Rank(units[u].tier) <= r
      ensures u == root
    {
      UnderRank(units, root, u);
    }
    while frontier != []
      invariant r >= Rank(units[root].tier)
      invariant Walked(units, root, Ids(ids), Ids(frontier), r)
      invariant Distinct(ids)
      decreases if frontier == [] then 0 else 3 - r
    {
      ghost var known, edge := Ids(ids), Ids(frontier);
      assert frontier[0] in edge;
      NextLevel(units, root, known, edge, r);
      var rows := Enumerate(Children(units, Ids(frontier)));
      assert Ids(rows) == Children(units, edge);
      if rows == [] { break; }
      assert rows[0] in Children(units, edge);
      Append(ids, rows);
      ids := ids + rows;
      frontier := rows;
      r := r + 1;
    }
    NothingBelow(units, root, Ids(ids), Ids(frontier), r);
  }

  // An empty next level means the walk is complete.
  lemma NothingBelow(units: Units, root: nat, ids: set<nat>, frontier: set<nat>, r: nat)
    requires AllPlaced(units) && root in units && Rank(units[root].tier) <= r
    requires Walked(units, root, ids, frontier, r) && Children(units, frontier) == {}
    ensures forall u :: u in ids <==> u in units && Under(units, root, u)
  {
    forall u | u in units && Under(units, root, u) ensures Rank(units[u].tier) <= r {
      NoneDeeper(units, root, ids, frontier, r, u);
    }
  }

  lemma {:induction false} NoneDeeper(units: Units, root: nat, ids: set<nat>, frontier: set<nat>, r: nat, u: nat)
    requires AllPlaced(units) && root in units && Rank(units[root].tier) <= r
    requires Walked(units, root, ids, frontier, r) && Children(units, frontier) == {}
    requires u in units && Under(units, root, u)
    ensures Rank(units[u].tier) <= r
    decreases Rank(units[u].tier)
  {
    if u != root {
      var p := units[u].parent.value;
      NoneDeeper(units, root, ids, frontier, r, p);
      assert p in ids;
      assert Rank(units[u].tier) == r + 1 ==> u in Children(units, frontier);
    }
  }

  // ---- totals -----------------------------------------------------------------------

  // The hosts in view placed in any unit of `places`.
  function HostsIn(hosts: HostTable, tid: Option<nat>, places: set<nat>): set<nat> {
    set h | h in hosts && InView(tid, hosts[h].tenant) && hosts[h].orgUnit.Some? && hosts[h].orgUnit.value in places
  }

  // `direct.get(u, 0)` for the grouped count of `direct_counts`.
  function Direct(hosts: HostTable, tid: Option<nat>, u: nat): nat {
    |HostsIn(hosts, tid, {u})|
  }

  datatype Tree = Node(id: nat, direct: nat, total: nat, children: seq<Tree>)

  // Any way of listing a set of ids once each; the tree sorts siblings by name.
  type Order = set<nat> -> seq<nat>

  ghost predicate Enumerates(order: Order) {
    forall s: set<nat> :: Ids(order(s)) == s && Distinct(order(s))
  }

  function Sum(trees: seq<Tree>): nat {
    if trees == [] then 0 else trees[0].total + Sum(trees[1..])
  }

  // `node` of `build_tree`, for a unit and for a list of siblings.
  function BuildNode(units: Units, hosts: HostTable, tid: Option<nat>, order: Order, id: nat): Tree
    requires id in units
    decreases 3 - Rank(units[id].tier), 1, 0
  {
    var kids := BuildNodes(units, hosts, tid, order, id, order(Children(units, {id})));
    Node(id, Direct(hosts, tid, id), Direct(hosts, tid, id) + Sum(kids), kids)
  }

  function BuildNodes(units: Units, hosts: HostTable, tid: Option<nat>, order: Order, parent: nat,
                      ids: seq<nat>): seq<Tree>
    requires parent in units
    decreases 3 - Rank(units[parent].tier), 0, |ids|
  {
    if ids == [] then []
    else
      (if ids[0] in units && Rank(units[parent].tier) < Rank(units[ids[0]].tier)
       then [BuildNode(units, hosts, tid, order, ids[0])] else [])
      + BuildNodes(units, hosts, tid, order, parent, ids[1..])
  }

  // The units below any of the listed siblings.
  ghost function Below(units: Units, ids: seq<nat>): set<nat> {
    set u | u in units && exists i :: 0 <= i < |ids| && Under(units, ids[i], u)
  }

  lemma HostsInUnion(hosts: HostTable, tid: Option<nat>, a: set<nat>, b: set<nat>)
    requires a !! b
    ensures |HostsIn(hosts, tid, a + b)| == |HostsIn(hosts, tid, a)| + |HostsIn(hosts, tid, b)|
  {
    assert HostsIn(hosts, tid, a + b) == HostsIn(hosts, tid, a) + HostsIn(hosts, tid, b);
    assert HostsIn(hosts, tid, a) !! HostsIn(hosts, tid, b);
  }

  // A subtree is its root and what is below the root's children.
  lemma SubtreeSplits(units: Units, order: Order, id: nat)
    requires AllPlaced(units) && id in units && Enumerates(order)
    ensures var kids := order(Children(units, {id}));
            Subtree(units, id) == {id} + Below(units, kids) && id !in Below(units, kids)
  {
    var kids := order(Children(units, {id}));
    assert Ids(kids) == Children(units, {id});
    forall u | u in units && Under(units, id, u) && u != id ensures u in Below(units, kids) {
      var k := ChildAbove(units, id, u);
      assert k in Ids(kids);
    }
    forall u | u in Below(units, kids) ensures u in Subtree(units, id) && u != id {
      var i :| 0 <= i < |kids| && Under(units, kids[i], u);
      assert kids[i] in Ids(kids);
      ThroughChild(units, id, kids[i], u);
      UnderRank(units, kids[i], u);
    }
  }

  // The child of `id` on the way down to `u`.
  lemma {:induction false} ChildAbove(units: Units, id: nat, u: nat) returns (k: nat)
    requires AllPlaced(units) && id in units && u in units && Under(units, id, u) && u != id
    ensures k in Children(units, {id}) && Under(units, k, u)
    decreases Rank(units[u].tier)
  {
    var p := units[u].parent.value;
    if p == id {
      k := u;
    } else {
      k := ChildAbove(units, id, p);
    }
  }

  lemma {:induction false} ThroughChild(units: Units, id: nat, k: nat, u: nat)
    requires AllPlaced(units) && id in units && k in Children(units, {id}) && u in units && Under(units, k, u)
    ensures Under(units, id, u)
    decreases Rank(units[u].tier)
  {
    if u == k {
      assert Under(units, id, id);
    } else {
      ThroughChild(units, id, k, units[u].parent.value);
    }
  }

  /** Roll-up: the total the tree shows for a node is the number of hosts that the
      host list shows for its subtree. */
  lemma {:induction false} TotalIsSubtreeCount(units: Units, hosts: HostTable, tid: Option<nat>, order: Order, id: nat)
    requires AllPlaced(units) && Enumerates(order) && id in units
    ensures BuildNode(units, hosts, tid, order, id).total == |HostsIn(hosts, tid, Subtree(units, id))|
    decreases 3 - Rank(units[id].tier), 1, 0
  {
    var kids := order(Children(units, {id}));
    assert forall i :: 0 <= i < |kids| ==> kids[i] in Ids(kids);
    SiblingTotals(units, hosts, tid, order, id, kids);
    SubtreeSplits(units, order, id);
    HostsInUnion(hosts, tid, {id}, Below(units, kids));
  }

  lemma {:induction false} SiblingTotals(units: Units, hosts: HostTable, tid: Option<nat>, order: Order, parent: nat,
                                         ids: seq<nat>)
    requires AllPlaced(units) && Enumerates(order) && parent in units && Distinct(ids)
    requires forall i :: 0 <= i < |ids| ==> ids[i] in Children(units, {parent})
    ensures Sum(BuildNodes(units, hosts, tid, order, parent, ids)) == |HostsIn(hosts, tid, Below(units, ids))|
    decreases 3 - Rank(units[parent].tier), 0, |ids|
  {
    if ids == [] {
      assert HostsIn(hosts, tid, Below(units, ids)) == {};
    } else {
      assert ids[0] in Children(units, {parent});
      TotalIsSubtreeCount(units, hosts, tid, order, ids[0]);
      SiblingTotals(units, hosts, tid, order, parent, ids[1..]);
      BelowFirst(units, ids, Rank(units[parent].tier) + 1);
      HostsInUnion(hosts, tid, Subtree(units, ids[0]), Below(units, ids[1..]));
      var first := BuildNode(units, hosts, tid, order, ids[0]);
      var rest := BuildNodes(units, hosts, tid, order, parent, ids[1..]);
      assert BuildNodes(units, hosts, tid, order, parent, ids) == [first] + rest;
      assert ([first] + rest)[1..] == rest;
    }
  }

  // The subtrees of distinct units of one tier are disjoint.
  lemma BelowFirst(units: Units, ids: seq<nat>, r: nat)
    requires AllPlaced(units) && ids != [] && Distinct(ids)
    requires forall i :: 0 <= i < |ids| ==> ids[i] in units && Rank(units[ids[i]].tier) == r
    ensures Below(units, ids) == Subtree(units, ids[0]) + Below(units, ids[1..])
    ensures Subtree(units, ids[0]) !! Below(units, ids[1..])
  {
    forall u | u in Below(units, ids) ensures u in Subtree(units, ids[0]) + Below(units, ids[1..]) {
      var i :| 0 <= i < |ids| && Under(units, ids[i], u);
      if i > 0 { assert ids[1..][i - 1] == ids[i]; }
    }
    forall u | u in Below(units, ids[1..]) ensures u in Below(units, ids) && u !in Subtree(units, ids[0]) {
      var i :| 0 <= i < |ids[1..]| && Under(units, ids[1..][i], u);
      assert ids[1..][i] == ids[i + 1];
      if Under(units, ids[0], u) { UnderUnique(units, ids[0], ids[i + 1], u); }
    }
  }

  lemma {:induction false} SiblingNodes(units: Units, hosts: HostTable, tid: Option<nat>, order: Order, parent: nat,
                                        ids: seq<nat>)
    requires AllPlaced(units) && parent in units
    requires forall i :: 0 <= i < |ids| ==> ids[i] in Children(units, {parent})
    ensures var nodes := BuildNodes(units, hosts, tid, order, parent, ids);
            |nodes| == |ids| && forall i :: 0 <= i < |ids| ==> nodes[i].id == ids[i]
    decreases |ids|
  {
    if ids != [] {
      assert ids[0] in Children(units, {parent});
      SiblingNodes(units, hosts, tid, order, parent, ids[1..]);
    }
  }

  /** A node shows its own hosts beside the total, and its children once each, in order. */
  lemma NodeShape(units: Units, hosts: HostTable, tid: Option<nat>, order: Order, id: nat)
    requires AllPlaced(units) && Enumerates(order) && id in units
    ensures var node := BuildNode(units, hosts, tid, order, id);
            && node.id == id
            && node.direct == |set h | h in hosts && InView(tid, hosts[h].tenant) && hosts[h].orgUnit == Some(id)|
            && (set i | 0 <= i < |node.children| :: node.children[i].id) == Children(units, {id})
            && forall i, j :: 0 <= i < j < |node.children| ==> node.children[i].id != node.children[j].id
  {
    var node, kids := BuildNode(units, hosts, tid, order, id), order(Children(units, {id}));
    assert Ids(kids) == Children(units, {id}) && Distinct(kids);
    assert forall i :: 0 <= i < |kids| ==> kids[i] in Ids(kids);
    SiblingNodes(units, hosts, tid, order, id, kids);
    forall u | u in Children(units, {id}) ensures exists i :: 0 <= i < |kids| && node.children[i].id == u {
      assert u in Ids(kids);
      var i :| 0 <= i < |kids| && kids[i] == u;
      assert node.children[i].id == u;
    }
    assert HostsIn(hosts, tid, {id}) ==
           set h | h in hosts && InView(tid, hosts[h].tenant) && hosts[h].orgUnit == Some(id);
  }

  // ---- the whole forest --------------------------------------------------------------

  function Roots(units: Units, tid: Option<nat>): set<nat> {
    set u | u in units && units[u].parent.None? && InView(tid, units[u].tenant)
  }

  function BuildAll(units: Units, hosts: HostTable, tid: Option<nat>, order: Order, ids: seq<nat>): seq<Tree> {
    if ids == [] then []
    else
      (if ids[0] in units then [BuildNode(units, hosts, tid, order, ids[0])] else [])
      + BuildAll(units, hosts, tid, order, ids[1..])
  }

  /** `build_tree`: the root nodes in view. */
  function BuildTree(units: Units, hosts: HostTable, tid: Option<nat>, order: Order): seq<Tree> {
    BuildAll(units, hosts, tid, order, order(Roots(units, tid)))
  }

  lemma {:induction false} RootTotals(units: Units, hosts: HostTable, tid: Option<nat>, order: Order, ids: seq<nat>)
    requires AllPlaced(units) && Enumerates(order) && Distinct(ids)
    requires forall i :: 0 <= i < |ids| ==> ids[i] in units && Rank(units[ids[i]].tier) == 0
    ensures Sum(BuildAll(units, hosts, tid, order, ids)) == |HostsIn(hosts, tid, Below(units, ids))|
  {
    if ids == [] {
      assert HostsIn(hosts, tid, Below(units, ids)) == {};
    } else {
      TotalIsSubtreeCount(units, hosts, tid, order, ids[0]);
      RootTotals(units, hosts, tid, order, ids[1..]);
      BelowFirst(units, ids, 0);
      HostsInUnion(hosts, tid, Subtree(units, ids[0]), Below(units, ids[1..]));
      var first, rest := BuildNode(units, hosts, tid, order, ids[0]), BuildAll(units, hosts, tid, order, ids[1..]);
      assert BuildAll(units, hosts, tid, order, ids) == [first] + rest;
      assert ([first] + rest)[1..] == rest;
    }
  }

  lemma {:induction false} RootAbove(units: Units, u: nat) returns (root: nat)
    requires AllPlaced(units) && u in units
    ensures root in units && units[root].parent.None? && Under(units, root, u) && units[root].tenant == units[u].tenant
    decreases Rank(units[u].tier)
  {
    if units[u].parent.None? {
      root := u;
    } else {
      root := RootAbove(units, units[u].parent.value);
    }
  }

  function Unplaced(hosts: HostTable, tid: Option<nat>): set<nat> {
    set h | h in hosts && InView(tid, hosts[h].tenant) && hosts[h].orgUnit.None?
  }

  function Visible(hosts: HostTable, tid: Option<nat>): set<nat> {
    set h | h in hosts && InView(tid, hosts[h].tenant)
  }

  /** Conservation: in every reachable forest the totals of the root nodes and the
      unplaced hosts add up to all hosts in view. */
  lemma TotalsAddUp(rules: Rules, es: seq<Event>, tid: Option<nat>, order: Order)
    requires Enumerates(order)
    ensures var w := Exec(rules, es);
            Sum(BuildTree(w.units, w.hosts, tid, order)) + |Unplaced(w.hosts, tid)| == |Visible(w.hosts, tid)|
  {
    ReachableForest(rules, es);
    var w := Exec(rules, es);
    ForestAddsUp(w.units, w.hosts, tid, order);
  }

  lemma ForestAddsUp(units: Units, hosts: HostTable, tid: Option<nat>, order: Order)
    requires AllPlaced(units) && HostsPlaced(units, hosts) && Enumerates(order)
    ensures Sum(BuildTree(units, hosts, tid, order)) + |Unplaced(hosts, tid)| == |Visible(hosts, tid)|
  {
    var apps := order(Roots(units, tid));
    assert Ids(apps) == Roots(units, tid) && Distinct(apps);
    assert forall i :: 0 <= i < |apps| ==> apps[i] in Ids(apps);
    RootTotals(units, hosts, tid, order, apps);
    RootsCover(units, hosts, tid, apps);
    VisibleSplits(hosts, tid, Below(units, apps));
  }

  lemma VisibleSplits(hosts: HostTable, tid: Option<nat>, places: set<nat>)
    requires forall h :: h in Visible(hosts, tid) && hosts[h].orgUnit.Some? ==> hosts[h].orgUnit.value in places
    ensures |Visible(hosts, tid)| == |HostsIn(hosts, tid, places)| + |Unplaced(hosts, tid)|
  {
    assert Visible(hosts, tid) == HostsIn(hosts, tid, places) + Unplaced(hosts, tid);
    assert HostsIn(hosts, tid, places) !! Unplaced(hosts, tid);
  }

  lemma RootsCover(units: Units, hosts: HostTable, tid: Option<nat>, apps: seq<nat>)
    requires AllPlaced(units) && HostsPlaced(units, hosts) && Ids(apps) == Roots(units, tid)
    ensures forall h :: h in Visible(hosts, tid) && hosts[h].orgUnit.Some? ==>
            hosts[h].orgUnit.value in Below(units, apps)
  {
    forall h | h in Visible(hosts, tid) && hosts[h].orgUnit.Some? ensures hosts[h].orgUnit.value in Below(units, apps) {
      var u := hosts[h].orgUnit.value;
      var root := RootAbove(units, u);
      assert root in Ids(apps);
    }
  }

  /** The same for any node of a reachable forest: its total is the number of rows
      of `list_hosts` for it, which asks for hosts in view whose unit is among the
      ids of the subtree walk. */
  lemma TotalMatchesHostList(rules: Rules, es: seq<Event>, tid: Option<nat>, order: Order, id: nat, ids: seq<nat>)
    requires Enumerates(order) && id in Exec(rules, es).units
    requires forall u :: u in ids <==> u in Exec(rules, es).units && Under(Exec(rules, es).units, id, u)
    ensures var w := Exec(rules, es);
            BuildNode(w.units, w.hosts, tid, order, id).total == |HostsIn(w.hosts, tid, Ids(ids))|
  {
    ReachableForest(rules, es);
    var w := Exec(rules, es);
    TotalIsSubtreeCount(w.units, w.hosts, tid, order, id);
    assert Ids(ids) == Subtree(w.units, id);
  }
}
