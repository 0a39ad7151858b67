/**
 What each write of the organisation changes, and what it leaves alone: every other
 unit, every other host, and the totals the tree shows elsewhere.
 */
module OrgChanges {
  import opened Prelude
  import opened Text
  import opened UniqueSlug
  import opened OrgTree
  import opened OrgCounts

  // ---- the units below one, by their parent links ------------------------------------

  // A chain of parent links from `u` up to `root`.
  predicate IsChain(units: Units, chain: seq<nat>, u: nat, root: nat) {
    && chain != [] && chain[0] == u && chain[|chain| - 1] == root
    && forall i :: 0 <= i < |chain| - 1 ==> chain[i] in units && units[chain[i]].parent == Some(chain[i + 1])
  }

  ghost predicate Leads(units: Units, u: nat, root: nat) {
    exists chain :: IsChain(units, chain, u, root)
  }

  lemma {:induction false} ChainIsUnder(units: Units, chain: seq<nat>, u: nat, root: nat)
    requires AllPlaced(units) && u in units && IsChain(units, chain, u, root)
    ensures Under(units, root, u)
    decreases |chain|
  {
    if |chain| > 1 {
      ChainIsUnder(units, chain[1..], chain[1], root);
    }
  }

  lemma {:induction false} UnderHasChain(units: Units, root: nat, u: nat) returns (chain: seq<nat>)
    requires u in units && Under(units, root, u)
    ensures IsChain(units, chain, u, root)
    decreases Rank(units[u].tier)
  {
    if u == root {
      chain := [u];
    } else {
      var above := UnderHasChain(units, root, units[u].parent.value);
      chain := [u] + above;
    }
  }

  /** The subtree of a unit is made up of the units that parent links lead up to it from. */
  lemma UnderIsLeads(units: Units, root: nat, u: nat)
    requires AllPlaced(units) && u in units
    ensures Under(units, root, u) <==> Leads(units, u, root)
  {
    if Under(units, root, u) { var chain := UnderHasChain(units, root, u); }
    if Leads(units, u, root) {
      var chain :| IsChain(units, chain, u, root);
      ChainIsUnder(units, chain, u, root);
    }
  }

  // ---- deleting -----------------------------------------------------------------------

  // The host is placed in the deleted unit or below it.
  ghost predicate Displaced(units: Units, row: HostRow, id: nat) {
    row.orgUnit.Some? && Leads(units, row.orgUnit.value, id)
  }

  /** After a delete a unit remains, unchanged, exactly if no chain of parent links leads
      from it to the deleted unit. No host goes; one whose place was removed loses that
      and nothing else, and every other keeps its whole row. */
  lemma DeleteExactly(rules: Rules, es: seq<Event>, id: nat)
    ensures var w := Exec(rules, es); var w' := Step(rules, w, Delete(id));
            && w'.next == w.next
            && (forall u :: u in w'.units <==> u in w.units && !Leads(w.units, u, id))
            && (forall u :: u in w'.units ==> w'.units[u] == w.units[u])
            && w'.hosts.Keys == w.hosts.Keys
            && (forall h :: h in w.hosts ==>
                  w'.hosts[h] == if Displaced(w.units, w.hosts[h], id) then HostRow(w.hosts[h].tenant, None)
                                 else w.hosts[h])
  {
    ReachableForest(rules, es);
    var w := Exec(rules, es);
    forall u | u in w.units ensures Under(w.units, id, u) <==> Leads(w.units, u, id) { UnderIsLeads(w.units, id, u); }
  }

  // What a delete makes of the hosts in a set of units.
  lemma PlacesLeft(units: Units, hosts: HostTable, tid: Option<nat>, id: nat, places: set<nat>)
    ensures HostsIn(UnplaceHosts(units, hosts, id), tid, places) == HostsIn(hosts, tid, places - Subtree(units, id))
  {
  }

  // Above a unit that remains, nothing changes.
  lemma {:induction false} UnderKept(units: Units, id: nat, a: nat, u: nat)
    requires AllPlaced(units) && u in units && !Under(units, id, u)
    ensures Under(DeleteUnits(units, id), a, u) <==> Under(units, a, u)
    decreases Rank(units[u].tier)
  {
    if u != a && units[u].parent.Some? {
      UnderKept(units, id, a, units[u].parent.value);
    }
  }

  lemma SubtreeKept(units: Units, id: nat, a: nat)
    requires AllPlaced(units)
    ensures Subtree(DeleteUnits(units, id), a) == Subtree(units, a) - Subtree(units, id)
  {
    forall u | u in DeleteUnits(units, id) ensures Under(DeleteUnits(units, id), a, u) <==> Under(units, a, u) {
      UnderKept(units, id, a, u);
    }
  }

  lemma {:induction false} UnderTrans(units: Units, a: nat, b: nat, u: nat)
    requires AllPlaced(units) && u in units && b in units && Under(units, b, u) && Under(units, a, b)
    ensures Under(units, a, u)
    decreases Rank(units[u].tier)
  {
    if u != b {
      UnderTrans(units, a, b, units[u].parent.value);
    }
  }

  // Two units with a unit below both: one is below the other.
  lemma {:induction false} UnderLine(units: Units, a: nat, b: nat, u: nat)
    requires AllPlaced(units) && u in units && Under(units, a, u) && Under(units, b, u) && a in units && b in units
    ensures Under(units, a, b) || Under(units, b, a)
    decreases Rank(units[u].tier)
  {
    if u != a && u != b {
      UnderLine(units, a, b, units[u].parent.value);
    }
  }

  /** The totals after a delete: a unit above the deleted one shows as many hosts less as
      that one showed, any other that remains shows what it did, and as many hosts more
      are unplaced. */
  lemma DeleteTotals(rules: Rules, es: seq<Event>, id: nat, tid: Option<nat>, order: Order, a: nat)
    requires Enumerates(order) && id in Exec(rules, es).units
    requires a in Exec(rules, es).units && !Leads(Exec(rules, es).units, a, id)
    ensures var w := Exec(rules, es); var w' := Step(rules, w, Delete(id));
            var gone := BuildNode(w.units, w.hosts, tid, order, id).total;
            && a in w'.units
            && BuildNode(w'.units, w'.hosts, tid, order, a).total ==
               BuildNode(w.units, w.hosts, tid, order, a).total - (if Leads(w.units, id, a) then gone else 0)
            && |Unplaced(w'.hosts, tid)| == |Unplaced(w.hosts, tid)| + gone
  {
    ReachableForest(rules, es);
    var w := Exec(rules, es);
    DeleteKeepsInv(rules, w, id);
    UnderIsLeads(w.units, id, a);
    UnderIsLeads(w.units, a, id);
    var w' := Step(rules, w, Delete(id));
    TotalIsSubtreeCount(w.units, w.hosts, tid, order, id);
    TotalIsSubtreeCount(w.units, w.hosts, tid, order, a);
    TotalIsSubtreeCount(w'.units, w'.hosts, tid, order, a);
    SubtreeKept(w.units, id, a);
    CountLeft(w.units, w.hosts, tid, id, a);
    UnplacedMore(w.units, w.hosts, tid, id);
  }

  lemma CountLeft(units: Units, hosts: HostTable, tid: Option<nat>, id: nat, a: nat)
    requires AllPlaced(units) && id in units && a in units && !Under(units, id, a)
    ensures |HostsIn(UnplaceHosts(units, hosts, id), tid, Subtree(units, a) - Subtree(units, id))|
            == |HostsIn(hosts, tid, Subtree(units, a))|
               - if Under(units, a, id) then |HostsIn(hosts, tid, Subtree(units, id))| else 0
  {
    var above, gone := Subtree(units, a), Subtree(units, id);
    PlacesLeft(units, hosts, tid, id, above - gone);
    assert above - gone - gone == above - gone;
    if Under(units, a, id) {
      forall u | u in gone ensures u in above { UnderTrans(units, a, id, u); }
      assert (above - gone) + gone == above;
      HostsInUnion(hosts, tid, above - gone, gone);
    } else {
      forall u | u in gone ensures u !in above { if Under(units, a, u) { UnderLine(units, a, id, u); } }
      assert above - gone == above;
    }
  }

  lemma UnplacedMore(units: Units, hosts: HostTable, tid: Option<nat>, id: nat)
    ensures |Unplaced(UnplaceHosts(units, hosts, id), tid)|
            == |Unplaced(hosts, tid)| + |HostsIn(hosts, tid, Subtree(units, id))|
  {
    var more := HostsIn(hosts, tid, Subtree(units, id));
    assert Unplaced(UnplaceHosts(units, hosts, id), tid) == Unplaced(hosts, tid) + more;
    assert Unplaced(hosts, tid) !! more;
  }

  // ---- creating, renaming, placing -------------------------------------------------------

  // No other child of `parent` in the tenant has the name, ignoring case.
  ghost predicate NoNamesake(rules: Rules, units: Units, parent: Option<nat>, tenant: nat, name: string,
                             except: Option<nat>) {
    forall s :: s in units && Some(s) != except && units[s].parent == parent && units[s].tenant == tenant ==>
      rules.lower(units[s].name) != rules.lower(name)
  }

  // The slug is the first of the name's candidates that no other child of `parent` has.
  ghost predicate FirstSlug(rules: Rules, units: Units, parent: Option<nat>, tenant: nat, name: string,
                            except: Option<nat>, slug: string) {
    exists taken: set<string> ::
      && IsFirstFree(rules.slugify(name), "", taken, slug)
      && forall x :: x in taken <==> TakenBySibling(units, parent, tenant, except, x)
  }

  ghost predicate TakenBySibling(units: Units, parent: Option<nat>, tenant: nat, except: Option<nat>, slug: string) {
    exists s :: s in units && Some(s) != except && units[s].parent == parent && units[s].tenant == tenant
                && units[s].slug == slug
  }

  lemma NewSlugIsFirst(rules: Rules, units: Units, parent: Option<nat>, tenant: nat, name: string,
                       except: Option<nat>)
    ensures FirstSlug(rules, units, parent, tenant, name, except,
                      NewSlug(rules, units, parent, tenant, name, except))
  {
    var taken := TakenSlugs(units, parent, tenant, except);
    assert IsFirstFree(rules.slugify(name), "", taken, NewSlug(rules, units, parent, tenant, name, except));
  }

  /** A unit is created exactly if its trimmed name is not blank, its tier fits its place,
      and no sibling has the name. It gets a new id, the trimmed name and the first free
      slug; every other unit and every host stays as it is. */
  lemma CreateExactly(rules: Rules, es: seq<Event>, tenant: nat, raw: string, tier: Tier, parent: Option<nat>)
    ensures var w := Exec(rules, es); var w' := Step(rules, w, Create(tenant, raw, tier, parent));
            var fits := Strip(raw) != "" && Placed(w.units, OrgUnit(tenant, Strip(raw), "", tier, parent))
                        && NoNamesake(rules, w.units, parent, tenant, Strip(raw), None);
            && (if fits then
                  && w.next !in w.units && w.next in w'.units
                  && w'.units == w.units[w.next := w'.units[w.next]] && w'.next == w.next + 1
                  && w'.units[w.next].(slug := "") == OrgUnit(tenant, Strip(raw), "", tier, parent)
                  && FirstSlug(rules, w.units, parent, tenant, Strip(raw), None, w'.units[w.next].slug)
                else w'.units == w.units && w'.next == w.next)
            && w'.hosts == w.hosts
  {
    ReachableForest(rules, es);
    NewSlugIsFirst(rules, Exec(rules, es).units, parent, tenant, Strip(raw), None);
  }

  /** A rename goes through exactly if the trimmed name is not blank and no other sibling
      has it. It changes the name, and the slug only if the name differs in more than
      case, and then to the first free one; everything else stays as it is. */
  lemma RenameExactly(rules: Rules, es: seq<Event>, id: nat, raw: string)
    requires id in Exec(rules, es).units
    ensures var w := Exec(rules, es); var w' := Step(rules, w, Rename(id, raw));
            var u, name := w.units[id], Strip(raw);
            && (if name != "" && NoNamesake(rules, w.units, u.parent, u.tenant, name, Some(id)) then
                  && id in w'.units && w'.units == w.units[id := w'.units[id]]
                  && w'.units[id].(slug := u.slug) == u.(name := name)
                  && (if rules.lower(name) == rules.lower(u.name) then w'.units[id].slug == u.slug
                      else FirstSlug(rules, w.units, u.parent, u.tenant, name, Some(id), w'.units[id].slug))
                else w'.units == w.units)
            && w'.hosts == w.hosts && w'.next == w.next
  {
    var u := Exec(rules, es).units[id];
    NewSlugIsFirst(rules, Exec(rules, es).units, u.parent, u.tenant, Strip(raw), Some(id));
  }

  // The host is placed in the unit or below it, and in view.
  ghost predicate Shown(units: Units, tid: Option<nat>, row: HostRow, a: nat) {
    InView(tid, row.tenant) && Displaced(units, row, a)
  }

  /** Placing a host, in a unit of its tenant, changes its place and nothing else. */
  lemma AssignExactly(rules: Rules, es: seq<Event>, h: nat, place: Option<nat>)
    requires h in Exec(rules, es).hosts
    ensures var w := Exec(rules, es); var w' := Step(rules, w, AssignHost(h, place));
            var fits := place.None? || (place.value in w.units && w.units[place.value].tenant == w.hosts[h].tenant);
            && w'.units == w.units && w'.next == w.next
            && w'.hosts == if fits then w.hosts[h := HostRow(w.hosts[h].tenant, place)] else w.hosts
  {
  }

  /** The totals after that: the host has moved from what its old unit and those above it
      show to what the new one and those above it show. */
  lemma AssignTotals(rules: Rules, es: seq<Event>, h: nat, place: Option<nat>, tid: Option<nat>, order: Order, a: nat)
    requires Enumerates(order) && h in Exec(rules, es).hosts && a in Exec(rules, es).units
    ensures var w := Exec(rules, es); var w' := Step(rules, w, AssignHost(h, place));
            && h in w'.hosts
            && BuildNode(w.units, w'.hosts, tid, order, a).total ==
               BuildNode(w.units, w.hosts, tid, order, a).total
               - (if Shown(w.units, tid, w.hosts[h], a) then 1 else 0)
               + (if Shown(w.units, tid, w'.hosts[h], a) then 1 else 0)
  {
    ReachableForest(rules, es);
    var w := Exec(rules, es);
    StepKeepsInv(rules, w, AssignHost(h, place));
    AssignExactly(rules, es, h, place);
    MovedTotals(w.units, w.hosts, Step(rules, w, AssignHost(h, place)).hosts, h, tid, order, a);
  }

  lemma MovedTotals(units: Units, hosts: HostTable, hosts': HostTable, h: nat, tid: Option<nat>, order: Order, a: nat)
    requires AllPlaced(units) && HostsPlaced(units, hosts) && HostsPlaced(units, hosts') && a in units
    requires Enumerates(order) && h in hosts && h in hosts' && hosts' == hosts[h := hosts'[h]]
    ensures BuildNode(units, hosts', tid, order, a).total ==
            BuildNode(units, hosts, tid, order, a).total
            - (if Shown(units, tid, hosts[h], a) then 1 else 0) + (if Shown(units, tid, hosts'[h], a) then 1 else 0)
  {
    TotalIsSubtreeCount(units, hosts, tid, order, a);
    TotalIsSubtreeCount(units, hosts', tid, order, a);
    ShownIsCounted(units, hosts, tid, h, a);
    ShownIsCounted(units, hosts', tid, h, a);
    OneHostMoved(hosts, hosts', h, tid, Subtree(units, a));
  }

  lemma ShownIsCounted(units: Units, hosts: HostTable, tid: Option<nat>, h: nat, a: nat)
    requires AllPlaced(units) && HostsPlaced(units, hosts) && h in hosts
    ensures h in HostsIn(hosts, tid, Subtree(units, a)) <==> Shown(units, tid, hosts[h], a)
  {
    if hosts[h].orgUnit.Some? { UnderIsLeads(units, a, hosts[h].orgUnit.value); }
  }

  lemma OneHostMoved(hosts: HostTable, hosts': HostTable, h: nat, tid: Option<nat>, places: set<nat>)
    requires h in hosts && h in hosts' && hosts' == hosts[h := hosts'[h]]
    ensures |HostsIn(hosts', tid, places)| ==
            |HostsIn(hosts, tid, places)| - (if h in HostsIn(hosts, tid, places) then 1 else 0)
            + (if h in HostsIn(hosts', tid, places) then 1 else 0)
  {
    var before, after := HostsIn(hosts, tid, places), HostsIn(hosts', tid, places);
    assert after - {h} == before - {h};
    assert |before - {h}| == |before| - if h in before then 1 else 0;
    assert |after - {h}| == |after| - if h in after then 1 else 0;
  }
}
