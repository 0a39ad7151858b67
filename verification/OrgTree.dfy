/**
 The three-tier host organisation: units, their validated writes with cascade and
 SET NULL, and the subtree relation every read is based on.
 */
module OrgTree {
  import opened Prelude
  import opened Text
  import opened UniqueSlug

  datatype Tier = Application | Environment | Unit

  function Rank(t: Tier): nat {
    match t
    case Application => 0
    case Environment => 1
    case Unit => 2
  }

  datatype OrgUnit = OrgUnit(tenant: nat, name: string, slug: string, tier: Tier, parent: Option<nat>)

  type Units = map<nat, OrgUnit>

  datatype HostRow = HostRow(tenant: nat, orgUnit: Option<nat>)

  type HostTable = map<nat, HostRow>

  // Python's and SQL's lower-casing (taken to agree) and the slug function.
  datatype Rules = Rules(lower: string -> string, slugify: string -> string)

  datatype OrgError = NameRequired | MustBeRoot | NeedsParent | ParentNotFound | WrongTier | NameTaken | UnitNotFound

  // ---- the tree ------------------------------------------------------------------

  // A unit's parent is the tier directly above, in the same tenant.
  predicate Placed(units: Units, u: OrgUnit) {
    if u.tier.Application? then u.parent.None?
    else u.parent.Some? && u.parent.value in units
         && Rank(units[u.parent.value].tier) + 1 == Rank(u.tier)
         && units[u.parent.value].tenant == u.tenant
  }

  ghost predicate AllPlaced(units: Units) {
    forall id :: id in units ==> Placed(units, units[id])
  }

  predicate Siblings(u: OrgUnit, v: OrgUnit) {
    u.parent == v.parent && u.tenant == v.tenant
  }

  // Siblings differ in name, ignoring case, and in slug; names are trimmed.
  ghost predicate WellNamed(rules: Rules, units: Units) {
    && (forall id :: id in units ==> units[id].name != "" && Stripped(units[id].name))
    && (forall a, b :: a in units && b in units && a != b && Siblings(units[a], units[b]) ==>
          rules.lower(units[a].name) != rules.lower(units[b].name) && units[a].slug != units[b].slug)
  }

  ghost predicate HostsPlaced(units: Units, hosts: HostTable) {
    forall h :: h in hosts && hosts[h].orgUnit.Some? ==>
      hosts[h].orgUnit.value in units && units[hosts[h].orgUnit.value].tenant == hosts[h].tenant
  }

  /** Unit `u` is `root` or below it. */
  predicate Under(units: Units, root: nat, u: nat)
    requires u in units
    decreases Rank(units[u].tier)
  {
    || u == root
    || (units[u].parent.Some? && units[u].parent.value in units
        && Rank(units[units[u].parent.value].tier) < Rank(units[u].tier)
        && Under(units, root, units[u].parent.value))
  }

  ghost function Subtree(units: Units, root: nat): set<nat> {
    set u | u in units && Under(units, root, u)
  }

  // Below a node the tiers go down.
  lemma {:induction false} UnderRank(units: Units, root: nat, u: nat)
    requires u in units && root in units && Under(units, root, u)
    ensures Rank(units[root].tier) <= Rank(units[u].tier)
    ensures Rank(units[root].tier) == Rank(units[u].tier) ==> u == root
    decreases Rank(units[u].tier)
  {
    if u != root {
      UnderRank(units, root, units[u].parent.value);
    }
  }

  // Two nodes of one tier above the same unit are the same node.
  lemma {:induction false} UnderUnique(units: Units, a: nat, b: nat, u: nat)
    requires AllPlaced(units) && u in units && a in units && b in units
    requires Under(units, a, u) && Under(units, b, u) && Rank(units[a].tier) == Rank(units[b].tier)
    ensures a == b
    decreases Rank(units[u].tier)
  {
    if u == a {
      UnderRank(units, b, u);
    } else if u == b {
      UnderRank(units, a, u);
    } else {
      UnderUnique(units, a, b, units[u].parent.value);
    }
  }

  // Everything below a node is in its tenant.
  lemma {:induction false} UnderTenant(units: Units, root: nat, u: nat)
    requires AllPlaced(units) && u in units && root in units && Under(units, root, u)
    ensures units[u].tenant == units[root].tenant
    decreases Rank(units[u].tier)
  {
    if u != root {
      UnderTenant(units, root, units[u].parent.value);
    }
  }

  // ---- writes --------------------------------------------------------------------

  predicate NameFree(rules: Rules, units: Units, parent: Option<nat>, tenant: nat, name: string, except: Option<nat>) {
    forall s :: s in units && units[s].parent == parent && units[s].tenant == tenant && Some(s) != except ==>
      rules.lower(units[s].name) != rules.lower(name)
  }

  function TakenSlugs(units: Units, parent: Option<nat>, tenant: nat, except: Option<nat>): set<string> {
    set s | s in units && units[s].parent == parent && units[s].tenant == tenant && Some(s) != except :: units[s].slug
  }

  ghost function NewSlug(rules: Rules, units: Units, parent: Option<nat>, tenant: nat, name: string,
                         except: Option<nat>): string {
    FirstFree(rules.slugify(name), "", TakenSlugs(units, parent, tenant, except))
  }

  // The placement check of `create_unit`.
  function PlacementError(units: Units, tenant: nat, tier: Tier, parent: Option<nat>): Option<OrgError> {
    if tier.Application? then (if parent.Some? then Some(MustBeRoot) else None)
    else if parent.None? then Some(NeedsParent)
    else if parent.value !in units || units[parent.value].tenant != tenant then Some(ParentNotFound)
    else if Rank(units[parent.value].tier) + 1 != Rank(tier) then Some(WrongTier)
    else None
  }

  /** `create_unit` under a new id. */
  ghost function CreateUnit(rules: Rules, units: Units, id: nat, tenant: nat, raw: string, tier: Tier,
                            parent: Option<nat>)
    : Result<Units, OrgError>
  {
    var name := Strip(raw);
    if name == "" then Err(NameRequired)
    else if PlacementError(units, tenant, tier, parent).Some? then
        Err(PlacementError(units, tenant, tier, parent).value)
    else if !NameFree(rules, units, parent, tenant, name, None) then Err(NameTaken)
    else Ok(units[id := OrgUnit(tenant, name, NewSlug(rules, units, parent, tenant, name, None), tier, parent)])
  }

  /** `update_unit`: a rename; the slug follows unless only the case changes. */
  ghost function RenameUnit(rules: Rules, units: Units, id: nat, raw: string): Result<Units, OrgError>
    requires id in units
  {
    var name, u := Strip(raw), units[id];
    if name == "" then Err(NameRequired)
    else if !NameFree(rules, units, u.parent, u.tenant, name, Some(id)) then Err(NameTaken)
    else
      var slug := if rules.lower(name) != rules.lower(u.name)
                  then NewSlug(rules, units, u.parent, u.tenant, name, Some(id)) else u.slug;
      Ok(units[id := u.(name := name, slug := slug)])
  }

  /** `delete_unit`: the subtree goes, and hosts placed in it become unplaced. */
  ghost function DeleteUnits(units: Units, id: nat): Units {
    units - Subtree(units, id)
  }

  ghost function UnplaceHosts(units: Units, hosts: HostTable, id: nat): HostTable {
    map h | h in hosts ::
      if hosts[h].orgUnit.Some? && hosts[h].orgUnit.value in Subtree(units, id) then hosts[h].(orgUnit := None)
          else hosts[h]
  }

  // ---- every reachable forest --------------------------------------------------------

  datatype Event =
    | Create(tenant: nat, name: string, tier: Tier, parent: Option<nat>)
    | Rename(unit: nat, name: string)
    | Delete(unit: nat)
    | AddHost(tenant: nat, place: Option<nat>)
    | AssignHost(host: nat, place: Option<nat>)
    | RemoveHost(host: nat)

  datatype World = World(units: Units, hosts: HostTable, next: nat)

  // A host may be placed in any unit of its own tenant.
  predicate MayPlace(units: Units, tenant: nat, place: Option<nat>) {
    place.None? || (place.value in units && units[place.value].tenant == tenant)
  }

  ghost function Step(rules: Rules, w: World, e: Event): World {
    match e
    case Create(tenant, name, tier, parent) =>
      var r := CreateUnit(rules, w.units, w.next, tenant, name, tier, parent);
      if r.Ok? then World(r.value, w.hosts, w.next + 1) else w
    case Rename(id, name) =>
      if id !in w.units then w
      else
        var r := RenameUnit(rules, w.units, id, name);
        if r.Ok? then w.(units := r.value) else w
    case Delete(id) =>
      World(DeleteUnits(w.units, id), UnplaceHosts(w.units, w.hosts, id), w.next)
    case AddHost(tenant, place) =>
      if MayPlace(w.units, tenant, place) then World(w.units, w.hosts[w.next := HostRow(tenant, place)], w.next + 1)
          else w
    case AssignHost(h, place) =>
      if h in w.hosts && MayPlace(w.units, w.hosts[h].tenant, place)
      then w.(hosts := w.hosts[h := w.hosts[h].(orgUnit := place)]) else w
    case RemoveHost(h) => w.(hosts := w.hosts - {h})
  }

  ghost function Exec(rules: Rules, es: seq<Event>): World {
    if es == [] then World(map[], map[], 0) else Step(rules, Exec(rules, es[..|es| - 1]), es[|es| - 1])
  }

  ghost predicate Inv(rules: Rules, w: World) {
    && AllPlaced(w.units)
    && WellNamed(rules, w.units)
    && HostsPlaced(w.units, w.hosts)
    && (forall id :: id in w.units ==> id < w.next)
  }

  lemma SlugIsFree(rules: Rules, units: Units, parent: Option<nat>, tenant: nat, name: string, except: Option<nat>,
                   s: nat)
    requires s in units && units[s].parent == parent && units[s].tenant == tenant && Some(s) != except
    ensures units[s].slug != NewSlug(rules, units, parent, tenant, name, except)
  {
    var base, taken := rules.slugify(name), TakenSlugs(units, parent, tenant, except);
    assert units[s].slug in taken;
    var slug := NewSlug(rules, units, parent, tenant, name, except);
    assert IsFirstFree(base, "", taken, slug);
    assert slug + "" == slug && base + "" == base;
    if base in taken {
      var n: nat :| IsLeast(base, "", taken, n) && slug == Numbered(base, n);
      assert Numbered(base, n) + "" == Numbered(base, n);
    }
  }

  lemma StripIsStripped(s: string)
    ensures Stripped(Strip(s))
  {
    LStripSplits(s);
    RStripSplits(LStrip(s));
    var t := RStrip(LStrip(s));
    if t != [] { assert t[0] == LStrip(s)[0]; }
  }

  // Putting in a unit that differs from its siblings keeps all siblings apart.
  lemma PutKeepsNames(rules: Rules, units: Units, id: nat, u: OrgUnit)
    requires WellNamed(rules, units) && u.name != "" && Stripped(u.name)
    requires forall s :: s in units && s != id && Siblings(units[s], u) ==>
               rules.lower(units[s].name) != rules.lower(u.name) && units[s].slug != u.slug
    ensures WellNamed(rules, units[id := u])
  {
  }

  lemma CreateKeepsInv(rules: Rules, w: World, tenant: nat, raw: string, tier: Tier, parent: Option<nat>)
    requires Inv(rules, w) && CreateUnit(rules, w.units, w.next, tenant, raw, tier, parent).Ok?
    ensures Inv(rules, Step(rules, w, Create(tenant, raw, tier, parent)))
  {
    var name := Strip(raw);
    StripIsStripped(raw);
    var u := OrgUnit(tenant, name, NewSlug(rules, w.units, parent, tenant, name, None), tier, parent);
    assert WellNamed(rules, w.units[w.next := u]) by {
      forall s | s in w.units && Siblings(w.units[s], u)
        ensures rules.lower(w.units[s].name) != rules.lower(name) && w.units[s].slug != u.slug
      {
        SlugIsFree(rules, w.units, parent, tenant, name, None, s);
      }
      PutKeepsNames(rules, w.units, w.next, u);
    }
    PutKeepsPlaces(w.units, w.hosts, w.next, u);
  }

  // A new unit disturbs no one's place.
  lemma PutKeepsPlaces(units: Units, hosts: HostTable, id: nat, u: OrgUnit)
    requires AllPlaced(units) && HostsPlaced(units, hosts) && Placed(units, u)
    requires id in units ==> u.tier == units[id].tier && u.tenant == units[id].tenant && u.parent == units[id].parent
    ensures AllPlaced(units[id := u]) && HostsPlaced(units[id := u], hosts)
  {
  }

  lemma RenameKeepsInv(rules: Rules, w: World, id: nat, raw: string)
    requires Inv(rules, w) && id in w.units && RenameUnit(rules, w.units, id, raw).Ok?
    ensures Inv(rules, Step(rules, w, Rename(id, raw)))
  {
    var name, u := Strip(raw), w.units[id];
    StripIsStripped(raw);
    var u' := RenameUnit(rules, w.units, id, raw).value[id];
    assert WellNamed(rules, w.units[id := u']) by {
      forall s | s in w.units && s != id && Siblings(w.units[s], u')
        ensures rules.lower(w.units[s].name) != rules.lower(name) && w.units[s].slug != u'.slug
      {
        SlugIsFree(rules, w.units, u.parent, u.tenant, name, Some(id), s);
      }
      PutKeepsNames(rules, w.units, id, u');
    }
    PutKeepsPlaces(w.units, w.hosts, id, u');
  }

  lemma DeleteKeepsInv(rules: Rules, w: World, id: nat)
    requires Inv(rules, w)
    ensures Inv(rules, Step(rules, w, Delete(id)))
  {
    var w' := Step(rules, w, Delete(id));
    forall u | u in w'.units ensures Placed(w'.units, w'.units[u]) {
      assert u in w.units && !Under(w.units, id, u);
    }
    forall h | h in w'.hosts && w'.hosts[h].orgUnit.Some?
      ensures w'.hosts[h].orgUnit.value in w'.units && w'.units[w'.hosts[h].orgUnit.value].tenant == w'.hosts[h].tenant
    {
    }
  }

  lemma StepKeepsInv(rules: Rules, w: World, e: Event)
    requires Inv(rules, w)
    ensures Inv(rules, Step(rules, w, e))
  {
    match e
    case Create(tenant, name, tier, parent) =>
      if CreateUnit(rules, w.units, w.next, tenant, name, tier, parent).Ok? {
        CreateKeepsInv(rules, w, tenant, name, tier, parent);
      }
    case Rename(id, name) =>
      if id in w.units && RenameUnit(rules, w.units, id, name).Ok? { RenameKeepsInv(rules, w, id, name); }
    case Delete(id) => DeleteKeepsInv(rules, w, id);
    case AddHost(_, _) =>
    case AssignHost(_, _) =>
    case RemoveHost(_) =>
  }

  /** Every forest reachable by create, rename, delete and host placement keeps each
      unit under the tier above in its own tenant, sibling names (ignoring case) and
      slugs distinct, and hosts placed in existing units of their tenant. */
  lemma {:induction false} ReachableForest(rules: Rules, es: seq<Event>)
    ensures Inv(rules, Exec(rules, es))
  {
    if es != [] {
      ReachableForest(rules, es[..|es| - 1]);
      StepKeepsInv(rules, Exec(rules, es[..|es| - 1]), es[|es| - 1]);
    }
  }
}
