/** The organisation tables and their writes as the program runs them. */
module OrgRepo {
  import opened Prelude
  import opened Text
  import opened UniqueSlug
  import opened OrgTree
  import OrgCounts

  class Organisation {
    const rules: Rules
    var units: Units
    var hosts: HostTable
    var next: nat

    constructor (rules: Rules)
      ensures this.rules == rules && World(units, hosts, next) == Exec(rules, [])
    {
      this.rules := rules;
      units, hosts, next := map[], map[], 0;
    }

    /** `_unique_slug`. */
    method UniqueSlugFor(parent: Option<nat>, base: string, tenant: nat, except: Option<nat>) returns (slug: string)
      ensures IsFirstFree(base, "", TakenSlugs(units, parent, tenant, except), slug)
      ensures slug == FirstFree(base, "", TakenSlugs(units, parent, tenant, except))
    {
      var taken := TakenSlugs(units, parent, tenant, except);
      slug := FindFree(base, "", taken);
      FirstFreeUnique(base, "", taken, slug, FirstFree(base, "", taken));
    }

    method CreateUnit(tenant: nat, raw: string, tier: Tier, parent: Option<nat>) returns (r: Result<nat, OrgError>)
      modifies this
      ensures World(units, hosts, next) ==
              Step(rules, old(World(units, hosts, next)), Create(tenant, raw, tier, parent))
      ensures r == match OrgTree.CreateUnit(rules, old(units), old(next), tenant, raw, tier, parent)
                   { case Ok(_) => Ok(old(next)) case Err(e) => Err(e) }
    {
      var name := Strip(raw);
      if name == "" { return Err(NameRequired); }
      var bad := PlacementError(units, tenant, tier, parent);
      if bad.Some? { return Err(bad.value); }
      if !NameFree(rules, units, parent, tenant, name, None) { return Err(NameTaken); }
      var slug := UniqueSlugFor(parent, rules.slugify(name), tenant, None);
      units := units[next := OrgUnit(tenant, name, slug, tier, parent)];
      next := next + 1;
      return Ok(next - 1);
    }

    method UpdateUnit(id: nat, raw: string) returns (bad: Option<OrgError>)
      requires id in units
      modifies this
      ensures World(units, hosts, next) == Step(rules, old(World(units, hosts, next)), Rename(id, raw))
      ensures bad == match RenameUnit(rules, old(units), id, raw) { case Ok(_) => None case Err(e) => Some(e) }
    {
      var name, unit := Strip(raw), units[id];
      if name == "" { return Some(NameRequired); }
      if !NameFree(rules, units, unit.parent, unit.tenant, name, Some(id)) { return Some(NameTaken); }
      if rules.lower(name) != rules.lower(unit.name) {
        var slug := UniqueSlugFor(unit.parent, rules.slugify(name), unit.tenant, Some(id));
        unit := unit.(slug := slug);
      }
      units := units[id := unit.(name := name)];
      return None;
    }

    /** `delete_unit`: the cascade takes the subtree, and the foreign key clears the
        place of every host in it. */
    method DeleteUnit(id: nat)
      requires AllPlaced(units) && id in units
      modifies this
      ensures World(units, hosts, next) == Step(rules, old(World(units, hosts, next)), Delete(id))
    {
      var ids := OrgCounts.SubtreeIds(units, id);
      var gone := OrgCounts.Ids(ids);
      assert gone == Subtree(units, id);
      hosts := map h | h in hosts ::
        if hosts[h].orgUnit.Some? && hosts[h].orgUnit.value in gone then hosts[h].(orgUnit := None) else hosts[h];
      units := units - gone;
    }

    /** `assign_to_unit`, for a host row. */
    method AssignHost(host: nat, place: Option<nat>) returns (bad: Option<OrgError>)
      requires host in hosts
      modifies this
      ensures World(units, hosts, next) == Step(rules, old(World(units, hosts, next)), OrgTree.AssignHost(host, place))
      ensures bad == if MayPlace(units, old(hosts)[host].tenant, place) then None else Some(UnitNotFound)
    {
      if place.Some? && (place.value !in units || units[place.value].tenant != hosts[host].tenant) {
        return Some(UnitNotFound);
      }
      hosts := hosts[host := hosts[host].(orgUnit := place)];
      return None;
    }
  }
}
