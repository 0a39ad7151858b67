/** `path_str` of a unit and `get_by_path`, its inverse. */
module OrgPaths {
  import opened Prelude
  import opened Text
  import opened OrgTree

  // ---- the text of a path ----------------------------------------------------------

  function Keep(parts: seq<string>): seq<string> {
    if parts == [] then []
    else (if Strip(parts[0]) == "" then [] else [Strip(parts[0])]) + Keep(parts[1..])
  }

  // `[p.strip() for p in path.split("/") if p.strip()]`
  function Parts(path: string): seq<string> {
    Keep(Split(path, '/'))
  }

  predicate PathName(name: string) {
    name != "" && Stripped(name) && '/' !in name
  }

  lemma OnePart(pad: string, n: string)
    requires (pad == "" || pad == " ") && PathName(n)
    ensures Parts(pad + n) == [n]
  {
    SplitWhole(pad + n, '/');
    StripPad(pad, n, "");
    assert pad + n + "" == pad + n;
    KeepFirst(pad + n, []);
    assert [pad + n] + [] == [pad + n];
  }

  lemma KeepFirst(part: string, rest: seq<string>)
    ensures Keep([part] + rest) == (if Strip(part) == "" then [] else [Strip(part)]) + Keep(rest)
  {
    assert ([part] + rest)[1..] == rest;
  }

  lemma MoreParts(pad: string, n: string, tail: string)
    requires (pad == "" || pad == " ") && PathName(n)
    ensures Parts(pad + n + " " + ['/'] + tail) == [n] + Parts(tail)
  {
    SplitFirst(pad + n + " ", '/', tail);
    StripPad(pad, n, " ");
    KeepFirst(pad + n + " ", Split(tail, '/'));
  }

  lemma Regroup(a: string, b: string, c: string)
    ensures a + (b + " / " + c) == a + b + " " + ['/'] + (" " + c)
  {
    var l, r := a + (b + " / " + c), a + b + " " + ['/'] + (" " + c);
    assert " / " == [' ', '/', ' '];
    assert |l| == |r|;
    assert forall i :: 0 <= i < |l| ==> l[i] == r[i];
  }

  lemma JoinFirst(pad: string, names: seq<string>)
    requires |names| > 1
    ensures pad + Join(names, " / ") == pad + names[0] + " " + ['/'] + (" " + Join(names[1..], " / "))
  {
    Regroup(pad, names[0], Join(names[1..], " / "));
  }

  /** Splitting and trimming undo joining with " / ", for trimmed names without a slash. */
  lemma {:induction false} PartsOfJoined(pad: string, names: seq<string>)
    requires pad == "" || pad == " "
    requires names != [] && forall i :: 0 <= i < |names| ==> PathName(names[i])
    ensures Parts(pad + Join(names, " / ")) == names
    decreases |names|
  {
    if |names| == 1 {
      OnePart(pad, names[0]);
    } else {
      var rest := names[1..];
      JoinFirst(pad, names);
      MoreParts(pad, names[0], " " + Join(rest, " / "));
      PartsOfJoined(" ", rest);
      assert names == [names[0]] + rest;
    }
  }

  // ---- the path of a unit ------------------------------------------------------------

  // The units from the root application down to `u`.
  function PathOf(units: Units, u: nat): seq<nat>
    requires u in units
    decreases Rank(units[u].tier)
  {
    var p := units[u].parent;
    if p.Some? && p.value in units && Rank(units[p.value].tier) < Rank(units[u].tier)
    then PathOf(units, p.value) + [u] else [u]
  }

  function Names(units: Units, ids: seq<nat>): seq<string> {
    seq(|ids|, i requires 0 <= i < |ids| => if ids[i] in units then units[ids[i]].name else "")
  }

  /** `path_str`. */
  function PathStr(units: Units, u: nat): string
    requires u in units
  {
    Join(Names(units, PathOf(units, u)), " / ")
  }

  datatype Found = Nothing | Found(id: nat) | Ambiguous

  // The units a lookup of one part matches.
  function Matches(rules: Rules, units: Units, part: string, parent: Option<nat>, tid: Option<nat>): set<nat> {
    set u | u in units && rules.lower(units[u].name) == rules.lower(part) && units[u].parent == parent
            && (tid.None? || units[u].tenant == tid.value)
  }

  // `scalar_one_or_none`, which raises on several rows.
  ghost function One(rows: set<nat>): Found {
    if rows == {} then Nothing
    else
      var id :| id in rows;
      if rows == {id} then Found(id) else Ambiguous
  }

  lemma OneOf(id: nat)
    ensures One({id}) == Found(id)
  {
    var x :| x in {id};
  }

  method OneOrNone(rows: set<nat>) returns (f: Found)
    ensures f == One(rows)
  {
    if rows == {} { return Nothing; }
    var id :| id in rows;
    if rows == {id} { return Found(id); }
    return Ambiguous;
  }

  // One level per part; a missing or ambiguous level ends the search.
  ghost function Lookup(rules: Rules, units: Units, parts: seq<string>, parent: Option<nat>, tid: Option<nat>,
                        last: Found): Found
    decreases |parts|
  {
    if parts == [] then last
    else
      var f := One(Matches(rules, units, parts[0], parent, tid));
      if !f.Found? then f else Lookup(rules, units, parts[1..], Some(f.id), tid, f)
  }

  /** `get_by_path`. */
  method GetByPath(rules: Rules, units: Units, path: string, tid: Option<nat>) returns (f: Found)
    ensures f == Lookup(rules, units, Parts(path), None, tid, Nothing)
  {
    var parts := Parts(path);
    if parts == [] { return Nothing; }
    var parent: Option<nat> := None;
    f := Nothing;
    for i := 0 to |parts|
      invariant Lookup(rules, units, parts, None, tid, Nothing) == Lookup(rules, units, parts[i..], parent, tid, f)
    {
      assert parts[i..][1..] == parts[i + 1..];
      f := OneOrNone(Matches(rules, units, parts[i], parent, tid));
      if !f.Found? { return; }
      parent := Some(f.id);
    }
  }

  // The parent of the `i`-th unit on a path that starts under `top`.
  function Above(top: Option<nat>, ids: seq<nat>, i: nat): Option<nat>
    requires i <= |ids|
  {
    if i == 0 then top else Some(ids[i - 1])
  }

  lemma LookupOne(rules: Rules, units: Units, parts: seq<string>, parent: Option<nat>, tid: Option<nat>, last: Found,
                  i: nat, id: nat)
    requires i < |parts| && One(Matches(rules, units, parts[i], parent, tid)) == Found(id)
    ensures Lookup(rules, units, parts[i..], parent, tid, last) ==
            Lookup(rules, units, parts[i + 1..], Some(id), tid, Found(id))
  {
    assert parts[i..][1..] == parts[i + 1..];
  }

  // The `k`-th part, looked up under the unit before it, finds `ids[k]` alone.
  ghost predicate Level(rules: Rules, units: Units, parts: seq<string>, tid: Option<nat>, ids: seq<nat>, k: nat)
    requires k < |ids| == |parts|
  {
    One(Matches(rules, units, parts[k], Above(None, ids, k), tid)) == Found(ids[k])
  }

  lemma {:induction false} LookupFollows(rules: Rules, units: Units, parts: seq<string>, tid: Option<nat>,
                                         ids: seq<nat>, i: nat, last: Found)
    requires i < |ids| == |parts|
    requires forall k: nat :: k < |ids| ==> Level(rules, units, parts, tid, ids, k)
    ensures Lookup(rules, units, parts[i..], Above(None, ids, i), tid, last) == Found(ids[|ids| - 1])
    decreases |ids| - i
  {
    assert Level(rules, units, parts, tid, ids, i);
    LookupOne(rules, units, parts, Above(None, ids, i), tid, last, i, ids[i]);
    if i + 1 < |ids| {
      LookupFollows(rules, units, parts, tid, ids, i + 1, Found(ids[i]));
    } else {
      LookupNone(rules, units, parts[i + 1..], Some(ids[i]), tid, Found(ids[i]));
    }
  }

  lemma LookupNone(rules: Rules, units: Units, parts: seq<string>, parent: Option<nat>, tid: Option<nat>, last: Found)
    requires |parts| == 0
    ensures Lookup(rules, units, parts, parent, tid, last) == last
  {
  }

  ghost predicate OnPath(units: Units, u: nat, ids: seq<nat>, i: nat)
    requires i < |ids| && u in units
  {
    ids[i] in units && units[ids[i]].tenant == units[u].tenant && units[ids[i]].parent == Above(None, ids, i)
  }

  lemma {:induction false} PathShape(units: Units, u: nat)
    requires AllPlaced(units) && u in units
    ensures var ids := PathOf(units, u);
            ids != [] && ids[|ids| - 1] == u && forall i: nat :: i < |ids| ==> OnPath(units, u, ids, i)
    decreases Rank(units[u].tier)
  {
    if units[u].parent.Some? {
      var p := units[u].parent.value;
      PathShape(units, p);
      var init, ids := PathOf(units, p), PathOf(units, u);
      assert ids == init + [u];
      forall i: nat | i < |ids| ensures OnPath(units, u, ids, i) {
        if i < |init| { assert OnPath(units, p, init, i); }
      }
    }
  }

  // No name on the way down to `u` contains a slash.
  ghost predicate NoSlash(units: Units, u: nat)
    requires u in units
  {
    forall i: nat :: i < |PathOf(units, u)| && PathOf(units, u)[i] in units ==> '/' !in units[PathOf(units, u)[i]].name
  }

  // Lower-casing neither makes nor removes a slash.
  ghost predicate KeepsSlashes(rules: Rules) {
    forall a: string, b: string :: rules.lower(a) == rules.lower(b) ==> ('/' in a <==> '/' in b)
  }

  /** In every reachable forest, looking a unit of the tenant up by the path it prints
      finds that unit if and only if no name on the path contains a slash. */
  lemma PathFindsUnit(rules: Rules, es: seq<Event>, u: nat)
    requires u in Exec(rules, es).units
    ensures var units := Exec(rules, es).units;
            var found := Lookup(rules, units, Parts(PathStr(units, u)), None, Some(units[u].tenant), Nothing);
            && (NoSlash(units, u) ==> found == Found(u))
            && (KeepsSlashes(rules) && !NoSlash(units, u) ==> found != Found(u))
  {
    var units := Exec(rules, es).units;
    ReachableForest(rules, es);
    if NoSlash(units, u) {
      PathLeads(rules, units, u);
    }
    if KeepsSlashes(rules)
        && Lookup(rules, units, Parts(PathStr(units, u)), None, Some(units[u].tenant), Nothing) == Found(u) {
      PartsHaveNoSlash(PathStr(units, u));
      FoundHasNoSlash(rules, units, Parts(PathStr(units, u)), Some(units[u].tenant), u);
    }
  }

  // ---- what a lookup that succeeds has matched ---------------------------------------

  lemma {:induction false} SplitHasNone(s: string, c: char)
    ensures forall i :: 0 <= i < |Split(s, c)| ==> c !in Split(s, c)[i]
  {
    if s != [] { SplitHasNone(s[1..], c); }
  }

  lemma StripWithin(s: string, c: char)
    requires c !in s
    ensures c !in Strip(s)
  {
    LStripSplits(s);
    RStripSplits(LStrip(s));
  }

  lemma {:induction false} KeepHasNone(parts: seq<string>, c: char)
    requires forall i :: 0 <= i < |parts| ==> c !in parts[i]
    ensures forall i :: 0 <= i < |Keep(parts)| ==> c !in Keep(parts)[i]
  {
    if parts != [] {
      StripWithin(parts[0], c);
      KeepHasNone(parts[1..], c);
    }
  }

  lemma PartsHaveNoSlash(path: string)
    ensures forall i :: 0 <= i < |Parts(path)| ==> '/' !in Parts(path)[i]
  {
    SplitHasNone(path, '/');
    KeepHasNone(Split(path, '/'), '/');
  }

  lemma OneIsIn(rows: set<nat>, id: nat)
    requires One(rows) == Found(id)
    ensures id in rows
  {
  }

  // The last part of a lookup is looked up under what the parts before it found.
  lemma {:induction false} LookupSnoc(rules: Rules, units: Units, parts: seq<string>, parent: Option<nat>,
                                      tid: Option<nat>, last: Found)
    requires parts != []
    ensures var init := parts[..|parts| - 1];
            var f := Lookup(rules, units, init, parent, tid, last);
            Lookup(rules, units, parts, parent, tid, last) ==
            if init == [] then One(Matches(rules, units, parts[0], parent, tid))
            else if !f.Found? then f else One(Matches(rules, units, parts[|parts| - 1], Some(f.id), tid))
    decreases |parts|
  {
    var f := One(Matches(rules, units, parts[0], parent, tid));
    if |parts| == 1 {
      LookupEnds(rules, units, parts[1..], tid, f);
    } else if f.Found? {
      LookupSnoc(rules, units, parts[1..], Some(f.id), tid, f);
      assert parts[1..][..|parts| - 2] == parts[..|parts| - 1][1..];
      if |parts| == 2 { LookupEnds(rules, units, parts[..1][1..], tid, f); }
    }
  }

  lemma LookupEnds(rules: Rules, units: Units, parts: seq<string>, tid: Option<nat>, f: Found)
    requires |parts| == 0
    ensures f.Found? ==> Lookup(rules, units, parts, Some(f.id), tid, f) == f
  {
  }

  lemma {:induction false} FoundHasNoSlash(rules: Rules, units: Units, parts: seq<string>, tid: Option<nat>, u: nat)
    requires KeepsSlashes(rules) && AllPlaced(units)
    requires forall i :: 0 <= i < |parts| ==> '/' !in parts[i]
    requires Lookup(rules, units, parts, None, tid, Nothing) == Found(u)
    ensures u in units && NoSlash(units, u)
    decreases |parts|
  {
    var init, part := parts[..|parts| - 1], parts[|parts| - 1];
    LookupSnoc(rules, units, parts, None, tid, Nothing);
    if init == [] {
      OneIsIn(Matches(rules, units, part, None, tid), u);
    } else {
      var q := Lookup(rules, units, init, None, tid, Nothing).id;
      OneIsIn(Matches(rules, units, part, Some(q), tid), u);
      FoundHasNoSlash(rules, units, init, tid, q);
    }
    assert '/' !in units[u].name;
    NoSlashBelow(units, u);
  }

  // The path of a unit adds its own name to its parent's path.
  lemma NoSlashBelow(units: Units, u: nat)
    requires AllPlaced(units) && u in units && '/' !in units[u].name
    requires units[u].parent.Some? ==> units[u].parent.value in units && NoSlash(units, units[u].parent.value)
    ensures NoSlash(units, u)
  {
    if units[u].parent.Some? {
      assert PathOf(units, u) == PathOf(units, units[u].parent.value) + [u];
    }
  }

  lemma PathLeads(rules: Rules, units: Units, u: nat)
    requires AllPlaced(units) && WellNamed(rules, units) && u in units && NoSlash(units, u)
    ensures Lookup(rules, units, Parts(PathStr(units, u)), None, Some(units[u].tenant), Nothing) == Found(u)
  {
    PathShape(units, u);
    var ids := PathOf(units, u);
    var names := Names(units, ids);
    PathNames(rules, units, u);
    forall i: nat | i < |ids| ensures Level(rules, units, names, Some(units[u].tenant), ids, i) {
      assert OnPath(units, u, ids, i);
      OnlyMatch(rules, units, ids[i]);
      OneOf(ids[i]);
    }
    LookupFollows(rules, units, names, Some(units[u].tenant), ids, 0, Nothing);
    assert names[0..] == names;
  }

  lemma PathNames(rules: Rules, units: Units, u: nat)
    requires AllPlaced(units) && WellNamed(rules, units) && u in units && NoSlash(units, u)
    ensures Parts(PathStr(units, u)) == Names(units, PathOf(units, u))
  {
    PathShape(units, u);
    var ids := PathOf(units, u);
    var names := Names(units, ids);
    forall i: nat | i < |names| ensures PathName(names[i]) {
      assert OnPath(units, u, ids, i);
    }
    PartsOfJoined("", names);
    assert "" + Join(names, " / ") == Join(names, " / ");
  }

  lemma OnlyMatch(rules: Rules, units: Units, id: nat)
    requires WellNamed(rules, units) && id in units
    ensures Matches(rules, units, units[id].name, units[id].parent, Some(units[id].tenant)) == {id}
  {
    forall v | v in Matches(rules, units, units[id].name, units[id].parent, Some(units[id].tenant)) ensures v == id {
      assert Siblings(units[v], units[id]);
    }
  }
}
