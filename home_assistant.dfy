/** The entity inventory that both Home Assistant scripts write
    (scripts/ha-refresh-context.mjs and scripts/ha-inventory.mjs): the
    fetched states are enriched with a domain, a name and an area, then
    grouped by area and inside an area by domain; areas, domains and
    entities are put in a fixed order, and the summary shows counts. */
module HomeAssistant {
  import opened Strings
  import opened Seqs
  import Sorting
  import Grouping

  /** A state object of `/api/states`: its id, its state and its
      `attributes.friendly_name` ("" when absent). */
  datatype State = State(entityId: string, state: string, friendlyName: string)

  /** An enriched entity. `name` is "" where the scripts have `null`. */
  datatype Entity = Entity(entityId: string, domain: string, state: string, name: string, area: string)

  // ---------------------------------------------------------------------
  // Enriching the states

  /** `domainOf`: the part of an entity id before its first `.`, or
      "(none)" for an id without a dot. */
  function DomainOf(eid: string): (d: string)
    ensures '.' !in eid ==> d == "(none)"
    ensures '.' in eid ==> '.' !in d && |d| < |eid| && eid[..|d|] == d && eid[|d|] == '.'
  {
    if '.' in eid then
      FirstPart(eid, '.');
      Split(eid, '.')[0]
    else "(none)"
  }

  /** Whatever follows the first dot, the domain is what comes before it. */
  lemma DomainOfPrefix(d: string, rest: string)
    requires '.' !in d
    ensures DomainOf(d + "." + rest) == d
  {
    var e := d + "." + rest;
    assert e[|d|] == '.';
    var d' := DomainOf(e);
    assert forall i :: 0 <= i < |d| ==> e[i] != '.' by {
      forall i | 0 <= i < |d| ensures e[i] != '.' {
        assert e[i] == d[i];
      }
    }
    assert forall i :: 0 <= i < |d'| ==> e[i] != '.' by {
      forall i | 0 <= i < |d'| ensures e[i] != '.' {
        assert e[i] == d'[i];
      }
    }
    assert |d'| == |d|;
    assert d' == e[..|d|] == d;
  }

  const Unassigned: string := "Unassigned"

  /** The area of the `i`-th state: the `i`-th entry of the area list when
      there is one and it is not empty (`null` entries are ""), otherwise
      "Unassigned". */
  function AreaAt(areas: seq<string>, i: nat): (a: string)
    ensures a != ""
    ensures i < |areas| && areas[i] != "" ==> a == areas[i]
    ensures !(i < |areas| && areas[i] != "") ==> a == Unassigned
  {
    if i < |areas| && areas[i] != "" then areas[i] else Unassigned
  }

  /** The `enriched` list: one entity per state, in the same order, with
      the state's id and state, the domain of its id, its trimmed friendly
      name and the area aligned with it. */
  function Enrich(states: seq<State>, areas: seq<string>): (r: seq<Entity>)
    ensures |r| == |states|
    ensures forall i :: 0 <= i < |r| ==>
      && r[i].entityId == states[i].entityId && r[i].state == states[i].state
      && r[i].domain == DomainOf(states[i].entityId)
      && r[i].name == Trim(states[i].friendlyName)
      && r[i].area == AreaAt(areas, i)
  {
    seq(|states|, i requires 0 <= i < |states| =>
      Entity(states[i].entityId, DomainOf(states[i].entityId), states[i].state, Trim(states[i].friendlyName), AreaAt(areas, i)))
  }

  /** The twelve domains of the `control` inventory. */
  const ImportantDomains: set<string> := {
    "light", "switch", "climate", "fan", "cover", "lock", "media_player",
    "vacuum", "scene", "script", "automation", "input_boolean" }

  predicate IsImportant(e: Entity) {
    e.domain in ImportantDomains
  }

  /** The `control` filter. */
  function Control(list: seq<Entity>): seq<Entity> {
    Filter(list, IsImportant)
  }

  /** `control` keeps exactly the entities of the twelve domains, and in
      list order. */
  lemma ControlSpec(list: seq<Entity>)
    ensures forall e :: e in Control(list) <==> e in list && e.domain in ImportantDomains
    ensures |Control(list)| <= |list|
    ensures multiset(Control(list)) <= multiset(list)
  {
    forall e ensures e in Control(list) <==> e in list && e.domain in ImportantDomains {
      FilterMembership(list, IsImportant, e);
    }
    FilterMultiset(list, IsImportant);
  }

  // ---------------------------------------------------------------------
  // The order of areas, domains and entities

  /** The area of an entity for grouping, `e.area || 'Unassigned'`. */
  function AreaOf(e: Entity): (a: string)
    ensures a != ""
  {
    if e.area != "" then e.area else Unassigned
  }

  function DomainOfEntity(e: Entity): string {
    e.domain
  }

  /** The area comparator: "Unassigned" after every other area, the others
      by name. */
  predicate AreaLe(a: string, b: string) {
    if (a == Unassigned) != (b == Unassigned) then b == Unassigned else LexLe(a, b)
  }

  /** The priority list of domains. */
  const DomOrder: seq<string> := [
    "light", "switch", "climate", "fan", "cover", "lock", "media_player",
    "vacuum", "scene", "script", "automation", "input_boolean"]

  /** `domKey`: a domain's place in the priority list, 999 for any other
      domain. */
  function DomKey(d: string): (k: int)
    ensures d in DomOrder ==> 0 <= k < |DomOrder| && DomOrder[k] == d
    ensures d !in DomOrder ==> k == 999
  {
    var i := IndexOf(DomOrder, d);
    if i == -1 then 999 else i
  }

  /** The domain comparator: by priority, then by name. */
  predicate DomLe(a: string, b: string) {
    DomKey(a) < DomKey(b) || (DomKey(a) == DomKey(b) && LexLe(a, b))
  }

  /** The entity comparator: by id. */
  predicate EntityLe(x: Entity, y: Entity) {
    LexLe(x.entityId, y.entityId)
  }

  lemma AreaLeIsTotalPreorder()
    ensures Sorting.TotalPreorder(AreaLe)
  {
    forall a, b ensures AreaLe(a, b) || AreaLe(b, a) {
      LexLeTotal(a, b);
    }
    forall a, b, c | AreaLe(a, b) && AreaLe(b, c) ensures AreaLe(a, c) {
      if a != Unassigned && b != Unassigned && c != Unassigned {
        LexLeTransitive(a, b, c);
      } else if a == Unassigned && b == Unassigned && c == Unassigned {
        LexLeTransitive(a, b, c);
      }
    }
  }

  lemma DomLeIsTotalPreorder()
    ensures Sorting.TotalPreorder(DomLe)
  {
    forall a, b ensures DomLe(a, b) || DomLe(b, a) {
      LexLeTotal(a, b);
    }
    forall a, b, c | DomLe(a, b) && DomLe(b, c) ensures DomLe(a, c) {
      if DomKey(a) == DomKey(b) == DomKey(c) {
        LexLeTransitive(a, b, c);
      }
    }
  }

  lemma EntityLeIsTotalPreorder()
    ensures Sorting.TotalPreorder(EntityLe)
  {
    forall x: Entity, y: Entity ensures EntityLe(x, y) || EntityLe(y, x) {
      LexLeTotal(x.entityId, y.entityId);
    }
    forall x: Entity, y: Entity, z: Entity | EntityLe(x, y) && EntityLe(y, z) ensures EntityLe(x, z) {
      LexLeTransitive(x.entityId, y.entityId, z.entityId);
    }
  }

  // ---------------------------------------------------------------------
  // The inventory

  /** A `### domain (n)` section: the entities of one domain. */
  datatype DomainSection = DomainSection(domain: string, items: seq<Entity>)

  /** A `## area (n)` section: the number of its entities and its domain
      sections. */
  datatype AreaSection = AreaSection(area: string, count: nat, domains: seq<DomainSection>)

  /** The summary counts and the area sections. */
  datatype Inventory = Inventory(entityCount: nat, areaCount: nat, areas: seq<AreaSection>)

  function AreaNames(secs: seq<AreaSection>): (r: seq<string>)
    ensures |r| == |secs| && forall i :: 0 <= i < |secs| ==> r[i] == secs[i].area
  {
    seq(|secs|, i requires 0 <= i < |secs| => secs[i].area)
  }

  function DomainNames(secs: seq<DomainSection>): (r: seq<string>)
    ensures |r| == |secs| && forall i :: 0 <= i < |secs| ==> r[i] == secs[i].domain
  {
    seq(|secs|, i requires 0 <= i < |secs| => secs[i].domain)
  }

  /** A domain section of the entities `ents` of one area: the entities of
      its domain, sorted by id. */
  ghost predicate DomainSectionOf(ds: DomainSection, ents: seq<Entity>) {
    && Sorting.Sorted(ds.items, EntityLe)
    && multiset(ds.items) == multiset(Grouping.Group(ents, DomainOfEntity, ds.domain))
  }

  /** The section of the entities `ents` of one area: their number, and
      one section per domain among them, in domain order. */
  ghost predicate SectionOf(sec: AreaSection, ents: seq<Entity>) {
    && sec.count == |ents|
    && Sorting.Sorted(DomainNames(sec.domains), DomLe)
    && multiset(DomainNames(sec.domains)) == multiset(Grouping.Keys(ents, DomainOfEntity))
    && forall j :: 0 <= j < |sec.domains| ==> DomainSectionOf(sec.domains[j], ents)
  }

  /** The inventory of `list`: its length, one section per area among its
      entities, in area order, each built from the entities of that area in
      list order. */
  ghost predicate InventoryOf(inv: Inventory, list: seq<Entity>) {
    && inv.entityCount == |list|
    && inv.areaCount == |inv.areas|
    && Sorting.Sorted(AreaNames(inv.areas), AreaLe)
    && multiset(AreaNames(inv.areas)) == multiset(Grouping.Keys(list, AreaOf))
    && forall i :: 0 <= i < |inv.areas| ==> SectionOf(inv.areas[i], Grouping.Group(list, AreaOf, inv.areas[i].area))
  }

  /** `writeInventoryMd` without the text: group by area, sort the area
      names, and for each area group by domain, sort the domains, and sort
      each domain's entities. */
  method BuildInventory(list: seq<Entity>) returns (inv: Inventory)
    ensures InventoryOf(inv, list)
  {
    var keys, byArea := Grouping.GroupBy(list, AreaOf);
    var areaNames := SortAreas(keys);
    assert forall a :: a in areaNames ==> a in keys by {
      forall a | a in areaNames ensures a in keys {
        assert a in multiset(areaNames);
      }
    }
    var sections := BuildSections(list, areaNames, byArea);
    inv := Inventory(|list|, |areaNames|, sections);
  }

  /** The loop over the areas, in the order of `areaNames`. */
  method BuildSections(list: seq<Entity>, areaNames: seq<string>, byArea: map<string, seq<Entity>>)
    returns (sections: seq<AreaSection>)
    requires forall a :: a in areaNames ==> a in byArea && byArea[a] == Grouping.Group(list, AreaOf, a)
    ensures AreaNames(sections) == areaNames
    ensures forall k :: 0 <= k < |sections| ==> SectionOf(sections[k], Grouping.Group(list, AreaOf, sections[k].area))
  {
    sections := [];
    var i := 0;
    while i < |areaNames|
      invariant 0 <= i <= |areaNames|
      invariant AreaNames(sections) == areaNames[..i]
      invariant forall k :: 0 <= k < i ==> SectionOf(sections[k], Grouping.Group(list, AreaOf, sections[k].area))
    {
      var area := areaNames[i];
      var sec := BuildSection(area, byArea[area]);
      assert areaNames[..i + 1] == areaNames[..i] + [area];
      assert AreaNames(sections + [sec]) == AreaNames(sections) + [area];
      sections := sections + [sec];
      i := i + 1;
    }
    assert areaNames[..i] == areaNames;
  }

  /** `[...byArea.keys()].sort(...)` with the area comparator. */
  method SortAreas(names: seq<string>) returns (sorted: seq<string>)
    ensures Sorting.Sorted(sorted, AreaLe) && multiset(sorted) == multiset(names)
  {
    AreaLeIsTotalPreorder();
    sorted := Sorting.SortSeq(names, AreaLe);
  }

  /** `[...byDom.keys()].sort(...)` with the domain comparator. */
  method SortDomains(names: seq<string>) returns (sorted: seq<string>)
    ensures Sorting.Sorted(sorted, DomLe) && multiset(sorted) == multiset(names)
  {
    DomLeIsTotalPreorder();
    sorted := Sorting.SortSeq(names, DomLe);
  }

  /** `byDom.get(dom).sort(...)` by entity id. */
  method SortEntities(ents: seq<Entity>) returns (sorted: seq<Entity>)
    ensures Sorting.Sorted(sorted, EntityLe) && multiset(sorted) == multiset(ents)
  {
    EntityLeIsTotalPreorder();
    sorted := Sorting.SortSeq(ents, EntityLe);
  }

  /** The body of the loop over the areas: group the area's entities by
      domain, sort the domains, and sort each domain's entities. */
  method BuildSection(area: string, ents: seq<Entity>) returns (sec: AreaSection)
    ensures sec.area == area
    ensures SectionOf(sec, ents)
  {
    var keys, byDom := Grouping.GroupBy(ents, DomainOfEntity);
    var doms := SortDomains(keys);
    assert forall d :: d in doms ==> d in keys by {
      forall d | d in doms ensures d in keys {
        assert d in multiset(doms);
      }
    }
    var sections := BuildDomainSections(ents, doms, byDom);
    sec := AreaSection(area, |ents|, sections);
  }

  /** The loop over the domains of one area, in the order of `doms`. */
  method BuildDomainSections(ents: seq<Entity>, doms: seq<string>, byDom: map<string, seq<Entity>>)
    returns (sections: seq<DomainSection>)
    requires forall d :: d in doms ==> d in byDom && byDom[d] == Grouping.Group(ents, DomainOfEntity, d)
    ensures DomainNames(sections) == doms
    ensures forall k :: 0 <= k < |sections| ==> DomainSectionOf(sections[k], ents)
  {
    sections := [];
    var j := 0;
    while j < |doms|
      invariant 0 <= j <= |doms|
      invariant DomainNames(sections) == doms[..j]
      invariant forall k :: 0 <= k < j ==> DomainSectionOf(sections[k], ents)
    {
      var dom := doms[j];
      var items := SortEntities(byDom[dom]);
      var ds := DomainSection(dom, items);
      assert DomainSectionOf(ds, ents);
      assert doms[..j + 1] == doms[..j] + [dom];
      assert DomainNames(sections + [ds]) == DomainNames(sections) + [dom];
      sections := sections + [ds];
      j := j + 1;
    }
    assert doms[..j] == doms;
  }

  // ---------------------------------------------------------------------
  // What the inventory promises

  /** The sum of the `## area (n)` counts. */
  function SumCounts(secs: seq<AreaSection>): int {
    if secs == [] then 0 else SumCounts(secs[..|secs| - 1]) + secs[|secs| - 1].count
  }

  /** The sum of the `### domain (n)` counts of one area. */
  function SumItems(secs: seq<DomainSection>): int {
    if secs == [] then 0 else SumItems(secs[..|secs| - 1]) + |secs[|secs| - 1].items|
  }

  /** The area counts add up to the number of entities in the summary. */
  lemma AreaCountsSum(inv: Inventory, list: seq<Entity>)
    requires InventoryOf(inv, list)
    ensures SumCounts(inv.areas) == inv.entityCount == |list|
  {
    SumCountsAreSizes(inv.areas, list);
    Grouping.KeysPermutationSizes(AreaNames(inv.areas), list, AreaOf);
  }

  lemma {:induction false} SumCountsAreSizes(secs: seq<AreaSection>, list: seq<Entity>)
    requires forall i :: 0 <= i < |secs| ==> secs[i].count == |Grouping.Group(list, AreaOf, secs[i].area)|
    ensures SumCounts(secs) == Grouping.Sizes(AreaNames(secs), list, AreaOf)
    decreases |secs|
  {
    if secs != [] {
      var init := secs[..|secs| - 1];
      SumCountsAreSizes(init, list);
      assert AreaNames(secs)[..|secs| - 1] == AreaNames(init);
    }
  }

  /** Inside an area, the domain counts add up to the area's count. */
  lemma DomainCountsSum(sec: AreaSection, ents: seq<Entity>)
    requires SectionOf(sec, ents)
    ensures SumItems(sec.domains) == sec.count
  {
    forall j | 0 <= j < |sec.domains| ensures |sec.domains[j].items| == |Grouping.Group(ents, DomainOfEntity, sec.domains[j].domain)| {
      var ds := sec.domains[j];
      assert |multiset(ds.items)| == |multiset(Grouping.Group(ents, DomainOfEntity, ds.domain))|;
    }
    SumItemsAreSizes(sec.domains, ents);
    Grouping.KeysPermutationSizes(DomainNames(sec.domains), ents, DomainOfEntity);
  }

  lemma {:induction false} SumItemsAreSizes(secs: seq<DomainSection>, ents: seq<Entity>)
    requires forall j :: 0 <= j < |secs| ==> |secs[j].items| == |Grouping.Group(ents, DomainOfEntity, secs[j].domain)|
    ensures SumItems(secs) == Grouping.Sizes(DomainNames(secs), ents, DomainOfEntity)
    decreases |secs|
  {
    if secs != [] {
      var init := secs[..|secs| - 1];
      SumItemsAreSizes(init, ents);
      assert DomainNames(secs)[..|secs| - 1] == DomainNames(init);
    }
  }

  /** The areas of the inventory are the areas of the entities, each once:
      the summary's area count is the number of distinct areas. */
  lemma AreasAreDistinct(inv: Inventory, list: seq<Entity>)
    requires InventoryOf(inv, list)
    ensures Distinct(AreaNames(inv.areas))
    ensures inv.areaCount == |Grouping.Keys(list, AreaOf)|
    ensures forall a :: a in AreaNames(inv.areas) <==> exists i :: 0 <= i < |list| && AreaOf(list[i]) == a
  {
    var names, keys := AreaNames(inv.areas), Grouping.Keys(list, AreaOf);
    DistinctPermutation(keys, names);
    assert |multiset(names)| == |multiset(keys)|;
    forall a ensures a in names <==> exists i :: 0 <= i < |list| && AreaOf(list[i]) == a {
      Grouping.KeysMembers(list, AreaOf, a);
      assert a in names <==> a in multiset(names);
      assert a in keys <==> a in multiset(keys);
    }
  }

  /** "Unassigned", when some entity has no area, is the last area, and
      only then is it an area of the inventory. */
  lemma UnassignedLast(inv: Inventory, list: seq<Entity>)
    requires InventoryOf(inv, list)
    ensures forall i :: 0 <= i < |inv.areas| - 1 ==> inv.areas[i].area != Unassigned
    ensures Unassigned in AreaNames(inv.areas) <==> exists e :: e in list && AreaOf(e) == Unassigned
  {
    var names := AreaNames(inv.areas);
    AreasAreDistinct(inv, list);
    var n := |names|;
    forall i | 0 <= i < n - 1 ensures names[i] != Unassigned {
      assert AreaLe(names[i], names[n - 1]);
      assert names[i] != names[n - 1];
    }
    if exists e :: e in list && AreaOf(e) == Unassigned {
      var e :| e in list && AreaOf(e) == Unassigned;
      var k :| 0 <= k < |list| && list[k] == e;
      assert AreaOf(list[k]) == Unassigned;
    }
  }

  /** Inside an area, the domains come in the order of the priority list,
      and every domain of the list before every other domain. */
  lemma DomainsInPriorityOrder(sec: AreaSection, ents: seq<Entity>)
    requires SectionOf(sec, ents)
    ensures forall j, k ::
      (0 <= j < |sec.domains| && 0 <= k < |sec.domains| &&
       DomKey(sec.domains[j].domain) < DomKey(sec.domains[k].domain)) ==> j < k
    ensures forall j, k ::
      (0 <= j < |sec.domains| && 0 <= k < |sec.domains| &&
       sec.domains[j].domain in DomOrder && sec.domains[k].domain !in DomOrder) ==> j < k
  {
    var names := DomainNames(sec.domains);
    KeysAscend(names);
    forall j, k | 0 <= j < |names| && 0 <= k < |names| && names[j] in DomOrder && names[k] !in DomOrder
      ensures DomKey(names[j]) < DomKey(names[k])
    {
    }
  }

  /** Along a list sorted by the domain comparator the priority never
      drops. */
  lemma KeysAscend(names: seq<string>)
    requires Sorting.Sorted(names, DomLe)
    ensures forall k, j :: 0 <= k <= j < |names| ==> DomKey(names[k]) <= DomKey(names[j])
  {
    assert forall a, b :: DomLe(a, b) ==> DomKey(a) <= DomKey(b);
    Sorting.SortedByKey(names, DomLe, DomKey);
  }

  /** The sections partition the entities: an entity is listed in the
      section of its area and its domain, and nowhere else. */
  lemma SectionsPartition(inv: Inventory, list: seq<Entity>)
    requires InventoryOf(inv, list)
    ensures forall i, j, e :: 0 <= i < |inv.areas| && 0 <= j < |inv.areas[i].domains| ==>
      (e in inv.areas[i].domains[j].items <==>
        e in list && AreaOf(e) == inv.areas[i].area && e.domain == inv.areas[i].domains[j].domain)
    ensures forall e :: e in list ==>
      exists i, j :: 0 <= i < |inv.areas| && 0 <= j < |inv.areas[i].domains| && e in inv.areas[i].domains[j].items
  {
    forall i, j, e | 0 <= i < |inv.areas| && 0 <= j < |inv.areas[i].domains|
      ensures e in inv.areas[i].domains[j].items <==>
        e in list && AreaOf(e) == inv.areas[i].area && e.domain == inv.areas[i].domains[j].domain
    {
      ItemMembership(inv, list, i, j, e);
    }
    forall e | e in list
      ensures exists i, j :: 0 <= i < |inv.areas| && 0 <= j < |inv.areas[i].domains| && e in inv.areas[i].domains[j].items
    {
      var i, j := PlaceOf(inv, list, e);
      ItemMembership(inv, list, i, j, e);
    }
  }

  lemma ItemMembership(inv: Inventory, list: seq<Entity>, i: nat, j: nat, e: Entity)
    requires InventoryOf(inv, list)
    requires i < |inv.areas| && j < |inv.areas[i].domains|
    ensures e in inv.areas[i].domains[j].items <==>
      e in list && AreaOf(e) == inv.areas[i].area && e.domain == inv.areas[i].domains[j].domain
  {
    var sec := inv.areas[i];
    var ents := Grouping.Group(list, AreaOf, sec.area);
    var ds := sec.domains[j];
    assert SectionOf(sec, ents);
    assert DomainSectionOf(ds, ents);
    assert e in ds.items <==> e in multiset(ds.items);
    var g := Grouping.Group(ents, DomainOfEntity, ds.domain);
    assert e in g <==> e in multiset(g);
    Grouping.GroupMembers(ents, DomainOfEntity, ds.domain, e);
    Grouping.GroupMembers(list, AreaOf, sec.area, e);
  }

  /** The area section and the domain section an entity of the list lands
      in. */
  lemma PlaceOf(inv: Inventory, list: seq<Entity>, e: Entity) returns (i: nat, j: nat)
    requires InventoryOf(inv, list)
    requires e in list
    ensures i < |inv.areas| && j < |inv.areas[i].domains|
    ensures inv.areas[i].area == AreaOf(e) && inv.areas[i].domains[j].domain == e.domain
  {
    var k :| 0 <= k < |list| && list[k] == e;
    Grouping.KeysMembers(list, AreaOf, AreaOf(e));
    var names := AreaNames(inv.areas);
    assert AreaOf(e) in multiset(names);
    i :| 0 <= i < |names| && names[i] == AreaOf(e);
    var sec := inv.areas[i];
    var ents := Grouping.Group(list, AreaOf, sec.area);
    assert SectionOf(sec, ents);
    Grouping.GroupMembers(list, AreaOf, sec.area, e);
    var m :| 0 <= m < |ents| && ents[m] == e;
    Grouping.KeysMembers(ents, DomainOfEntity, e.domain);
    var doms := DomainNames(sec.domains);
    assert e.domain in multiset(doms);
    j :| 0 <= j < |doms| && doms[j] == e.domain;
  }

  /** The area rule `areaList[i] || 'Unassigned'`, seen in the inventory:
      when the list keeps the entity of state `i`, an entity with that
      state's id and state is listed under the `i`-th area entry when that
      entry exists and is not empty, and under "Unassigned" otherwise, in
      the section of the domain of its id. */
  lemma ListedUnderItsArea(states: seq<State>, areas: seq<string>, list: seq<Entity>, inv: Inventory, i: nat)
    requires InventoryOf(inv, list)
    requires i < |states| && Enrich(states, areas)[i] in list
    ensures exists a, j, e ::
      && 0 <= a < |inv.areas| && 0 <= j < |inv.areas[a].domains| && e in inv.areas[a].domains[j].items
      && inv.areas[a].area == (if i < |areas| && areas[i] != "" then areas[i] else Unassigned)
      && inv.areas[a].domains[j].domain == DomainOf(states[i].entityId)
      && e.entityId == states[i].entityId && e.state == states[i].state
  {
    var e := Enrich(states, areas)[i];
    var a, j := PlaceOf(inv, list, e);
    ItemMembership(inv, list, a, j, e);
  }
}
