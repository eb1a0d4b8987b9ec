/** scripts/ha-refresh-context.mjs: from the fetched states and the area
    names aligned with them, the two inventories the script writes — every
    entity of the twelve control domains, and the "nice" subset of the
    controls people usually use — and the escaping of `|` in the names and
    states it prints. */
module RefreshContext {
  import opened Wrappers
  import opened Strings
  import opened Seqs
  import opened HomeAssistant

  // ---------------------------------------------------------------------
  // Escaping

  /** The text `mdEscape` puts for one character. */
  function EscapeChar(c: char): string {
    if c == '|' then "\\|" else [c]
  }

  /** `mdEscape`: every `|` becomes `\|`. A `null` or `undefined` value
      arrives as "" and gives "". */
  function MdEscape(s: string): (r: string)
    ensures |r| == |s| + Count(s, '|')
    ensures s == [] ==> r == []
  {
    if s == [] then [] else EscapeChar(s[0]) + MdEscape(s[1..])
  }

  /** Reading `\|` back as `|`: the inverse of `MdEscape`. */
  function Unescape(s: string): string
    decreases |s|
  {
    if s == [] then []
    else if |s| >= 2 && s[0] == '\\' && s[1] == '|' then "|" + Unescape(s[2..])
    else [s[0]] + Unescape(s[1..])
  }

  lemma EscapedStart(s: string)
    ensures MdEscape(s) == [] || MdEscape(s)[0] != '|'
  {
  }

  /** Nothing is lost by escaping: the escaped text reads back as the
      original. */
  lemma {:induction false} UnescapeEscape(s: string)
    ensures Unescape(MdEscape(s)) == s
    decreases |s|
  {
    if s != [] {
      var rest := MdEscape(s[1..]);
      UnescapeEscape(s[1..]);
      EscapedStart(s[1..]);
      var r := MdEscape(s);
      if s[0] == '|' {
        assert r == "\\|" + rest;
        assert r[2..] == rest;
      } else {
        assert r == [s[0]] + rest;
        assert r[1..] == rest;
      }
      assert s == [s[0]] + s[1..];
    }
  }

  /** Every `|` of the escaped text is preceded by a `\`, so none of them
      ends a Markdown table cell. */
  lemma {:induction false} PipesEscaped(s: string)
    ensures var r := MdEscape(s);
      forall i :: 0 <= i < |r| && r[i] == '|' ==> 0 < i && r[i - 1] == '\\'
    decreases |s|
  {
    if s != [] {
      PipesEscaped(s[1..]);
      EscapedStart(s[1..]);
      var h, rest := EscapeChar(s[0]), MdEscape(s[1..]);
      var r := h + rest;
      assert r == MdEscape(s);
      forall i | 0 <= i < |r| && r[i] == '|' ensures 0 < i && r[i - 1] == '\\' {
        if i >= |h| {
          assert r[i] == rest[i - |h|];
          if i > |h| {
            assert r[i - 1] == rest[i - |h| - 1];
          }
        }
      }
    }
  }

  // ---------------------------------------------------------------------
  // The area names and the entities

  /** `String(areasStr || '').split('|').filter(Boolean)`: the area names
      of the "## Areas" line. */
  function AreaList(areasStr: string): (r: seq<string>)
    ensures forall k :: 0 <= k < |r| ==> r[k] != "" && '|' !in r[k]
  {
    FilterProps(Split(areasStr, '|'));
    Filter(Split(areasStr, '|'), NonEmpty)
  }

  predicate NonEmpty(s: string) {
    s != ""
  }

  lemma FilterProps(parts: seq<string>)
    requires forall k :: 0 <= k < |parts| ==> '|' !in parts[k]
    ensures forall k :: 0 <= k < |Filter(parts, NonEmpty)| ==>
      Filter(parts, NonEmpty)[k] != "" && '|' !in Filter(parts, NonEmpty)[k]
  {
    var f := Filter(parts, NonEmpty);
    forall k | 0 <= k < |f| ensures f[k] != "" && '|' !in f[k] {
      FilterMembership(parts, NonEmpty, f[k]);
    }
  }

  /** Area names joined with `|`, as the template renders them, are read
      back as the same names; no areas render as "" and read back as none. */
  lemma AreaListOfJoin(names: seq<string>)
    requires forall k :: 0 <= k < |names| ==> names[k] != "" && '|' !in names[k]
    ensures AreaList(Join(names, '|')) == names
  {
    if names == [] {
      assert Split("", '|') == [""];
      assert Filter([""], NonEmpty) == [];
    } else {
      SplitJoin(names, '|');
      FilterAll(names, NonEmpty);
    }
  }

  /** The `enriched` list of this script: an area list that is not an
      array (`None`) gives every entity the area "Unassigned", and so does
      a missing or empty entry. */
  function Enriched(states: seq<State>, areaList: Option<seq<string>>): (r: seq<Entity>)
    ensures |r| == |states|
    ensures areaList.None? ==> forall i :: 0 <= i < |r| ==> r[i].area == Unassigned
  {
    Enrich(states, match areaList case Some(l) => l case None => [])
  }

  // ---------------------------------------------------------------------
  // The "nice" inventory

  /** The domains kept in the nice inventory whatever the entity's name. */
  const NiceNonSwitchDomains: set<string> := {
    "light", "climate", "fan", "cover", "lock", "media_player", "vacuum", "scene", "script" }

  /** A switch labelled with its room (`[...]`) that is not one of the
      internet-access, child-lock or schedule switches. */
  predicate RoomSwitch(name: string) {
    var n := Lower(name);
    StartsWith(n, "[") && !Contains(n, "internet access") && !Contains(n, "child lock") && !Contains(n, "schedule")
  }

  /** The test `nice` applies to each control entity. */
  predicate IsNice(e: Entity) {
    if e.domain in NiceNonSwitchDomains then true
    else if e.domain != "switch" then false
    else RoomSwitch(e.name)
  }

  /** The `nice` filter over the control entities. */
  function Nice(control: seq<Entity>): seq<Entity> {
    Filter(control, IsNice)
  }

  /** The nice inventory holds, of all the entities, exactly those of the
      nine non-switch domains and the room-labelled switches, in list
      order; it is part of the control inventory and never holds an
      automation or an input boolean. */
  lemma NiceSpec(list: seq<Entity>)
    ensures forall e :: e in Nice(Control(list)) <==>
      e in list && (e.domain in NiceNonSwitchDomains || (e.domain == "switch" && RoomSwitch(e.name)))
    ensures forall e :: e in Nice(Control(list)) ==> e in Control(list)
    ensures forall e :: e in Nice(Control(list)) ==> e.domain != "automation" && e.domain != "input_boolean"
  {
    ControlSpec(list);
    forall e ensures e in Nice(Control(list)) <==> e in Control(list) && IsNice(e) {
      FilterMembership(Control(list), IsNice, e);
    }
  }

  // ---------------------------------------------------------------------
  // The script

  /** What the script writes: the area names of the "## Areas" line, the
      control inventory (inventory.md) and the nice one
      (inventory-nice.md). */
  datatype Written = Written(areas: seq<string>, control: Inventory, nice: Inventory)

  /** The script after its fetches: enrich the states, filter them, and
      build both inventories. */
  method Refresh(states: seq<State>, areasStr: string, areaList: Option<seq<string>>) returns (w: Written)
    ensures w.areas == AreaList(areasStr)
    ensures InventoryOf(w.control, Control(Enriched(states, areaList)))
    ensures InventoryOf(w.nice, Nice(Control(Enriched(states, areaList))))
  {
    var enriched := Enriched(states, areaList);
    var control := Control(enriched);
    var nice := Nice(control);
    var controlInv := BuildInventory(control);
    var niceInv := BuildInventory(nice);
    w := Written(AreaList(areasStr), controlInv, niceInv);
  }

  /** Each state of a control domain is listed in the control inventory
      under its aligned area entry, or under "Unassigned" when the area
      list is not an array or that entry is missing or empty. */
  lemma ControlStateListed(states: seq<State>, areaList: Option<seq<string>>, inv: Inventory, i: nat)
    requires InventoryOf(inv, Control(Enriched(states, areaList)))
    requires i < |states| && DomainOf(states[i].entityId) in ImportantDomains
    ensures exists a, j, e ::
      && 0 <= a < |inv.areas| && 0 <= j < |inv.areas[a].domains| && e in inv.areas[a].domains[j].items
      && inv.areas[a].area ==
        (if areaList.Some? && i < |areaList.value| && areaList.value[i] != "" then areaList.value[i] else Unassigned)
      && inv.areas[a].domains[j].domain == DomainOf(states[i].entityId)
      && e.entityId == states[i].entityId && e.state == states[i].state
  {
    var areas := match areaList case Some(l) => l case None => [];
    var en := Enrich(states, areas);
    ControlSpec(en);
    assert en[i] in en;
    ListedUnderItsArea(states, areas, Control(en), inv, i);
  }
}
