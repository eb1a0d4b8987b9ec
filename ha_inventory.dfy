/** scripts/ha-inventory.mjs: the command line (`--out`, `--mode`), the
    check that the area names line up with the states, the mode filter and
    the inventory it writes. */
module HaInventory {
  import opened Wrappers
  import opened Strings
  import opened Seqs
  import opened HomeAssistant

  // ---------------------------------------------------------------------
  // The command line

  /** What `arg` returns: a string, or `true` for an option given without
      a value. */
  datatype ArgValue = Text(s: string) | True

  /** `arg(name, def)` over the whole `process.argv`: the default when the
      option is absent; `true` when the first occurrence of the option is
      the last argument or is followed by "" or by an argument starting
      with `--`; otherwise the argument after it. */
  function Arg(argv: seq<string>, name: string, def: string): (v: ArgValue)
    ensures name !in argv ==> v == Text(def)
    ensures forall i :: 0 <= i < |argv| && argv[i] == name && name !in argv[..i] ==>
      && (v == True <==> i + 1 == |argv| || argv[i + 1] == "" || StartsWith(argv[i + 1], "--"))
      && (v.Text? ==> v.s == argv[i + 1] && v.s != "" && !StartsWith(v.s, "--"))
  {
    var i := IndexOf(argv, name);
    assert forall k :: 0 <= k < |argv| && argv[k] == name && name !in argv[..k] ==> k == i by {
      forall k | 0 <= k < |argv| && argv[k] == name && name !in argv[..k] {
        FirstIndex(argv, name, k);
      }
    }
    if i == -1 then Text(def)
    else if i + 1 == |argv| || argv[i + 1] == "" || StartsWith(argv[i + 1], "--") then True
    else Text(argv[i + 1])
  }

  /** The value is taken from the first occurrence of the option and the
      argument right after it: what follows them changes nothing. */
  lemma ArgFirstWins(argv: seq<string>, name: string, def: string, more: seq<string>)
    requires name in argv && IndexOf(argv, name) + 1 < |argv|
    ensures Arg(argv + more, name, def) == Arg(argv, name, def)
  {
    var i := IndexOf(argv, name);
    var j := IndexOf(argv + more, name);
    assert (argv + more)[..i] == argv[..i];
    assert (argv + more)[i] == name;
    assert forall k :: 0 <= k < i ==> (argv + more)[k] != name;
    assert forall k :: 0 <= k < j ==> (argv + more)[k] != name by {
      forall k | 0 <= k < j ensures (argv + more)[k] != name {
        assert (argv + more)[..j][k] == (argv + more)[k];
      }
    }
    assert j == i;
    assert (argv + more)[i + 1] == argv[i + 1];
  }

  const DefaultOut: string := "/root/.openclaw/workspace/memory/homeassistant-overview.md"

  // ---------------------------------------------------------------------
  // The mode filter

  /** `filtered`: mode "control" keeps the entities of the twelve control
      domains, any other mode (also `true`, a `--mode` without a value)
      keeps them all. */
  function Filtered(mode: ArgValue, enriched: seq<Entity>): seq<Entity> {
    if mode == Text("control") then Control(enriched) else enriched
  }

  lemma FilteredSpec(mode: ArgValue, enriched: seq<Entity>)
    ensures mode == Text("control") ==>
      forall e :: e in Filtered(mode, enriched) <==> e in enriched && e.domain in ImportantDomains
    ensures mode != Text("control") ==> Filtered(mode, enriched) == enriched
  {
    ControlSpec(enriched);
  }

  // ---------------------------------------------------------------------
  // The script

  /** What the script writes: the output path, the mode shown in the
      summary, and the inventory. */
  datatype Written = Written(outPath: string, mode: ArgValue, inventory: Inventory)

  const AreaListMismatch: string := "Area list mismatch"

  /** `--out` given without a value leaves the path `true`, on which
      creating the output directory throws. */
  const PathNotString: string := "The \"path\" argument must be of type string"

  /** The script after its fetches: `areaList` is the parsed area list,
      `None` when it is not an array. */
  method Run(argv: seq<string>, states: seq<State>, areaList: Option<seq<string>>) returns (r: Result<Written, string>)
    ensures (areaList.None? || |areaList.value| != |states|) ==> r == Failure(AreaListMismatch)
    ensures areaList.Some? && |areaList.value| == |states| ==>
      (r.Failure? <==> Arg(argv, "--out", DefaultOut) == True)
    ensures r.Failure? ==> r.error in {AreaListMismatch, PathNotString}
    ensures r.Failure? ==> (r.error == AreaListMismatch <==> areaList.None? || |areaList.value| != |states|)
    ensures r.Success? ==>
      && areaList.Some? && |areaList.value| == |states|
      && Text(r.value.outPath) == Arg(argv, "--out", DefaultOut)
      && r.value.mode == Arg(argv, "--mode", "control")
      && InventoryOf(r.value.inventory, Filtered(r.value.mode, Enrich(states, areaList.value)))
  {
    var out := Arg(argv, "--out", DefaultOut);
    var mode := Arg(argv, "--mode", "control");
    if areaList.None? || |areaList.value| != |states| {
      return Failure(AreaListMismatch);
    }
    var enriched := Enrich(states, areaList.value);
    var filtered := Filtered(mode, enriched);
    var inv := BuildInventory(filtered);
    match out {
      case True =>
        r := Failure(PathNotString);
      case Text(path) =>
        r := Success(Written(path, mode, inv));
    }
  }

  /** Each state the mode keeps is listed in the inventory under its
      aligned area entry (or "Unassigned" when that entry is empty), in the
      section of its domain. */
  lemma StateListed(mode: ArgValue, states: seq<State>, areas: seq<string>, inv: Inventory, i: nat)
    requires InventoryOf(inv, Filtered(mode, Enrich(states, areas)))
    requires i < |states|
    requires mode == Text("control") ==> DomainOf(states[i].entityId) in ImportantDomains
    ensures exists a, j, e ::
      && 0 <= a < |inv.areas| && 0 <= j < |inv.areas[a].domains| && e in inv.areas[a].domains[j].items
      && inv.areas[a].area == (if i < |areas| && areas[i] != "" then areas[i] else Unassigned)
      && inv.areas[a].domains[j].domain == DomainOf(states[i].entityId)
      && e.entityId == states[i].entityId && e.state == states[i].state
  {
    var en := Enrich(states, areas);
    FilteredSpec(mode, en);
    assert en[i] in en;
    ListedUnderItsArea(states, areas, Filtered(mode, en), inv, i);
  }
}
