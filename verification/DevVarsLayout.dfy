// How a generated `.dev.vars` (scripts/setup.ts) is laid out: its headings, the
// order of its blocks, and the commented lines that offer further names.
module DevVarsLayout {
  import opened Wrappers
  import opened Text
  import opened Sorting
  import opened DevVars
  import opened DevVarsFile

  lemma {:induction false} UnsetLinesExactly(names: seq<string>, name: string)
    ensures Unset(name) in UnsetLines(names) <==> name in names
    ensures forall i :: 0 <= i < |UnsetLines(names)| ==> UnsetLines(names)[i].Unset?
  {
    if names != [] {
      UnsetLinesExactly(names[1..], name);
      assert names == [names[0]] + names[1..];
    }
  }

  // Of the worker's variables, exactly those are offered that the setup does not
  // manage and the old file did not have.
  lemma PlaceholdersExactly(existing: Vars, managed: seq<string>, codeUnits: (string, string) -> bool, name: string)
    ensures Unset(name) in UnsetPart(existing, managed, codeUnits)
       <==> name in managed && name !in SETUP_MANAGED_VARS && Lookup(existing, name).None?
  {
    var offered := Filter(managed, StillUnset(WorkerVars(managed, existing)));
    var sorted := Sort(offered, codeUnits);
    FilterMembers(managed, StillUnset(WorkerVars(managed, existing)));
    WorkerVarsSay(managed, existing, name);
    SortMultiset(offered, codeUnits);
    UnsetLinesExactly(sorted, name);
    assert name in sorted <==> name in multiset(sorted);
    assert name in offered <==> name in multiset(offered);
  }

  // Of the setup's own optional variables, exactly those without a value.
  lemma {:induction false} ProvidedPlaceholders(cfg: Config, names: seq<string>, name: string)
    ensures Unset(name) in Provided(cfg, names) <==>
      name in names && (name !in cfg.devVars || cfg.devVars[name] == "")
  {
    if names != [] {
      ProvidedPlaceholders(cfg, names[1..], name);
      assert names == [names[0]] + names[1..];
    }
  }

  // An offered name is skipped by the reader, and without its `#` it is read as
  // set to nothing.
  lemma PlaceholderUncomments(vars: Vars, name: string)
    requires KeyOk(name)
    ensures
      var line := TextOf(Unset(name));
      line[0] == '#' && ReadLine(vars, line) == vars && ReadLine(vars, line[1..]) == Put(vars, name, "")
  {
    var line, quoted := TextOf(Unset(name)), "\"\"";
    TrimFixed(line);
    assert line[1..] == name + "=" + quoted;
    ReadPlain(vars, name, quoted);
    assert quoted[1..1] == "" && Unquote(quoted) == "";
    hide Trim, ReadLine;
    ReadIgnores(vars, line);
  }

  // ------------------------------------------------------------------
  // Blocks
  // ------------------------------------------------------------------

  lemma {:induction false} EntryLinesAt(entries: Vars, i: nat)
    ensures |EntryLines(entries)| == |entries|
    ensures i < |entries| ==> EntryLines(entries)[i] == Assign(entries[i].0, entries[i].1)
  {
    if entries != [] {
      EntryLinesAt(entries[1..], if i == 0 then 0 else i - 1);
    }
  }

  lemma {:induction false} UnsetLinesAt(names: seq<string>, i: nat)
    ensures |UnsetLines(names)| == |names|
    ensures i < |names| ==> UnsetLines(names)[i] == Unset(names[i])
  {
    if names != [] {
      UnsetLinesAt(names[1..], if i == 0 then 0 else i - 1);
    }
  }

  lemma ByNameTotal(collate: (string, string) -> bool)
    requires TotalPreorder(collate)
    ensures TotalPreorder(ByName(collate))
  {
    var order := ByName(collate);
    forall x: (string, string), y: (string, string) ensures order(x, y) || order(y, x) {
      assert collate(x.0, y.0) || collate(y.0, x.0);
    }
    forall x: (string, string), y: (string, string), z: (string, string) | order(x, y) && order(y, z) ensures order(x, z) {
      assert collate(x.0, y.0) && collate(y.0, z.0);
    }
  }

  // A heading after a blank line, then assignments in the order of their names;
  // nothing at all when there are no variables.
  ghost predicate Titled(block: seq<Line>, title: string, entries: Vars, collate: (string, string) -> bool) {
    && (block == [] <==> entries == [])
    && (block != [] ==> |block| == |entries| + 2 && block[0] == Blank && block[1] == Note(title))
    && (forall i :: 2 <= i < |block| ==> block[i].Assign? && (block[i].key, block[i].value) in entries)
    && (forall i, j :: 2 <= i < j < |block| && block[i].Assign? && block[j].Assign? ==> collate(block[i].key, block[j].key))
  }

  lemma EntriesTitled(title: string, entries: Vars, collate: (string, string) -> bool)
    requires TotalPreorder(collate)
    ensures Titled(Block(title, EntryLines(Sort(entries, ByName(collate)))), title, entries, collate)
  {
    var sorted := Sort(entries, ByName(collate));
    var block := Block(title, EntryLines(sorted));
    ByNameTotal(collate);
    SortMultiset(entries, ByName(collate));
    SortSorted(entries, ByName(collate));
    EntryLinesAt(sorted, 0);
    assert |sorted| == |multiset(sorted)| == |multiset(entries)| == |entries|;
    hide Sort;
    forall i | 2 <= i < |block| ensures block[i] == Assign(sorted[i - 2].0, sorted[i - 2].1) && sorted[i - 2] in entries {
      EntryLinesAt(sorted, i - 2);
      assert sorted[i - 2] in multiset(sorted);
    }
    forall i, j | 2 <= i < j < |block| ensures collate(block[i].key, block[j].key) {
      assert ByName(collate)(sorted[i - 2], sorted[j - 2]);
    }
  }

  // The blocks of kept variables have their headings and are sorted by name.
  lemma BlocksSorted(existing: Vars, managed: seq<string>, collate: (string, string) -> bool)
    requires TotalPreorder(collate)
    ensures Titled(WorkerPart(existing, managed, collate), "Worker configuration variables (preserved)",
                   WorkerVars(managed, existing), collate)
    ensures Titled(PreservedPart(existing, managed, collate), PRESERVED_TITLE, PreservedVars(managed, existing), collate)
  {
    EntriesTitled(WORKER_TITLE, WorkerVars(managed, existing), collate);
    EntriesTitled(PRESERVED_TITLE, PreservedVars(managed, existing), collate);
    hide Titled;
  }

  // The offered names have theirs, and are sorted by code units.
  lemma PlaceholdersSorted(existing: Vars, managed: seq<string>, codeUnits: (string, string) -> bool)
    requires TotalPreorder(codeUnits)
    ensures
      var block := UnsetPart(existing, managed, codeUnits);
      && (block != [] ==> |block| > 2 && block[0] == Blank && block[1] == Note(UNSET_TITLE))
      && (forall i :: 2 <= i < |block| ==> block[i].Unset?)
      && (forall i, j :: 2 <= i < j < |block| && block[i].Unset? && block[j].Unset? ==> codeUnits(block[i].name, block[j].name))
  {
    var offered := Filter(managed, StillUnset(WorkerVars(managed, existing)));
    var sorted := Sort(offered, codeUnits);
    var block := UnsetPart(existing, managed, codeUnits);
    SortSorted(offered, codeUnits);
    UnsetLinesAt(sorted, 0);
    hide Sort, Filter;
    forall i | 2 <= i < |block| ensures block[i] == Unset(sorted[i - 2]) {
      UnsetLinesAt(sorted, i - 2);
    }
  }
}
