// The .dev.vars file that the setup generates (scripts/setup.ts
// generateDevVarsFile): what it says of every name, managed or not.
module DevVarsFile {
  import opened Wrappers
  import opened Text
  import opened Sorting
  import opened DevVars

  // ------------------------------------------------------------------
  // The generated file
  // ------------------------------------------------------------------

  const SETUP_MANAGED_VARS: set<string> := {
    "CUSTOM_DOMAIN", "ENVIRONMENT", "CLOUDFLARE_API_TOKEN", "CLOUDFLARE_ACCOUNT_ID",
    "CLOUDFLARE_AI_GATEWAY_TOKEN", "CLOUDFLARE_AI_GATEWAY_URL",
    "ANTHROPIC_API_KEY", "OPENAI_API_KEY", "GOOGLE_AI_STUDIO_API_KEY", "OPENROUTER_API_KEY", "GROQ_API_KEY",
    "GOOGLE_CLIENT_ID", "GOOGLE_CLIENT_SECRET", "GITHUB_CLIENT_ID", "GITHUB_CLIENT_SECRET",
    "GITHUB_EXPORTER_CLIENT_ID", "GITHUB_EXPORTER_CLIENT_SECRET",
    "JWT_SECRET", "WEBHOOK_SECRET"
  }

  const PROVIDER_VARS: seq<string> :=
    ["ANTHROPIC_API_KEY", "OPENAI_API_KEY", "GOOGLE_AI_STUDIO_API_KEY", "OPENROUTER_API_KEY", "GROQ_API_KEY"]

  const OAUTH_VARS: seq<string> :=
    ["GOOGLE_CLIENT_ID", "GOOGLE_CLIENT_SECRET", "GITHUB_CLIENT_ID", "GITHUB_CLIENT_SECRET"]

  datatype Config = Config(
    customDomain: Option<string>, apiToken: string, accountId: string, aiGatewayUrl: Option<string>,
    devVars: map<string, string>)

  predicate SetupManaged(key: string) {
    key in SETUP_MANAGED_VARS
  }

  function DevVar(cfg: Config, name: string): Option<string> {
    if name in cfg.devVars then Some(cfg.devVars[name]) else None
  }

  // A missing value in a template string.
  function Shown(value: Option<string>): string {
    if value.Some? then value.value else "undefined"
  }

  function OrEmpty(value: Option<string>): string {
    if value.Some? then value.value else ""
  }

  predicate Truthy(value: Option<string>) {
    value.Some? && value.value != ""
  }

  function Security(cfg: Config): seq<Line> {
    [Note("Security Configuration"),
     Assign("CUSTOM_DOMAIN", Shown(cfg.customDomain)),
     Assign("ENVIRONMENT", "dev"),
     Blank]
  }

  function Essential(cfg: Config): seq<Line> {
    [Note("Essential Secrets"),
     Assign("CLOUDFLARE_API_TOKEN", cfg.apiToken),
     Assign("CLOUDFLARE_ACCOUNT_ID", cfg.accountId),
     Blank]
  }

  function GatewayToken(cfg: Config): seq<Line> {
    [Note("AI Gateway Configuration"),
     Assign("CLOUDFLARE_AI_GATEWAY_TOKEN", Shown(DevVar(cfg, "CLOUDFLARE_AI_GATEWAY_TOKEN")))]
  }

  function Opening(cfg: Config): seq<Line> {
    Security(cfg) + Essential(cfg) + GatewayToken(cfg)
  }

  function Gateway(cfg: Config): seq<Line> {
    if Truthy(cfg.aiGatewayUrl) then [Assign("CLOUDFLARE_AI_GATEWAY_URL", cfg.aiGatewayUrl.value)] else []
  }

  function Provided(cfg: Config, names: seq<string>): seq<Line> {
    if names == [] then []
    else if Truthy(DevVar(cfg, names[0])) then
      [Assign(names[0], DevVar(cfg, names[0]).value)] + Provided(cfg, names[1..])
    else [Unset(names[0])] + Provided(cfg, names[1..])
  }

  function Exporter(cfg: Config): seq<Line> {
    var id, secret := DevVar(cfg, "GITHUB_EXPORTER_CLIENT_ID"), DevVar(cfg, "GITHUB_EXPORTER_CLIENT_SECRET");
    if Truthy(id) || Truthy(secret) then
      [Blank, Note("GitHub Exporter OAuth Configuration"),
       Assign("GITHUB_EXPORTER_CLIENT_ID", OrEmpty(id)), Assign("GITHUB_EXPORTER_CLIENT_SECRET", OrEmpty(secret))]
    else []
  }

  function Required(cfg: Config): seq<Line> {
    [Blank, Note("Required secrets"),
     Assign("JWT_SECRET", Shown(DevVar(cfg, "JWT_SECRET"))),
     Assign("WEBHOOK_SECRET", Shown(DevVar(cfg, "WEBHOOK_SECRET")))]
  }

  function Tunnel(cfg: Config): seq<Line> {
    var tunnel := DevVar(cfg, "USE_TUNNEL_FOR_PREVIEW");
    if Truthy(tunnel) then [Assign("USE_TUNNEL_FOR_PREVIEW", tunnel.value)] else []
  }

  // What the setup itself decides.
  function HeadLines(cfg: Config): seq<Line> {
    Opening(cfg) + Gateway(cfg)
    + [Blank, Note("Provider specific secrets")] + Provided(cfg, PROVIDER_VARS)
    + [Blank, Note("OAuth Configuration")] + Provided(cfg, OAUTH_VARS)
    + Exporter(cfg) + Required(cfg) + Tunnel(cfg)
  }

  // Variables of the worker configuration that the setup does not manage, with
  // the values they had.
  function WorkerVars(managed: seq<string>, existing: Vars): Vars {
    if managed == [] then []
    else if !SetupManaged(managed[0]) && Lookup(existing, managed[0]).Some? then
      [(managed[0], Lookup(existing, managed[0]).value)] + WorkerVars(managed[1..], existing)
    else WorkerVars(managed[1..], existing)
  }

  function Unknown(managed: seq<string>): ((string, string)) -> bool {
    (e: (string, string)) => e.0 !in managed && !SetupManaged(e.0)
  }

  // Variables nobody manages.
  function PreservedVars(managed: seq<string>, existing: Vars): Vars {
    Filter(existing, Unknown(managed))
  }

  function StillUnset(worker: Vars): string -> bool {
    (name: string) => !SetupManaged(name) && Lookup(worker, name).None?
  }

  function EntryLines(entries: Vars): seq<Line> {
    if entries == [] then [] else [Assign(entries[0].0, entries[0].1)] + EntryLines(entries[1..])
  }

  function UnsetLines(names: seq<string>): seq<Line> {
    if names == [] then [] else [Unset(names[0])] + UnsetLines(names[1..])
  }

  function Block(title: string, lines: seq<Line>): seq<Line> {
    if lines == [] then [] else [Blank, Note(title)] + lines
  }

  function ByName(collate: (string, string) -> bool): ((string, string), (string, string)) -> bool {
    (a: (string, string), b: (string, string)) => collate(a.0, b.0)
  }

  const WORKER_TITLE := "Worker configuration variables (preserved)"
  const UNSET_TITLE := "Additional worker configuration variables" + " (uncomment and set as needed)"
  const PRESERVED_TITLE := "Additional variables" + " (preserved from existing .dev.vars)"

  function WorkerPart(existing: Vars, managed: seq<string>, collate: (string, string) -> bool): seq<Line> {
    Block(WORKER_TITLE, EntryLines(Sort(WorkerVars(managed, existing), ByName(collate))))
  }

  function UnsetPart(existing: Vars, managed: seq<string>, codeUnits: (string, string) -> bool): seq<Line> {
    Block(UNSET_TITLE, UnsetLines(Sort(Filter(managed, StillUnset(WorkerVars(managed, existing))), codeUnits)))
  }

  function PreservedPart(existing: Vars, managed: seq<string>, collate: (string, string) -> bool): seq<Line> {
    Block(PRESERVED_TITLE, EntryLines(Sort(PreservedVars(managed, existing), ByName(collate))))
  }

  function TailLines(existing: Vars, managed: seq<string>,
                     collate: (string, string) -> bool, codeUnits: (string, string) -> bool): seq<Line> {
    WorkerPart(existing, managed, collate) + UnsetPart(existing, managed, codeUnits)
    + PreservedPart(existing, managed, collate)
  }

  function ReadExisting(file: Option<string>): Vars {
    if file.Some? then Read(file.value) else []
  }

  // The new file, from the old one (if there is one), the configuration, the
  // names in the worker configuration, and the two orders used for sorting.
  function Generated(file: Option<string>, cfg: Config, managed: seq<string>,
                     collate: (string, string) -> bool, codeUnits: (string, string) -> bool): string {
    Render(HeadLines(cfg)) + Render(TailLines(ReadExisting(file), managed, collate, codeUnits))
  }

  // ------------------------------------------------------------------
  // What the generated file says
  // ------------------------------------------------------------------

  // The names of the worker configuration are a Set of identifiers.
  ghost predicate Names(managed: seq<string>) {
    && (forall i, j :: 0 <= i < j < |managed| ==> managed[i] != managed[j])
    && (forall i :: 0 <= i < |managed| ==> '\n' !in managed[i])
  }

  lemma {:induction false} LookupMissing(vars: Vars, key: string)
    requires forall i :: 0 <= i < |vars| ==> vars[i].0 != key
    ensures Lookup(vars, key) == None
  {
    if vars != [] {
      LookupMissing(vars[1..], key);
    }
  }

  lemma {:induction false} LookupIn(vars: Vars, key: string)
    requires DistinctNames(vars)
    ensures forall v :: Lookup(vars, key) == Some(v) <==> (key, v) in vars
  {
    if vars != [] {
      assert vars == [vars[0]] + vars[1..];
      LookupIn(vars[1..], key);
      if vars[0].0 == key {
        LookupMissing(vars[1..], key);
      }
    }
  }

  function NameOf(): ((string, string)) -> string {
    (e: (string, string)) => e.0
  }

  lemma LookupSorted(vars: Vars, key: string, leq: ((string, string), (string, string)) -> bool)
    requires DistinctNames(vars)
    ensures DistinctNames(Sort(vars, leq))
    ensures Lookup(Sort(vars, leq), key) == Lookup(vars, key)
  {
    var s := Sort(vars, leq);
    SortMultiset(vars, leq);
    assert DistinctBy(vars, NameOf());
    DistinctPermuted(vars, s, NameOf());
    assert forall i, j :: 0 <= i < j < |s| ==> NameOf()(s[i]) != NameOf()(s[j]) ==> s[i].0 != s[j].0;
    LookupIn(vars, key);
    LookupIn(s, key);
    forall v ensures (key, v) in s <==> (key, v) in vars {
      assert (key, v) in multiset(s) <==> (key, v) in multiset(vars);
    }
    hide Sort, Lookup;
    if Lookup(s, key).Some? {
      assert (key, Lookup(s, key).value) in vars;
    } else if Lookup(vars, key).Some? {
      assert (key, Lookup(vars, key).value) in s;
    }
  }

  lemma {:induction false} LookupEntries(vars: Vars, entries: Vars, key: string)
    requires Readable(entries)
    ensures forall i :: 0 <= i < |EntryLines(entries)| ==> LineOk(EntryLines(entries)[i])
    ensures Lookup(Effects(vars, EntryLines(entries)), key)
         == match Lookup(entries, key) case Some(v) => Some(Reread(v)) case None => Lookup(vars, key)
    decreases |entries|
  {
    if entries != [] {
      var (name, value) := entries[0];
      var lines := EntryLines(entries);
      assert lines[0] == Assign(name, value) && lines[1..] == EntryLines(entries[1..]);
      LookupPut(vars, name, Reread(value), key);
      LookupEntries(Put(vars, name, Reread(value)), entries[1..], key);
      if name == key {
        LookupMissing(entries[1..], key);
      }
    }
  }

  lemma {:induction false} UnsetEffects(vars: Vars, names: seq<string>)
    requires forall i :: 0 <= i < |names| ==> '\n' !in names[i]
    ensures forall i :: 0 <= i < |UnsetLines(names)| ==> LineOk(UnsetLines(names)[i])
    ensures Effects(vars, UnsetLines(names)) == vars
    decreases |names|
  {
    if names != [] {
      var lines := UnsetLines(names);
      assert lines[0] == Unset(names[0]) && lines[1..] == UnsetLines(names[1..]);
      UnsetEffects(vars, names[1..]);
    }
  }

  lemma BlockEffects(vars: Vars, title: string, lines: seq<Line>)
    requires '\n' !in title && forall i :: 0 <= i < |lines| ==> LineOk(lines[i])
    ensures forall i :: 0 <= i < |Block(title, lines)| ==> LineOk(Block(title, lines)[i])
    ensures Effects(vars, Block(title, lines)) == Effects(vars, lines)
  {
    if lines != [] {
      EffectsAppend(vars, [Blank, Note(title)], lines);
      assert [Blank, Note(title)][1..] == [Note(title)];
      assert Effects(vars, [Blank, Note(title)]) == Effects(vars, [Note(title)]);
      assert [Note(title)][1..] == [];
      assert Effects(vars, [Note(title)]) == vars;
    }
  }

  lemma {:induction false} WorkerVarsSay(managed: seq<string>, existing: Vars, key: string)
    ensures Lookup(WorkerVars(managed, existing), key)
         == if key in managed && !SetupManaged(key) then Lookup(existing, key) else None
  {
    if managed != [] {
      assert key in managed <==> key == managed[0] || key in managed[1..];
      WorkerVarsSay(managed[1..], existing, key);
      hide SetupManaged;
    }
  }

  lemma FoundReadable(vars: Vars, key: string)
    requires Readable(vars) && Lookup(vars, key).Some?
    ensures KeyOk(key) && '\n' !in Lookup(vars, key).value
  {
    LookupIn(vars, key);
    hide Lookup, KeyOk;
    assert (key, Lookup(vars, key).value) in vars;
  }

  lemma ConsReadable(key: string, value: string, vars: Vars)
    requires Readable(vars) && KeyOk(key) && '\n' !in value
    requires forall i :: 0 <= i < |vars| ==> vars[i].0 != key
    ensures Readable([(key, value)] + vars)
  {
    hide KeyOk;
  }

  lemma {:induction false} WorkerVarsReadable(managed: seq<string>, existing: Vars)
    requires Names(managed) && Readable(existing)
    ensures Readable(WorkerVars(managed, existing))
    ensures forall i :: 0 <= i < |WorkerVars(managed, existing)| ==> WorkerVars(managed, existing)[i].0 in managed
  {
    if managed != [] {
      var name, rest := managed[0], WorkerVars(managed[1..], existing);
      WorkerVarsReadable(managed[1..], existing);
      hide SetupManaged, KeyOk, Lookup;
      if !SetupManaged(name) && Lookup(existing, name).Some? {
        var value := Lookup(existing, name).value;
        FoundReadable(existing, name);
        assert name !in managed[1..];
        ConsReadable(name, value, rest);
      }
    }
  }

  lemma {:induction false} PreservedSay(managed: seq<string>, existing: Vars, key: string)
    ensures Lookup(PreservedVars(managed, existing), key)
         == if key !in managed && !SetupManaged(key) then Lookup(existing, key) else None
  {
    if existing != [] {
      PreservedSay(managed, existing[1..], key);
      hide SetupManaged;
    }
  }

  lemma PreservedReadable(managed: seq<string>, existing: Vars)
    requires Readable(existing)
    ensures Readable(PreservedVars(managed, existing))
  {
    var p := PreservedVars(managed, existing);
    DistinctFiltered(existing, Unknown(managed), NameOf());
    FilterMembers(existing, Unknown(managed));
    assert forall i, j :: 0 <= i < j < |p| ==> NameOf()(p[i]) != NameOf()(p[j]) ==> p[i].0 != p[j].0;
    forall i | 0 <= i < |p| ensures KeyOk(p[i].0) && '\n' !in p[i].1 {
      assert p[i] in existing;
    }
  }

  // A sorted block of entries: every line can be read back, and the block says
  // what the entries say.
  lemma EntryBlock(vars: Vars, title: string, entries: Vars, key: string, collate: (string, string) -> bool)
    requires Readable(entries) && '\n' !in title
    ensures
      var block := Block(title, EntryLines(Sort(entries, ByName(collate))));
      && (forall i :: 0 <= i < |block| ==> LineOk(block[i]))
      && Lookup(Effects(vars, block), key)
         == match Lookup(entries, key) case Some(v) => Some(Reread(v)) case None => Lookup(vars, key)
  {
    var sorted := Sort(entries, ByName(collate));
    LookupSorted(entries, key, ByName(collate));
    SortMultiset(entries, ByName(collate));
    assert Readable(sorted) by {
      forall i | 0 <= i < |sorted| ensures KeyOk(sorted[i].0) && '\n' !in sorted[i].1 {
        assert sorted[i] in multiset(entries);
      }
    }
    hide *;
    LookupEntries(vars, sorted, key);
    BlockEffects(vars, title, EntryLines(sorted));
  }

  lemma UnsetBlock(vars: Vars, title: string, names: seq<string>, codeUnits: (string, string) -> bool)
    requires '\n' !in title && forall i :: 0 <= i < |names| ==> '\n' !in names[i]
    ensures
      var block := Block(title, UnsetLines(Sort(names, codeUnits)));
      && (forall i :: 0 <= i < |block| ==> LineOk(block[i]))
      && Effects(vars, block) == vars
  {
    var sorted := Sort(names, codeUnits);
    SortMultiset(names, codeUnits);
    forall i | 0 <= i < |sorted| ensures '\n' !in sorted[i] {
      assert sorted[i] in multiset(names);
    }
    hide *;
    UnsetEffects(vars, sorted);
    BlockEffects(vars, title, UnsetLines(sorted));
  }

  lemma WorkerTitleOk()
    ensures '\n' !in WORKER_TITLE
  {
  }

  lemma UnsetTitleOk()
    ensures '\n' !in UNSET_TITLE
  {
    var a, b := "Additional worker configuration variables", " (uncomment and set as needed)";
    assert '\n' !in a;
    assert '\n' !in b;
    assert UNSET_TITLE == a + b;
  }

  lemma PreservedTitleOk()
    ensures '\n' !in PRESERVED_TITLE
  {
    var a, b := "Additional variables", " (preserved from existing .dev.vars)";
    assert '\n' !in a;
    assert '\n' !in b;
    assert PRESERVED_TITLE == a + b;
  }

  ghost predicate AllOk(lines: seq<Line>) {
    forall i :: 0 <= i < |lines| ==> LineOk(lines[i])
  }

  lemma AllOkAppend(a: seq<Line>, b: seq<Line>)
    requires AllOk(a) && AllOk(b)
    ensures AllOk(a + b)
  {
  }

  function OldOr(was: Option<string>, applies: bool, otherwise: Option<string>): Option<string> {
    if applies && was.Some? then Some(Reread(was.value)) else otherwise
  }

  lemma WorkerPartSays(vars: Vars, existing: Vars, managed: seq<string>, collate: (string, string) -> bool, key: string)
    requires Names(managed) && Readable(existing)
    ensures AllOk(WorkerPart(existing, managed, collate))
    ensures Lookup(Effects(vars, WorkerPart(existing, managed, collate)), key)
         == OldOr(Lookup(existing, key), key in managed && !SetupManaged(key), Lookup(vars, key))
  {
    WorkerTitleOk();
    hide SetupManaged, Lookup, Effects, Sort, Block, EntryLines, LineOk, Reread;
    WorkerVarsSay(managed, existing, key);
    WorkerVarsReadable(managed, existing);
    EntryBlock(vars, WORKER_TITLE, WorkerVars(managed, existing), key, collate);
  }

  lemma UnsetPartSays(vars: Vars, existing: Vars, managed: seq<string>, codeUnits: (string, string) -> bool)
    requires Names(managed)
    ensures AllOk(UnsetPart(existing, managed, codeUnits))
    ensures Effects(vars, UnsetPart(existing, managed, codeUnits)) == vars
  {
    var unset := Filter(managed, StillUnset(WorkerVars(managed, existing)));
    UnsetTitleOk();
    FilterMembers(managed, StillUnset(WorkerVars(managed, existing)));
    hide Effects, Sort, Block, UnsetLines, LineOk, Filter;
    forall i | 0 <= i < |unset| ensures '\n' !in unset[i] {
      assert unset[i] in managed;
    }
    UnsetBlock(vars, UNSET_TITLE, unset, codeUnits);
  }

  lemma PreservedPartSays(vars: Vars, existing: Vars, managed: seq<string>, collate: (string, string) -> bool, key: string)
    requires Readable(existing)
    ensures AllOk(PreservedPart(existing, managed, collate))
    ensures Lookup(Effects(vars, PreservedPart(existing, managed, collate)), key)
         == OldOr(Lookup(existing, key), key !in managed && !SetupManaged(key), Lookup(vars, key))
  {
    PreservedTitleOk();
    hide SetupManaged, Lookup, Effects, Sort, Block, EntryLines, LineOk, Reread, PreservedVars;
    PreservedSay(managed, existing, key);
    PreservedReadable(managed, existing);
    EntryBlock(vars, PRESERVED_TITLE, PreservedVars(managed, existing), key, collate);
  }

  // The tail of the file gives every name the setup does not manage its old
  // value, and says nothing else.
  lemma TailSays(vars: Vars, existing: Vars, managed: seq<string>,
                 collate: (string, string) -> bool, codeUnits: (string, string) -> bool, key: string)
    requires Names(managed) && Readable(existing)
    ensures AllOk(TailLines(existing, managed, collate, codeUnits))
    ensures Lookup(Effects(vars, TailLines(existing, managed, collate, codeUnits)), key)
         == OldOr(Lookup(existing, key), !SetupManaged(key), Lookup(vars, key))
  {
    var a, b := WorkerPart(existing, managed, collate), UnsetPart(existing, managed, codeUnits);
    var c := PreservedPart(existing, managed, collate);
    hide AllOk, SetupManaged, Lookup, Effects, WorkerPart, UnsetPart, PreservedPart, Readable, Names, Reread;
    WorkerPartSays(vars, existing, managed, collate, key);
    UnsetPartSays(Effects(vars, a), existing, managed, codeUnits);
    PreservedPartSays(Effects(vars, a), existing, managed, collate, key);
    AllOkAppend(a, b);
    AllOkAppend(a + b, c);
    EffectsAppend(vars, a, b);
    EffectsAppend(vars, a + b, c);
  }

  lemma HeadEnds(cfg: Config)
    ensures Render(HeadLines(cfg)) != "" && Last(Render(HeadLines(cfg))) == '\n'
  {
    hide Render, Gateway, Provided, Exporter, Required, Tunnel;
    assert |Opening(cfg)| > 0;
    RenderEnds(HeadLines(cfg));
  }

  lemma ReadAfterHead(cfg: Config, tail: seq<Line>)
    requires AllOk(tail)
    ensures Read(Render(HeadLines(cfg)) + Render(tail)) == Effects(Read(Render(HeadLines(cfg))), tail)
  {
    var head := Render(HeadLines(cfg));
    HeadEnds(cfg);
    hide Render, HeadLines, LineOk, Read;
    ReadResume(head, Render(tail));
    ReadRendered(Read(head), tail);
  }

  lemma ExistingReadable(file: Option<string>)
    ensures Readable(ReadExisting(file))
  {
    hide Read;
    if file.Some? {
      ReadReadable(file.value);
    }
  }

  // What a generated file says of every name: the old value of a name the setup
  // does not manage, otherwise what the setup has just written.
  lemma FileSays(file: Option<string>, cfg: Config, managed: seq<string>,
                 collate: (string, string) -> bool, codeUnits: (string, string) -> bool, key: string)
    requires Names(managed)
    ensures
      var existing := ReadExisting(file);
      Lookup(Read(Generated(file, cfg, managed, collate, codeUnits)), key)
      == if !SetupManaged(key) && Lookup(existing, key).Some? then Some(Reread(Lookup(existing, key).value))
         else Lookup(Read(Render(HeadLines(cfg))), key)
  {
    var existing := ReadExisting(file);
    hide Render, TailLines, Lookup, SetupManaged, Effects, HeadLines, Read, ReadExisting, Readable, Names, Reread, AllOk;
    var tail := TailLines(existing, managed, collate, codeUnits);
    ExistingReadable(file);
    TailSays(Read(Render(HeadLines(cfg))), existing, managed, collate, codeUnits, key);
    ReadAfterHead(cfg, tail);
  }

  // The round trip: a variable of the old file that the setup does not manage
  // reads the same in the new file exactly when its value holds no line
  // terminator. (A carriage return inside a line is one.)
  lemma ForeignRoundTripExactly(file: Option<string>, cfg: Config, managed: seq<string>,
                                collate: (string, string) -> bool, codeUnits: (string, string) -> bool, key: string)
    requires Names(managed)
    ensures
      var was, now := Lookup(ReadExisting(file), key), Lookup(Read(Generated(file, cfg, managed, collate, codeUnits)), key);
      was.Some? && !SetupManaged(key) ==>
        && (now == was <==> OneLine(was.value))
        && (now != was ==> now == Some("\"" + was.value + "\""))
  {
    var was := Lookup(ReadExisting(file), key);
    FileSays(file, cfg, managed, collate, codeUnits, key);
    if was.Some? {
      RereadExactly(was.value);
    }
    hide Generated, Read, Lookup, SetupManaged;
  }

  lemma ReadOne(line: string)
    requires '\n' !in line
    ensures Read(line) == ReadLine([], line)
  {
    SplitAt(line, "", '\n');
    hide Split, ReadLine;
    assert [line][0] == line && [line][1..] == [];
    assert ReadLines([], [line]) == ReadLines(ReadLine([], line), []);
  }

  // A file of one assignment.
  lemma ReadAssignment(key: string, value: string)
    requires KeyOk(key) && value != "" && !IsSpace(value[|value| - 1]) && '\n' !in value
    ensures Lookup(Read(key + "=" + value), key) == Some(Unquote(value))
  {
    assert '\n' !in key;
    hide KeyOk, Unquote, ReadLine, Read;
    ReadOne(key + "=" + value);
    ReadPlain([], key, value);
    LookupPut([], key, Unquote(value), key);
  }

  lemma Sample()
    ensures KeyOk("K") && !SetupManaged("K")
    ensures '\n' !in "a\rb" && Unquote("a\rb") == "a\rb" && !OneLine("a\rb")
  {
    assert IsTerminator("a\rb"[1]);
  }

  // A carriage return inside a line: the value comes back with quotes around it.
  lemma CarriageReturnBreaks(cfg: Config, collate: (string, string) -> bool, codeUnits: (string, string) -> bool)
    ensures
      var file, value := "K" + "=" + "a\rb", "a\rb";
      && Lookup(Read(file), "K") == Some(value)
      && Lookup(Read(Generated(Some(file), cfg, [], collate, codeUnits)), "K") == Some("\"" + value + "\"")
  {
    hide KeyOk, SetupManaged, Unquote, OneLine, Read, Lookup, Generated;
    Sample();
    ReadAssignment("K", "a\rb");
    ForeignRoundTripExactly(Some("K" + "=" + "a\rb"), cfg, [], collate, codeUnits, "K");
  }

  // ------------------------------------------------------------------
  // What the setup itself writes
  // ------------------------------------------------------------------

  // The value the setup decides for a name, if it writes that name at all.
  function Decided(cfg: Config, key: string): Option<string> {
    var given := if key in cfg.devVars then Some(cfg.devVars[key]) else None;
    match key
    case "CUSTOM_DOMAIN" => Some(if cfg.customDomain.Some? then cfg.customDomain.value else "undefined")
    case "ENVIRONMENT" => Some("dev")
    case "CLOUDFLARE_API_TOKEN" => Some(cfg.apiToken)
    case "CLOUDFLARE_ACCOUNT_ID" => Some(cfg.accountId)
    case "CLOUDFLARE_AI_GATEWAY_URL" => if cfg.aiGatewayUrl == Some("") then None else cfg.aiGatewayUrl
    case _ =>
      if key == "CLOUDFLARE_AI_GATEWAY_TOKEN" || key == "JWT_SECRET" || key == "WEBHOOK_SECRET" then
        Some(if given.Some? then given.value else "undefined")
      else if key == "GITHUB_EXPORTER_CLIENT_ID" || key == "GITHUB_EXPORTER_CLIENT_SECRET" then
        if HasExporter(cfg) then Some(if given.Some? then given.value else "") else None
      else if key in PROVIDER_VARS || key in OAUTH_VARS || key == "USE_TUNNEL_FOR_PREVIEW" then
        if given == Some("") then None else given
      else None
  }

  function IfTruthy(value: Option<string>): Option<string> {
    if Truthy(value) then value else None
  }

  // The exporter is configured in part at least.
  predicate HasExporter(cfg: Config) {
    || ("GITHUB_EXPORTER_CLIENT_ID" in cfg.devVars && cfg.devVars["GITHUB_EXPORTER_CLIENT_ID"] != "")
    || ("GITHUB_EXPORTER_CLIENT_SECRET" in cfg.devVars && cfg.devVars["GITHUB_EXPORTER_CLIENT_SECRET"] != "")
  }

  // The last assignment to a name.
  function Written(lines: seq<Line>, key: string): Option<string> {
    if lines == [] then None
    else if Last(lines).Assign? && Last(lines).key == key then Some(Last(lines).value)
    else Written(Init(lines), key)
  }

  function Either(a: Option<string>, b: Option<string>): Option<string> {
    if a.Some? then a else b
  }

  function Requoted(value: Option<string>): Option<string> {
    if value.Some? then Some(Reread(value.value)) else None
  }

  lemma {:induction false} WrittenAppend(a: seq<Line>, b: seq<Line>, key: string)
    ensures Written(a + b, key) == Either(Written(b, key), Written(a, key))
  {
    if b == [] {
      assert a + b == a;
    } else {
      assert Init(a + b) == a + Init(b) && Last(a + b) == Last(b);
      WrittenAppend(a, Init(b), key);
    }
  }

  lemma {:induction false} LookupEffects(vars: Vars, lines: seq<Line>, key: string)
    ensures Lookup(Effects(vars, lines), key) == Either(Requoted(Written(lines, key)), Lookup(vars, key))
  {
    if lines != [] {
      var before, line := Init(lines), Last(lines);
      assert lines == before + [line];
      EffectsAppend(vars, before, [line]);
      assert [line][1..] == [];
      assert Effects(Effects(vars, before), [line]) == Effect(Effects(vars, before), line);
      LookupEffects(vars, before, key);
      if line.Assign? {
        LookupPut(Effects(vars, before), line.key, Reread(line.value), key);
      }
    }
  }

  lemma {:induction false} WrittenAt(lines: seq<Line>, key: string, i: nat)
    requires i < |lines| && lines[i].Assign? && lines[i].key == key
    requires forall j :: i < j < |lines| && lines[j].Assign? ==> lines[j].key != key
    ensures Written(lines, key) == Some(lines[i].value)
  {
    if i < |lines| - 1 {
      WrittenAt(Init(lines), key, i);
    }
  }

  lemma {:induction false} NotWritten(lines: seq<Line>, key: string)
    requires forall j :: 0 <= j < |lines| && lines[j].Assign? ==> lines[j].key != key
    ensures Written(lines, key) == None
  {
    if lines != [] {
      NotWritten(Init(lines), key);
    }
  }

  lemma OpeningWrites(cfg: Config, key: string)
    ensures Written(Opening(cfg), key)
         == if key == "CUSTOM_DOMAIN" || key == "ENVIRONMENT" || key == "CLOUDFLARE_API_TOKEN"
               || key == "CLOUDFLARE_ACCOUNT_ID" || key == "CLOUDFLARE_AI_GATEWAY_TOKEN" then Decided(cfg, key)
            else None
  {
    var lines := Opening(cfg);
    hide Written;
    if key == "CUSTOM_DOMAIN" {
      WrittenAt(lines, key, 1);
    } else if key == "ENVIRONMENT" {
      WrittenAt(lines, key, 2);
    } else if key == "CLOUDFLARE_API_TOKEN" {
      WrittenAt(lines, key, 5);
    } else if key == "CLOUDFLARE_ACCOUNT_ID" {
      WrittenAt(lines, key, 6);
    } else if key == "CLOUDFLARE_AI_GATEWAY_TOKEN" {
      WrittenAt(lines, key, 9);
    } else {
      NotWritten(lines, key);
    }
  }

  lemma {:induction false} ProvidedWrites(cfg: Config, names: seq<string>, key: string)
    ensures Written(Provided(cfg, names), key) == if key in names then IfTruthy(DevVar(cfg, key)) else None
  {
    if names != [] {
      ProvidedWrites(cfg, names[1..], key);
      var first := if Truthy(DevVar(cfg, names[0])) then Assign(names[0], DevVar(cfg, names[0]).value) else Unset(names[0]);
      assert Provided(cfg, names) == [first] + Provided(cfg, names[1..]);
      WrittenAppend([first], Provided(cfg, names[1..]), key);
      assert Init([first]) == [];
    }
  }

  lemma ExporterWrites(cfg: Config, key: string)
    ensures Written(Exporter(cfg), key)
         == if key == "GITHUB_EXPORTER_CLIENT_ID" || key == "GITHUB_EXPORTER_CLIENT_SECRET" then Decided(cfg, key) else None
  {
    var lines := Exporter(cfg);
    hide Written;
    if lines != [] && key == "GITHUB_EXPORTER_CLIENT_ID" {
      WrittenAt(lines, key, 2);
    } else if lines != [] && key == "GITHUB_EXPORTER_CLIENT_SECRET" {
      WrittenAt(lines, key, 3);
    } else {
      NotWritten(lines, key);
    }
  }

  lemma RequiredWrites(cfg: Config, key: string)
    ensures Written(Required(cfg), key) == if key == "JWT_SECRET" || key == "WEBHOOK_SECRET" then Decided(cfg, key) else None
  {
    var lines := Required(cfg);
    hide Written;
    if key == "JWT_SECRET" {
      WrittenAt(lines, key, 2);
    } else if key == "WEBHOOK_SECRET" {
      WrittenAt(lines, key, 3);
    } else {
      NotWritten(lines, key);
    }
  }

  lemma HeadChain(cfg: Config, key: string)
    ensures
      Written(HeadLines(cfg), key)
      == Either(Written(Tunnel(cfg), key),
         Either(Written(Required(cfg), key),
         Either(Written(Exporter(cfg), key),
         Either(Written(Provided(cfg, OAUTH_VARS), key),
         Either(Written(Provided(cfg, PROVIDER_VARS), key),
         Either(Written(Gateway(cfg), key), Written(Opening(cfg), key)))))))
  {
    var providers, oauth := [Blank, Note("Provider specific secrets")], [Blank, Note("OAuth Configuration")];
    var a := Opening(cfg) + Gateway(cfg);
    var b := a + providers;
    var c := b + Provided(cfg, PROVIDER_VARS);
    var d := c + oauth;
    var e := d + Provided(cfg, OAUTH_VARS);
    var f := e + Exporter(cfg);
    var g := f + Required(cfg);
    assert HeadLines(cfg) == g + Tunnel(cfg);
    NotWritten(providers, key);
    NotWritten(oauth, key);
    hide Written, Opening, Gateway, Provided, Exporter, Required, Tunnel, HeadLines;
    WrittenAppend(Opening(cfg), Gateway(cfg), key);
    WrittenAppend(a, providers, key);
    WrittenAppend(b, Provided(cfg, PROVIDER_VARS), key);
    WrittenAppend(c, oauth, key);
    WrittenAppend(d, Provided(cfg, OAUTH_VARS), key);
    WrittenAppend(e, Exporter(cfg), key);
    WrittenAppend(f, Required(cfg), key);
    WrittenAppend(g, Tunnel(cfg), key);
  }

  lemma SingleWrites(cfg: Config, key: string)
    ensures Written(Gateway(cfg), key) == if key == "CLOUDFLARE_AI_GATEWAY_URL" then IfTruthy(cfg.aiGatewayUrl) else None
    ensures Written(Tunnel(cfg), key) == if key == "USE_TUNNEL_FOR_PREVIEW" then IfTruthy(DevVar(cfg, key)) else None
  {
  }

  // The lines of the setup write exactly the decided values.
  lemma HeadWrites(cfg: Config, key: string)
    ensures Written(HeadLines(cfg), key) == Decided(cfg, key)
  {
    OpeningWrites(cfg, key);
    ProvidedWrites(cfg, PROVIDER_VARS, key);
    ProvidedWrites(cfg, OAUTH_VARS, key);
    ExporterWrites(cfg, key);
    RequiredWrites(cfg, key);
    SingleWrites(cfg, key);
    HeadChain(cfg, key);
    hide Written, Opening, Gateway, Provided, Exporter, Required, Tunnel, HeadLines;
  }

  // Nothing in the configuration spans lines. (It is typed at a prompt.)
  ghost predicate SingleLine(cfg: Config) {
    && '\n' !in Shown(cfg.customDomain) && '\n' !in cfg.apiToken && '\n' !in cfg.accountId
    && '\n' !in OrEmpty(cfg.aiGatewayUrl)
    && forall name :: name in cfg.devVars ==> '\n' !in cfg.devVars[name]
  }

  const HEAD_NAMES: set<string> := SETUP_MANAGED_VARS + {"USE_TUNNEL_FOR_PREVIEW"}

  const HEAD_NOTES: set<string> := {
    "Security Configuration", "Essential Secrets", "AI Gateway Configuration", "Provider specific secrets",
    "OAuth Configuration", "GitHub Exporter OAuth Configuration", "Required secrets"
  }

  // A line made of the setup's own names and headings and a value on one line.
  ghost predicate Shaped(line: Line) {
    match line
    case Blank => true
    case Note(text) => text in HEAD_NOTES
    case Unset(name) => name in HEAD_NAMES
    case Assign(key, value) => key in HEAD_NAMES && '\n' !in value
  }

  ghost predicate AllShaped(lines: seq<Line>) {
    forall i :: 0 <= i < |lines| ==> Shaped(lines[i])
  }

  predicate Capitals(name: string) {
    name != "" && forall i :: 0 <= i < |name| ==> 'A' <= name[i] <= 'Z' || name[i] == '_'
  }

  lemma CapitalsOk(name: string)
    requires Capitals(name)
    ensures KeyOk(name)
  {
  }

  lemma DomainNamesOk()
    ensures Capitals("CUSTOM_DOMAIN") && Capitals("ENVIRONMENT")
  {
  }

  lemma ApiTokenNameOk()
    ensures Capitals("CLOUDFLARE_API_TOKEN")
  {
  }

  lemma AccountIdNameOk()
    ensures Capitals("CLOUDFLARE_ACCOUNT_ID")
  {
  }

  lemma GatewayTokenNameOk()
    ensures Capitals("CLOUDFLARE_AI_GATEWAY_TOKEN")
  {
  }

  lemma GatewayUrlNameOk()
    ensures Capitals("CLOUDFLARE_AI_GATEWAY_URL")
  {
  }

  lemma TunnelNameOk()
    ensures Capitals("USE_TUNNEL_FOR_PREVIEW")
  {
  }

  lemma ProviderNamesOk()
    ensures forall i :: 0 <= i < |PROVIDER_VARS| ==> Capitals(PROVIDER_VARS[i])
  {
  }

  lemma OAuthNamesOk()
    ensures forall i :: 0 <= i < |OAUTH_VARS| ==> Capitals(OAUTH_VARS[i])
  {
  }

  lemma SecretNamesOk()
    ensures Capitals("JWT_SECRET") && Capitals("WEBHOOK_SECRET")
  {
  }

  lemma ExporterIdNameOk()
    ensures Capitals("GITHUB_EXPORTER_CLIENT_ID")
  {
  }

  lemma ExporterSecretNameOk()
    ensures Capitals("GITHUB_EXPORTER_CLIENT_SECRET")
  {
  }

  lemma NamesOk(name: string)
    requires name in HEAD_NAMES
    ensures KeyOk(name)
  {
    DomainNamesOk();
    ApiTokenNameOk();
    AccountIdNameOk();
    GatewayTokenNameOk();
    GatewayUrlNameOk();
    TunnelNameOk();
    ProviderNamesOk();
    OAuthNamesOk();
    SecretNamesOk();
    ExporterIdNameOk();
    ExporterSecretNameOk();
    hide KeyOk, Capitals;
    assert name in PROVIDER_VARS || name in OAUTH_VARS || name in HEAD_NAMES - (set n | n in PROVIDER_VARS + OAUTH_VARS);
    CapitalsOk(name);
  }

  lemma ExporterNoteOk()
    ensures '\n' !in "GitHub Exporter OAuth Configuration"
  {
  }

  lemma NotesOk(text: string)
    requires text in HEAD_NOTES
    ensures '\n' !in text
  {
    ExporterNoteOk();
  }

  lemma ShapedOk(line: Line)
    requires Shaped(line)
    ensures LineOk(line)
  {
    match line
    case Blank =>
    case Note(text) => NotesOk(text);
    case Unset(name) => NamesOk(name);
    case Assign(key, value) => NamesOk(key);
  }

  lemma {:induction false} ProvidedShaped(cfg: Config, names: seq<string>)
    requires SingleLine(cfg) && forall i :: 0 <= i < |names| ==> names[i] in HEAD_NAMES
    ensures AllShaped(Provided(cfg, names))
  {
    if names != [] {
      ProvidedShaped(cfg, names[1..]);
      assert names[0] in HEAD_NAMES;
    }
  }

  lemma OpeningShaped(cfg: Config)
    requires SingleLine(cfg)
    ensures AllShaped(Opening(cfg)) && AllShaped(Gateway(cfg))
  {
    assert '\n' !in "dev" && '\n' !in "undefined";
  }

  lemma ClosingShaped(cfg: Config)
    requires SingleLine(cfg)
    ensures AllShaped(Exporter(cfg)) && AllShaped(Required(cfg)) && AllShaped(Tunnel(cfg))
  {
    assert '\n' !in "undefined" && '\n' !in "";
  }

  lemma ListedNames()
    ensures forall i :: 0 <= i < |PROVIDER_VARS| ==> PROVIDER_VARS[i] in HEAD_NAMES
    ensures forall i :: 0 <= i < |OAUTH_VARS| ==> OAUTH_VARS[i] in HEAD_NAMES
  {
  }

  lemma TitlesShaped()
    ensures AllShaped([Blank, Note("Provider specific secrets")]) && AllShaped([Blank, Note("OAuth Configuration")])
  {
  }

  lemma HeadShaped(cfg: Config)
    requires SingleLine(cfg)
    ensures AllShaped(HeadLines(cfg))
  {
    hide Opening, Gateway, Provided, Exporter, Required, Tunnel, Shaped, SingleLine;
    OpeningShaped(cfg);
    ClosingShaped(cfg);
    TitlesShaped();
    ListedNames();
    ProvidedShaped(cfg, PROVIDER_VARS);
    ProvidedShaped(cfg, OAUTH_VARS);
  }

  // Every line the setup writes is one line, and its names can be read back.
  lemma HeadOk(cfg: Config)
    requires SingleLine(cfg)
    ensures AllOk(HeadLines(cfg))
  {
    HeadShaped(cfg);
    forall i | 0 <= i < |HeadLines(cfg)| ensures LineOk(HeadLines(cfg)[i]) {
      ShapedOk(HeadLines(cfg)[i]);
    }
  }

  // The whole file: an unmanaged name keeps its old value, every other name has
  // the value the setup decided, and a name that is in neither is not in the file.
  lemma WholeFile(file: Option<string>, cfg: Config, managed: seq<string>,
                  collate: (string, string) -> bool, codeUnits: (string, string) -> bool, key: string)
    requires Names(managed) && SingleLine(cfg)
    ensures
      var existing := ReadExisting(file);
      Lookup(Read(Generated(file, cfg, managed, collate, codeUnits)), key)
      == if !SetupManaged(key) && Lookup(existing, key).Some? then Requoted(Lookup(existing, key))
         else Requoted(Decided(cfg, key))
  {
    FileSays(file, cfg, managed, collate, codeUnits, key);
    HeadOk(cfg);
    HeadWrites(cfg, key);
    hide HeadLines, Decided, SetupManaged, Generated, Written;
    ReadRendered([], HeadLines(cfg));
    LookupEffects([], HeadLines(cfg), key);
  }

  lemma RereadInjective(a: string, b: string)
    requires Reread(a) == Reread(b)
    ensures a == b
  {
    RereadExactly(a);
    RereadExactly(b);
    var q, r := "\"" + a + "\"", "\"" + b + "\"";
    assert q[1..|a| + 1] == a && r[1..|b| + 1] == b;
    if i :| 0 <= i < |a| && IsTerminator(a[i]) {
      assert q[i + 1] == a[i];
    }
    if i :| 0 <= i < |b| && IsTerminator(b[i]) {
      assert r[i + 1] == b[i];
    }
  }

  // The one name that the setup writes without managing it.
  const TUNNEL_VAR := "USE_TUNNEL_FOR_PREVIEW"

  lemma WrittenUnmanaged(cfg: Config, key: string)
    ensures Decided(cfg, key).Some? && !SetupManaged(key) ==> key == TUNNEL_VAR
    ensures !SetupManaged(TUNNEL_VAR)
  {
  }

  // A value that the setup decided is what the new file says, read back between
  // its quotes and so unchanged without a line terminator; unless the name is
  // USE_TUNNEL_FOR_PREVIEW and the old file had another value for it: that one wins.
  lemma DecidedTakesEffectExactly(file: Option<string>, cfg: Config, managed: seq<string>,
                                  collate: (string, string) -> bool, codeUnits: (string, string) -> bool, key: string)
    requires Names(managed) && SingleLine(cfg)
    ensures
      var was, now := Lookup(ReadExisting(file), key), Lookup(Read(Generated(file, cfg, managed, collate, codeUnits)), key);
      var decided := Decided(cfg, key);
      decided.Some? ==>
        && (now == Requoted(decided) <==> !(key == TUNNEL_VAR && was.Some? && was != decided))
        && (OneLine(decided.value) ==> (now == decided <==> !(key == TUNNEL_VAR && was.Some? && was != decided)))
  {
    var was, decided := Lookup(ReadExisting(file), key), Decided(cfg, key);
    WholeFile(file, cfg, managed, collate, codeUnits, key);
    WrittenUnmanaged(cfg, key);
    hide Generated, Read, Lookup, SetupManaged, Decided, Reread, SingleLine, OneLine;
    if decided.Some? {
      RereadExactly(decided.value);
    }
    if was.Some? && decided.Some? && Reread(was.value) == Reread(decided.value) {
      RereadInjective(was.value, decided.value);
    }
  }

  // It happens: the old file turns the tunnel off, the setup turns it on, and the
  // new file still says that it is off.
  lemma OldTunnelWins(managed: seq<string>, collate: (string, string) -> bool, codeUnits: (string, string) -> bool)
    requires Names(managed)
    ensures
      var file := TUNNEL_VAR + "=" + "\"false\"";
      var cfg := Config(Some("localhost:5173"), "token", "account", None, map[TUNNEL_VAR := "true"]);
      && Decided(cfg, TUNNEL_VAR) == Some("true")
      && Lookup(Read(Generated(Some(file), cfg, managed, collate, codeUnits)), TUNNEL_VAR) == Some("false")
  {
    var value := "\"false\"";
    var cfg := Config(Some("localhost:5173"), "token", "account", None, map[TUNNEL_VAR := "true"]);
    TunnelNameOk();
    CapitalsOk(TUNNEL_VAR);
    TunnelSample(cfg);
    hide KeyOk, Capitals, SetupManaged, Unquote, OneLine, Read, Lookup, Generated, Decided, SingleLine;
    ReadAssignment(TUNNEL_VAR, value);
    ForeignRoundTripExactly(Some(TUNNEL_VAR + "=" + value), cfg, managed, collate, codeUnits, TUNNEL_VAR);
  }

  lemma TunnelSample(cfg: Config)
    requires cfg.devVars == map[TUNNEL_VAR := "true"]
    ensures !SetupManaged(TUNNEL_VAR) && Decided(cfg, TUNNEL_VAR) == Some("true")
    ensures var value := "\"false\"";
      '\n' !in value && Unquote(value) == "false" && OneLine("false") && !IsSpace(value[|value| - 1])
  {
    assert "\"false\""[1..6] == "false";
  }

  // ------------------------------------------------------------------
  // The method
  // ------------------------------------------------------------------

  lemma {:induction false} PutNew(vars: Vars, key: string, value: string)
    requires forall i :: 0 <= i < |vars| ==> vars[i].0 != key
    ensures Put(vars, key, value) == vars + [(key, value)]
  {
    if vars != [] {
      PutNew(vars[1..], key, value);
      assert [vars[0]] + (vars[1..] + [(key, value)]) == vars + [(key, value)];
    }
  }

  method CollectWorkerVars(managed: seq<string>, existing: Vars) returns (worker: Vars)
    requires Names(managed)
    ensures worker == WorkerVars(managed, existing)
  {
    hide SetupManaged, Lookup, Put;
    worker := [];
    for i := 0 to |managed|
      invariant worker + WorkerVars(managed[i..], existing) == WorkerVars(managed, existing)
      invariant forall j, k :: 0 <= j < |worker| && i <= k < |managed| ==> worker[j].0 != managed[k]
    {
      assert managed[i..][0] == managed[i] && managed[i..][1..] == managed[i + 1..];
      var found := Lookup(existing, managed[i]);
      if !SetupManaged(managed[i]) && found.Some? {
        PutNew(worker, managed[i], found.value);
        worker := Put(worker, managed[i], found.value);
      }
    }
    assert managed[|managed|..] == [];
  }

  method CollectPreservedVars(managed: seq<string>, existing: Vars) returns (preserved: Vars)
    requires DistinctNames(existing)
    ensures preserved == PreservedVars(managed, existing)
  {
    preserved := [];
    for i := 0 to |existing|
      invariant preserved + PreservedVars(managed, existing[i..]) == PreservedVars(managed, existing)
      invariant forall j :: 0 <= j < |preserved| ==> exists k :: 0 <= k < i && existing[k].0 == preserved[j].0
    {
      var (key, value) := existing[i];
      assert existing[i..][0] == existing[i] && existing[i..][1..] == existing[i + 1..];
      if key !in managed && !SetupManaged(key) {
        PutNew(preserved, key, value);
        preserved := Put(preserved, key, value);
      }
    }
    assert existing[|existing|..] == [];
  }

  // content += `...\n`
  function Emit(content: string, line: Line): string {
    content + (TextOf(line) + "\n")
  }

  lemma EmitRender(content: string, line: Line, rest: seq<Line>)
    ensures Emit(content, line) + Render(rest) == content + Render([line] + rest)
  {
    assert ([line] + rest)[1..] == rest;
    assert Render([line] + rest) == TextOf(line) + "\n" + Render(rest);
    hide Render, TextOf;
  }

  lemma EmitBlock(content: string, title: string, lines: seq<Line>)
    requires lines != []
    ensures Emit(Emit(content, Blank), Note(title)) + Render(lines) == content + Render(Block(title, lines))
  {
    EmitRender(content, Blank, [Note(title)] + lines);
    EmitRender(Emit(content, Blank), Note(title), lines);
    assert Block(title, lines) == [Blank] + ([Note(title)] + lines);
  }

  method WriteEntries(content: string, title: string, entries: Vars) returns (r: string)
    ensures r == content + Render(Block(title, EntryLines(entries)))
  {
    r := content;
    if |entries| > 0 {
      EmitBlock(content, title, EntryLines(entries));
      r := Emit(Emit(r, Blank), Note(title));
      hide Emit, Block, Render;
      for i := 0 to |entries|
        invariant r + Render(EntryLines(entries[i..])) == content + Render(Block(title, EntryLines(entries)))
      {
        var (key, value) := entries[i];
        assert entries[i..][0] == entries[i] && entries[i..][1..] == entries[i + 1..];
        EmitRender(r, Assign(key, value), EntryLines(entries[i + 1..]));
        r := Emit(r, Assign(key, value));
      }
      NothingRendered(r);
    } else {
      NothingRendered(r);
    }
  }

  lemma NothingRendered(content: string)
    ensures content + Render([]) == content
  {
  }

  method WriteUnset(content: string, title: string, names: seq<string>) returns (r: string)
    ensures r == content + Render(Block(title, UnsetLines(names)))
  {
    r := content;
    if |names| > 0 {
      EmitBlock(content, title, UnsetLines(names));
      r := Emit(Emit(r, Blank), Note(title));
      hide Emit, Block, Render;
      for i := 0 to |names|
        invariant r + Render(UnsetLines(names[i..])) == content + Render(Block(title, UnsetLines(names)))
      {
        assert names[i..][0] == names[i] && names[i..][1..] == names[i + 1..];
        EmitRender(r, Unset(names[i]), UnsetLines(names[i + 1..]));
        r := Emit(r, Unset(names[i]));
      }
      NothingRendered(r);
    } else {
      NothingRendered(r);
    }
  }

  method WriteProvided(content: string, cfg: Config, names: seq<string>) returns (r: string)
    ensures r == content + Render(Provided(cfg, names))
  {
    r := content;
    hide Emit, Render;
    for i := 0 to |names|
      invariant r + Render(Provided(cfg, names[i..])) == content + Render(Provided(cfg, names))
    {
      assert names[i..][0] == names[i] && names[i..][1..] == names[i + 1..];
      if Truthy(DevVar(cfg, names[i])) {
        EmitRender(r, Assign(names[i], DevVar(cfg, names[i]).value), Provided(cfg, names[i + 1..]));
        r := Emit(r, Assign(names[i], DevVar(cfg, names[i]).value));
      } else {
        EmitRender(r, Unset(names[i]), Provided(cfg, names[i + 1..]));
        r := Emit(r, Unset(names[i]));
      }
    }
    NothingRendered(r);
  }

  // Fixed runs of lines are written through Render.
  method WriteHead(cfg: Config) returns (content: string)
    ensures content == Render(HeadLines(cfg))
  {
    var providers, oauth := [Blank, Note("Provider specific secrets")], [Blank, Note("OAuth Configuration")];
    ghost var lines := Opening(cfg);
    content := Render(Opening(cfg));
    hide Render, Opening, Gateway, Provided, Exporter, Required, Tunnel;
    RenderAppend(lines, Gateway(cfg));
    content := content + Render(Gateway(cfg));
    lines := lines + Gateway(cfg);
    RenderAppend(lines, providers);
    content := content + Render(providers);
    lines := lines + providers;
    RenderAppend(lines, Provided(cfg, PROVIDER_VARS));
    content := WriteProvided(content, cfg, PROVIDER_VARS);
    lines := lines + Provided(cfg, PROVIDER_VARS);
    RenderAppend(lines, oauth);
    content := content + Render(oauth);
    lines := lines + oauth;
    RenderAppend(lines, Provided(cfg, OAUTH_VARS));
    content := WriteProvided(content, cfg, OAUTH_VARS);
    lines := lines + Provided(cfg, OAUTH_VARS);
    RenderAppend(lines, Exporter(cfg));
    content := content + Render(Exporter(cfg));
    lines := lines + Exporter(cfg);
    RenderAppend(lines, Required(cfg));
    content := content + Render(Required(cfg));
    lines := lines + Required(cfg);
    RenderAppend(lines, Tunnel(cfg));
    content := content + Render(Tunnel(cfg));
  }

  method GenerateDevVarsFile(file: Option<string>, cfg: Config, managed: seq<string>,
                             collate: (string, string) -> bool, codeUnits: (string, string) -> bool)
    returns (content: string)
    requires Names(managed)
    ensures content == Generated(file, cfg, managed, collate, codeUnits)
  {
    hide SetupManaged, Block, Render, HeadLines, Sort, Filter, WorkerVars, PreservedVars, Read;
    var existing: Vars := [];
    if file.Some? {
      existing := ReadVars(file.value);
      ReadReadable(file.value);
    }
    var preserved := CollectPreservedVars(managed, existing);
    var worker := CollectWorkerVars(managed, existing);
    var head := WriteHead(cfg);
    content := WriteEntries(head, WORKER_TITLE, Sort(worker, ByName(collate)));
    content := WriteUnset(content, UNSET_TITLE, Sort(Filter(managed, StillUnset(worker)), codeUnits));
    content := WriteEntries(content, PRESERVED_TITLE, Sort(preserved, ByName(collate)));
    var a, b := WorkerPart(existing, managed, collate), UnsetPart(existing, managed, codeUnits);
    var c := PreservedPart(existing, managed, collate);
    RenderAppend(a, b);
    RenderAppend(a + b, c);
    hide WorkerPart, UnsetPart, PreservedPart;
    assert head + ((Render(a) + Render(b)) + Render(c)) == content;
  }
}
