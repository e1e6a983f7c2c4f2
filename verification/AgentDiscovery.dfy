/** Agent discovery: the visible list built by `merge_subagents` over discovered
    definitions, and the separate lookup by name. */
module AgentDiscovery {
  import opened Options

  datatype Builtin =
    | QidiBuild | QidiBuildConcise | QidiBuildPlan | QidiBuildPlanNoSubagents | QidiBuildAskUser
    | Codex | Opencode | GeneralPurpose | Explore | Plan | BrowserUse | QidiBuildOrchestrator

  function NameOf(b: Builtin): string {
    match b
    case QidiBuild => "cf-tools"
    case QidiBuildConcise => "cf-tools-concise"
    case QidiBuildPlan => "qidi-build-plan"
    case QidiBuildPlanNoSubagents => "qidi-build-plan-no-subagents"
    case QidiBuildAskUser => "cf-tools-ask-user"
    case Codex => "codex"
    case Opencode => "opencode"
    case GeneralPurpose => "general-purpose"
    case Explore => "explore"
    case Plan => "plan"
    case BrowserUse => "browser-use"
    case QidiBuildOrchestrator => "cf-tools-orchestrator"
  }

  const ALL_BUILTINS: seq<Builtin> := [
    QidiBuild, QidiBuildConcise, QidiBuildPlan, QidiBuildPlanNoSubagents, QidiBuildAskUser,
    Codex, Opencode, GeneralPurpose, Explore, Plan, BrowserUse, QidiBuildOrchestrator
  ]

  const SUBAGENT_VARIANTS: seq<Builtin> := [GeneralPurpose, Explore, Plan]

  function Named(name: string, builtins: seq<Builtin>): (r: Option<Builtin>)
    ensures r.Some? ==> r.value in builtins && NameOf(r.value) == name
    ensures r.None? ==> forall b :: b in builtins ==> NameOf(b) != name
  {
    if builtins == [] then None
    else if NameOf(builtins[0]) == name then Some(builtins[0])
    else Named(name, builtins[1..])
  }

  /** Parsing a name against all twelve built-ins. */
  function FromStr(name: string): Option<Builtin> {
    Named(name, ALL_BUILTINS)
  }

  datatype Scope = Project | User | Bundled | BuiltIn

  datatype Definition = Definition(name: string, description: string, scope: Scope, path: string)

  /** Descriptions of the built-ins, whatever they are. */
  type Catalogue = Builtin -> string

  function BuiltinDefinition(about: Catalogue, b: Builtin): Definition {
    Definition(NameOf(b), about(b), BuiltIn, "")
  }

  datatype ConfigSource = FromProject(path: string) | FromUser(path: string) | FromBuiltin

  function SourceFromAgentDef(def: Definition): ConfigSource {
    match def.scope
    case Project => FromProject(def.path)
    case User => FromUser(def.path)
    case _ => FromBuiltin
  }

  datatype SubagentSource = BuiltinSource(builtin: Builtin) | UserDefined(scope: Scope)

  datatype Entry = Entry(name: string, description: string, source: SubagentSource,
                         shadowsBuiltin: Option<Builtin>, configSource: ConfigSource)

  // ---- the directories ----

  /** A Markdown file: its stem, and the definition it parses to, if it parses. */
  datatype File = File(stem: string, parsed: Option<Definition>)

  /** Directories in priority order: project ones, then the user's, then bundled. */
  datatype World = World(project: seq<seq<File>>, user: seq<seq<File>>, bundled: seq<seq<File>>)

  function WithScope(def: Definition, scope: Scope): Definition {
    def.(scope := scope)
  }

  // ---- discovery ----

  /** The definitions of one directory, in order. */
  function DirDefinitions(files: seq<File>, scope: Scope): seq<Definition> {
    if files == [] then []
    else
      (if files[0].parsed.Some? then [WithScope(files[0].parsed.value, scope)] else [])
      + DirDefinitions(files[1..], scope)
  }

  function Candidates(dirs: seq<seq<File>>, scope: Scope): seq<Definition> {
    if dirs == [] then [] else DirDefinitions(dirs[0], scope) + Candidates(dirs[1..], scope)
  }

  function AllCandidates(w: World): seq<Definition> {
    Candidates(w.project, Project) + Candidates(w.user, User) + Candidates(w.bundled, Bundled)
  }

  /** The first of `defs` named `name`. */
  function FirstNamed(defs: seq<Definition>, name: string): (r: Option<Definition>)
    ensures r.Some? ==> r.value in defs && r.value.name == name
    ensures r.None? ==> forall d :: d in defs ==> d.name != name
  {
    if defs == [] then None
    else if defs[0].name == name then Some(defs[0])
    else FirstNamed(defs[1..], name)
  }

  /** `defs` without the later ones of each name, and without the names in `seen`. */
  function Deduped(defs: seq<Definition>, seen: set<string>): seq<Definition> {
    if defs == [] then []
    else if defs[0].name in seen then Deduped(defs[1..], seen)
    else [defs[0]] + Deduped(defs[1..], seen + {defs[0].name})
  }

  function NamesIn(defs: seq<Definition>): set<string> {
    set d | d in defs :: d.name
  }

  lemma NamesInConcat(a: seq<Definition>, b: seq<Definition>)
    ensures NamesIn(a + b) == NamesIn(a) + NamesIn(b) && NamesIn([]) == {}
  {
    assert forall d :: d in a + b <==> d in a || d in b;
  }

  lemma NameInOne(def: Definition)
    ensures NamesIn([def]) == {def.name}
  {
    assert def in [def];
  }

  lemma DedupedStep(def: Definition, rest: seq<Definition>, seen: set<string>)
    ensures Deduped([def] + rest, seen)
         == if def.name in seen then Deduped(rest, seen) else [def] + Deduped(rest, seen + {def.name})
    ensures Deduped([], seen) == []
  {
    assert ([def] + rest)[1..] == rest;
  }

  lemma {:induction false} DedupedConcat(a: seq<Definition>, b: seq<Definition>, seen: set<string>)
    ensures Deduped(a + b, seen) == Deduped(a, seen) + Deduped(b, seen + NamesIn(a))
    decreases |a|
  {
    hide *;
    NamesInConcat(a, b);
    if a == [] {
      assert a + b == b && seen + {} == seen;
      DedupedStep(Definition("", "", BuiltIn, ""), [], seen);
    } else {
      var def, rest := a[0], a[1..];
      assert a == [def] + rest && a + b == [def] + (rest + b);
      DedupedStep(def, rest, seen);
      DedupedStep(def, rest + b, seen);
      NamesInConcat([def], rest);
      NameInOne(def);
      if def.name in seen {
        DedupedConcat(rest, b, seen);
        assert seen + ({def.name} + NamesIn(rest)) == seen + NamesIn(rest);
      } else {
        DedupedConcat(rest, b, seen + {def.name});
        assert seen + ({def.name} + NamesIn(rest)) == seen + {def.name} + NamesIn(rest);
      }
    }
  }

  /** What is collected so far and what is left of the file list amount to `target`. */
  ghost predicate Collecting(target: seq<Definition>, names: set<string>,
                             definitions: seq<Definition>, seen: set<string>,
                             left: seq<Definition>) {
    target == definitions + Deduped(left, seen) && names == seen + NamesIn(left)
  }

  /** One directory: files that do not parse and names already seen are passed over. */
  method LoadDefinitionsFromDir(files: seq<File>, scope: Scope, definitions: seq<Definition>, seen: set<string>)
    returns (definitions': seq<Definition>, seen': set<string>)
    ensures definitions' == definitions + Deduped(DirDefinitions(files, scope), seen)
    ensures seen' == seen + NamesIn(DirDefinitions(files, scope))
  {
    hide *;
    definitions', seen' := definitions, seen;
    ghost var target := definitions + Deduped(DirDefinitions(files, scope), seen);
    ghost var names := seen + NamesIn(DirDefinitions(files, scope));
    LoadEnds(target, names, definitions, seen, files, scope);
    for i := 0 to |files|
      invariant Collecting(target, names, definitions', seen', DirDefinitions(files[i..], scope))
    {
      LoadStep(target, names, definitions', seen', files, i, scope);
      if files[i].parsed.Some? {
        var def := WithScope(files[i].parsed.value, scope);
        if def.name !in seen' {
          seen' := seen' + {def.name};
          definitions' := definitions' + [def];
        }
      }
    }
    LoadEnds(target, names, definitions', seen', files, scope);
  }

  lemma LoadEnds(target: seq<Definition>, names: set<string>, definitions: seq<Definition>, seen: set<string>,
                 files: seq<File>, scope: Scope)
    ensures target == definitions + Deduped(DirDefinitions(files, scope), seen)
            && names == seen + NamesIn(DirDefinitions(files, scope))
            ==> Collecting(target, names, definitions, seen, DirDefinitions(files[0..], scope))
    ensures Collecting(target, names, definitions, seen, DirDefinitions(files[|files|..], scope))
            ==> definitions == target && seen == names
  {
    assert files[0..] == files;
    assert DirDefinitions(files[|files|..], scope) == [] && Deduped([], seen) == [];
    NamesInConcat([], []);
  }

  lemma LoadStep(target: seq<Definition>, names: set<string>, definitions: seq<Definition>, seen: set<string>,
                 files: seq<File>, i: nat, scope: Scope)
    requires i < |files| && Collecting(target, names, definitions, seen, DirDefinitions(files[i..], scope))
    ensures var left := DirDefinitions(files[i + 1..], scope);
            if files[i].parsed.None? then Collecting(target, names, definitions, seen, left)
            else
              var def := WithScope(files[i].parsed.value, scope);
              if def.name in seen then Collecting(target, names, definitions, seen, left)
              else Collecting(target, names, definitions + [def], seen + {def.name}, left)
  {
    hide *;
    var left := DirDefinitions(files[i + 1..], scope);
    DirStep(files, i, scope);
    CollectingIs(target, names, definitions, seen, DirDefinitions(files[i..], scope));
    if files[i].parsed.Some? {
      var def := WithScope(files[i].parsed.value, scope);
      DedupedStep(def, left, seen);
      NamesInConcat([def], left);
      NameInOne(def);
      CollectingIs(target, names, definitions, seen, left);
      CollectingIs(target, names, definitions + [def], seen + {def.name}, left);
      assert definitions + ([def] + Deduped(left, seen + {def.name}))
          == definitions + [def] + Deduped(left, seen + {def.name});
    }
  }

  lemma DirStep(files: seq<File>, i: nat, scope: Scope)
    requires i < |files|
    ensures DirDefinitions(files[i..], scope)
         == (if files[i].parsed.Some?
             then [WithScope(files[i].parsed.value, scope)] + DirDefinitions(files[i + 1..], scope)
             else DirDefinitions(files[i + 1..], scope))
  {
    hide WithScope;
    assert files[i..][1..] == files[i + 1..];
  }

  lemma CollectingIs(target: seq<Definition>, names: set<string>, definitions: seq<Definition>, seen: set<string>,
                     left: seq<Definition>)
    ensures Collecting(target, names, definitions, seen, left)
       <==> target == definitions + Deduped(left, seen) && names == seen + NamesIn(left)
  {
  }

  method LoadDirs(dirs: seq<seq<File>>, scope: Scope, definitions: seq<Definition>, seen: set<string>)
    returns (definitions': seq<Definition>, seen': set<string>)
    ensures definitions' == definitions + Deduped(Candidates(dirs, scope), seen)
    ensures seen' == seen + NamesIn(Candidates(dirs, scope))
  {
    hide *;
    definitions', seen' := definitions, seen;
    DirsEnd(dirs, scope);
    NothingLeft(seen);
    for i := 0 to |dirs|
      invariant definitions' + Deduped(Candidates(dirs[i..], scope), seen')
             == definitions + Deduped(Candidates(dirs, scope), seen)
      invariant seen' + NamesIn(Candidates(dirs[i..], scope)) == seen + NamesIn(Candidates(dirs, scope))
    {
      var here, later := DirDefinitions(dirs[i], scope), Candidates(dirs[i + 1..], scope);
      DirsStep(dirs, i, scope);
      DedupedConcat(here, later, seen');
      NamesInConcat(here, later);
      definitions', seen' := LoadDefinitionsFromDir(dirs[i], scope, definitions', seen');
    }
    NothingLeft(seen');
    assert definitions' + [] == definitions';
  }

  lemma DirsEnd(dirs: seq<seq<File>>, scope: Scope)
    ensures dirs[0..] == dirs && Candidates(dirs[|dirs|..], scope) == []
  {
  }

  lemma DirsStep(dirs: seq<seq<File>>, i: nat, scope: Scope)
    requires i < |dirs|
    ensures Candidates(dirs[i..], scope) == DirDefinitions(dirs[i], scope) + Candidates(dirs[i + 1..], scope)
  {
    assert dirs[i..][1..] == dirs[i + 1..];
  }

  method DiscoverWithHome(w: World) returns (definitions: seq<Definition>)
    ensures definitions == Deduped(AllCandidates(w), {})
  {
    hide Deduped, Candidates, NamesIn;
    var seen: set<string> := {};
    ghost var project, user := Candidates(w.project, Project), Candidates(w.user, User);
    ghost var bundled := Candidates(w.bundled, Bundled);
    DedupedConcat(project + user, bundled, {});
    DedupedConcat(project, user, {});
    NamesInConcat(project, user);
    assert {} + NamesIn(project) + NamesIn(user) == {} + NamesIn(project + user);
    definitions := [];
    definitions, seen := LoadDirs(w.project, Project, definitions, seen);
    definitions, seen := LoadDirs(w.user, User, definitions, seen);
    definitions, seen := LoadDirs(w.bundled, Bundled, definitions, seen);
  }

  lemma NothingLeft(seen: set<string>)
    ensures Deduped([], seen) == [] && seen + NamesIn([]) == seen
  {
  }

  // ---- merging ----

  function Priority(scope: Scope): nat {
    match scope
    case Project => 3
    case User => 2
    case Bundled => 1
    case BuiltIn => 0
  }

  function SeedEntry(about: Catalogue, b: Builtin): Entry {
    Entry(NameOf(b), about(b), BuiltinSource(b), None, FromBuiltin)
  }

  function Seeds(about: Catalogue): seq<Entry> {
    [SeedEntry(about, GeneralPurpose), SeedEntry(about, Explore), SeedEntry(about, Plan)]
  }

  function DefinedEntry(def: Definition, shadows: Option<Builtin>): Entry {
    Entry(def.name, def.description, UserDefined(def.scope), shadows, SourceFromAgentDef(def))
  }

  function Position(entries: seq<Entry>, name: string): (r: Option<nat>)
    ensures r.Some? ==> r.value < |entries| && entries[r.value].name == name
                        && forall k :: 0 <= k < r.value ==> entries[k].name != name
    ensures r.None? ==> forall k :: 0 <= k < |entries| ==> entries[k].name != name
  {
    if entries == [] then None
    else if entries[0].name == name then Some(0)
    else
      var r := Position(entries[1..], name);
      assert forall k :: 1 <= k < |entries| ==> entries[k] == entries[1..][k - 1];
      if r.Some? then Some(r.value + 1) else None
  }

  /** What a discovered definition does to the entry of its name, if there is one. */
  function MergedEntry(was: Option<Entry>, def: Definition): Option<Entry> {
    var variant := Named(def.name, SUBAGENT_VARIANTS);
    if def.scope == BuiltIn || (variant.Some? && def.scope != Project) then was
    else if was.None? then Some(DefinedEntry(def, None))
    else if was.value.source.BuiltinSource? || Priority(def.scope) > Priority(was.value.source.scope)
    then Some(DefinedEntry(def, variant))
    else was
  }

  function EntryOf(entries: seq<Entry>, name: string): Option<Entry> {
    var at := Position(entries, name);
    if at.Some? then Some(entries[at.value]) else None
  }

  /** The effect of the definitions, in order, on the entry named `name`. */
  function MergedAll(was: Option<Entry>, defs: seq<Definition>, name: string): Option<Entry>
    decreases |defs|
  {
    if defs == [] then was
    else MergedAll(if defs[0].name == name then MergedEntry(was, defs[0]) else was, defs[1..], name)
  }

  ghost predicate DistinctNames(entries: seq<Entry>) {
    forall i, j :: 0 <= i < j < |entries| ==> entries[i].name != entries[j].name
  }

  function NamesOf(entries: seq<Entry>): seq<string> {
    seq(|entries|, k requires 0 <= k < |entries| => entries[k].name)
  }

  /** The merge lets the definition through. */
  predicate Passes(def: Definition) {
    def.scope != BuiltIn && (Named(def.name, SUBAGENT_VARIANTS).None? || def.scope == Project)
  }

  function Extended(names: seq<string>, def: Definition): seq<string> {
    if !Passes(def) || def.name in names then names else names + [def.name]
  }

  /** `names`, then the new names of the definitions that pass, in the order of discovery. */
  function NameOrder(names: seq<string>, defs: seq<Definition>): seq<string>
    decreases |defs|
  {
    if defs == [] then names else NameOrder(Extended(names, defs[0]), defs[1..])
  }

  /** The entries the merge leaves before the toggle filter: one per name, each what the
      definitions of its name make of the built-in entry, built-ins first and then in the
      order of discovery. */
  ghost predicate MergedFrom(entries: seq<Entry>, seeds: seq<Entry>, defs: seq<Definition>) {
    && DistinctNames(entries)
    && (forall name :: EntryOf(entries, name) == MergedAll(EntryOf(seeds, name), defs, name))
    && NamesOf(entries) == NameOrder(NamesOf(seeds), defs)
  }

  /** So the merged list is fixed. */
  lemma MergedFromUnique(a: seq<Entry>, b: seq<Entry>, seeds: seq<Entry>, defs: seq<Definition>)
    requires MergedFrom(a, seeds, defs) && MergedFrom(b, seeds, defs)
    ensures a == b
  {
    hide MergedAll, NameOrder, Position;
    assert |NamesOf(a)| == |a| && |NamesOf(b)| == |b|;
    forall k | 0 <= k < |a| ensures a[k] == b[k] {
      assert NamesOf(a)[k] == NamesOf(b)[k];
      PositionIs(a, a[k].name, k);
      PositionIs(b, a[k].name, k);
      assert EntryOf(a, a[k].name) == EntryOf(b, a[k].name);
    }
  }

  lemma {:induction false} NameOrderSnoc(names: seq<string>, defs: seq<Definition>, def: Definition)
    ensures NameOrder(names, defs + [def]) == Extended(NameOrder(names, defs), def)
    decreases |defs|
  {
    hide Extended;
    var all := defs + [def];
    if defs == [] {
      assert all[1..] == [] && NameOrder(Extended(names, def), []) == Extended(names, def);
    } else {
      assert all[1..] == defs[1..] + [def];
      NameOrderSnoc(Extended(names, defs[0]), defs[1..], def);
    }
  }

  /** What an edit of the list does to its names. */
  lemma NamesAfter(entries: seq<Entry>, def: Definition, e: Entry)
    requires e.name == def.name
    ensures var at := Position(entries, def.name);
            && (at.Some? <==> def.name in NamesOf(entries))
            && (at.Some? ==> NamesOf(entries[at.value := e]) == NamesOf(entries))
            && NamesOf(entries + [e]) == NamesOf(entries) + [e.name]
  {
    hide Position;
    var at, names := Position(entries, def.name), NamesOf(entries);
    if at.Some? { assert names[at.value] == def.name; }
  }

  function Enabled(toggle: map<string, bool>, name: string): bool {
    if name in toggle then toggle[name] else true
  }

  function Filtered(entries: seq<Entry>, toggle: map<string, bool>): seq<Entry> {
    if entries == [] then []
    else (if Enabled(toggle, entries[0].name) then [entries[0]] else []) + Filtered(entries[1..], toggle)
  }

  lemma PositionIs(entries: seq<Entry>, name: string, i: nat)
    requires DistinctNames(entries) && i < |entries| && entries[i].name == name
    ensures Position(entries, name) == Some(i)
  {
  }

  lemma EntryReplaced(entries: seq<Entry>, at: nat, e: Entry, name: string)
    requires DistinctNames(entries) && at < |entries| && e.name == entries[at].name
    ensures DistinctNames(entries[at := e])
    ensures EntryOf(entries[at := e], name) == if name == e.name then Some(e) else EntryOf(entries, name)
  {
    hide Position;
    var changed := entries[at := e];
    assert forall k :: 0 <= k < |entries| ==> changed[k].name == entries[k].name;
    var p := Position(entries, name);
    if p.Some? { PositionIs(changed, name, p.value); }
    if name == e.name { PositionIs(changed, name, at); }
  }

  lemma EntryPushed(entries: seq<Entry>, e: Entry, name: string)
    requires DistinctNames(entries) && EntryOf(entries, e.name) == None
    ensures DistinctNames(entries + [e])
    ensures EntryOf(entries + [e], name) == if name == e.name then Some(e) else EntryOf(entries, name)
  {
    hide Position;
    var changed := entries + [e];
    var p := Position(entries, name);
    var q := Position(entries, e.name);
    if p.Some? { PositionIs(changed, name, p.value); }
    if name == e.name { PositionIs(changed, name, |entries|); }
  }

  /** The merge loop. */
  method MergeSubagents(about: Catalogue, discovered: seq<Definition>, toggle: map<string, bool>)
    returns (visible: seq<Entry>)
    ensures exists merged :: MergedFrom(merged, Seeds(about), discovered) && visible == Filtered(merged, toggle)
  {
    var entries := Seeds(about);
    ghost var seeds := entries;
    SeedsDistinct(about);
    hide *;
    MergeStart(entries);
    for i := 0 to |discovered|
      invariant MergedFrom(entries, seeds, discovered[..i])
    {
      var def := discovered[i];
      MergeStep(entries, seeds, discovered, i);
      if def.scope != BuiltIn {
        var variant := FromStr(def.name);
        if variant.Some? && variant.value !in SUBAGENT_VARIANTS {
          variant := None;
        }
        VariantIs(def.name);
        if !(variant.Some? && def.scope != Project) {
          var pos := Position(entries, def.name);
          if pos.Some? {
            var shouldReplace :=
              match entries[pos.value].source
              case BuiltinSource(_) => true
              case UserDefined(scope) => Priority(def.scope) > Priority(scope);
            if shouldReplace {
              entries := entries[pos.value := DefinedEntry(def, variant)];
            }
          } else {
            entries := entries + [DefinedEntry(def, None)];
          }
        }
      }
    }
    assert discovered[..|discovered|] == discovered;
    visible := Filtered(entries, toggle);
  }

  lemma SeedsDistinct(about: Catalogue)
    ensures DistinctNames(Seeds(about))
  {
  }

  lemma MergeStart(entries: seq<Entry>)
    requires DistinctNames(entries)
    ensures forall defs :: defs == [] ==> MergedFrom(entries, entries, defs)
  {
  }

  /** Screening against all names and then the variants is screening against the variants. */
  lemma VariantIs(name: string)
    ensures var b := FromStr(name);
            Named(name, SUBAGENT_VARIANTS) == if b.Some? && b.value in SUBAGENT_VARIANTS then b else None
  {
    hide NameOf, Named;
    var b, v := FromStr(name), Named(name, SUBAGENT_VARIANTS);
    if v.Some? {
      assert v.value in ALL_BUILTINS;
      NamesDiffer(v.value, b.value);
    }
  }

  lemma NamesDiffer(a: Builtin, b: Builtin)
    ensures NameOf(a) == NameOf(b) ==> a == b
  {
    NameLengths(a);
    NameLengths(b);
    var x, y := NameOf(a), NameOf(b);
    assert x == y ==> |x| == |y| && x[0] == y[0];
  }

  lemma NameLengths(b: Builtin)
    ensures |NameOf(b)| >= 4
  {
  }

  lemma {:induction false} MergedAllSnoc(was: Option<Entry>, defs: seq<Definition>, def: Definition, name: string)
    ensures MergedAll(was, defs + [def], name)
         == if def.name == name then MergedEntry(MergedAll(was, defs, name), def) else MergedAll(was, defs, name)
    decreases |defs|
  {
    hide MergedEntry;
    var all := defs + [def];
    if defs == [] {
      assert all[1..] == [];
      assert MergedAll(was, all, name) == MergedAll(if def.name == name then MergedEntry(was, def) else was, [], name);
    } else {
      assert all[1..] == defs[1..] + [def];
      MergedAllSnoc(if defs[0].name == name then MergedEntry(was, defs[0]) else was, defs[1..], def, name);
    }
  }

  /** What one pass of the loop must do to the entries. */
  lemma MergeStep(entries: seq<Entry>, seeds: seq<Entry>, discovered: seq<Definition>, i: nat)
    requires i < |discovered| && MergedFrom(entries, seeds, discovered[..i])
    ensures var def := discovered[i]; var at := Position(entries, def.name);
            var was := EntryOf(entries, def.name); var e := MergedEntry(was, def);
            && was == (if at.Some? then Some(entries[at.value]) else None)
            && (e == was ==> MergedFrom(entries, seeds, discovered[..i + 1]))
            && (e.Some? && at.Some? ==> MergedFrom(entries[at.value := e.value], seeds, discovered[..i + 1]))
            && (e.Some? && at.None? ==> MergedFrom(entries + [e.value], seeds, discovered[..i + 1]))
            && e == (var variant := Named(def.name, SUBAGENT_VARIANTS);
                     if def.scope == BuiltIn || (variant.Some? && def.scope != Project) then was
                     else if was.None? then Some(DefinedEntry(def, None))
                     else if was.value.source.BuiltinSource? || Priority(def.scope) > Priority(was.value.source.scope)
                     then Some(DefinedEntry(def, variant))
                     else was)
  {
    var def := discovered[i];
    var at, was := Position(entries, def.name), EntryOf(entries, def.name);
    var e := MergedEntry(was, def);
    MergedName(was, def);
    PassesIff(was, def);
    assert discovered[..i + 1] == discovered[..i] + [def];
    hide MergedFrom, MergedAll, MergedEntry, Named, Position, NamesOf, NameOrder, Passes;
    MergedIsDistinct(entries, seeds, discovered[..i]);
    NamesAfter(entries, def, DefinedEntry(def, None));
    if e == was {
      MergedNext(entries, entries, seeds, discovered[..i], def);
    }
    if e.Some? {
      NamesAfter(entries, def, e.value);
      if at.Some? {
        forall name
          ensures EntryOf(entries[at.value := e.value], name) == if name == def.name then e else EntryOf(entries, name)
        {
          EntryReplaced(entries, at.value, e.value, name);
        }
        MergedNext(entries[at.value := e.value], entries, seeds, discovered[..i], def);
      } else {
        forall name
          ensures EntryOf(entries + [e.value], name) == if name == def.name then e else EntryOf(entries, name)
        {
          EntryPushed(entries, e.value, name);
        }
        MergedNext(entries + [e.value], entries, seeds, discovered[..i], def);
      }
    }
  }

  lemma MergedIsDistinct(entries: seq<Entry>, seeds: seq<Entry>, defs: seq<Definition>)
    requires MergedFrom(entries, seeds, defs)
    ensures DistinctNames(entries)
  {
  }

  /** A list that differs in the entry of one definition as the merge does, and in no name but
      perhaps its own, is the merge with that definition. */
  lemma MergedNext(next: seq<Entry>, entries: seq<Entry>, seeds: seq<Entry>, defs: seq<Definition>, def: Definition)
    requires MergedFrom(entries, seeds, defs) && DistinctNames(next)
    requires forall name :: EntryOf(next, name)
                            == if name == def.name then MergedEntry(EntryOf(entries, name), def)
                               else EntryOf(entries, name)
    requires NamesOf(next) == Extended(NamesOf(entries), def)
    ensures MergedFrom(next, seeds, defs + [def])
  {
    hide MergedAll, MergedEntry, EntryOf, NamesOf, NameOrder, Extended, DistinctNames;
    NameOrderSnoc(NamesOf(seeds), defs, def);
    forall name ensures EntryOf(next, name) == MergedAll(EntryOf(seeds, name), defs + [def], name) {
      MergedAllSnoc(EntryOf(seeds, name), defs, def, name);
    }
  }

  lemma PassesIff(was: Option<Entry>, def: Definition)
    ensures !Passes(def) ==> MergedEntry(was, def) == was
    ensures Passes(def) && was.None? ==> MergedEntry(was, def).Some?
  {
  }

  lemma MergedName(was: Option<Entry>, def: Definition)
    requires was.Some? ==> was.value.name == def.name
    ensures MergedEntry(was, def).Some? ==> MergedEntry(was, def).value.name == def.name
  {
  }
}
