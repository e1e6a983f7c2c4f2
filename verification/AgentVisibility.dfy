/** Visible and callable: how far the merged subagent list and the lookup by name
    agree. */
module AgentVisibility {
  import opened Options
  import opened AgentDiscovery

  // ---- the lookup ----

  function FileNamed(files: seq<File>, stem: string): Option<File> {
    if files == [] then None
    else if files[0].stem == stem then Some(files[0])
    else FileNamed(files[1..], stem)
  }

  /** One directory: the file of that stem, if it is there and parses. */
  function LoadDefinitionByName(files: seq<File>, name: string, scope: Scope): Option<Definition> {
    var file := FileNamed(files, name);
    if file.Some? && file.value.parsed.Some? then Some(WithScope(file.value.parsed.value, scope)) else None
  }

  /** The first directory that answers. */
  function LoadFirst(dirs: seq<seq<File>>, name: string, scope: Scope): Option<Definition> {
    if dirs == [] then None
    else
      var def := LoadDefinitionByName(dirs[0], name, scope);
      if def.Some? then def else LoadFirst(dirs[1..], name, scope)
  }

  function ByNameWithHome(about: Catalogue, w: World, name: string): Option<Definition> {
    var builtin := FromStr(name);
    if builtin.Some? then Some(BuiltinDefinition(about, builtin.value))
    else
      var user := LoadFirst(w.user, name, User);
      if user.Some? then user else LoadFirst(w.bundled, name, Bundled)
  }

  function ByNameInCwdWithHome(about: Catalogue, w: World, name: string): Option<Definition> {
    var project := LoadFirst(w.project, name, Project);
    if project.Some? then project else ByNameWithHome(about, w, name)
  }

  // ---- what agreement means ----

  /** The entry describes the definition that its name resolves to. */
  predicate Agrees(e: Entry, found: Option<Definition>) {
    && found.Some?
    && e.name == found.value.name && e.description == found.value.description
    && e.configSource == SourceFromAgentDef(found.value)
    && (match e.source
        case BuiltinSource(b) => found.value.scope == BuiltIn && NameOf(b) == e.name
        case UserDefined(scope) => found.value.scope == scope)
  }

  /** A user-level or bundled entry under a built-in name. */
  predicate Clashes(e: Entry) {
    e.source.UserDefined? && e.source.scope != Project && FromStr(e.name).Some?
  }

  /** The first file with the stem `name` that parses, in the order of the directories. */
  function FirstByStem(w: World, name: string): Option<Definition> {
    var project, user := LoadFirst(w.project, name, Project), LoadFirst(w.user, name, User);
    if project.Some? then project else if user.Some? then user else LoadFirst(w.bundled, name, Bundled)
  }

  /** The first file that declares `name`, in the same order. */
  function FirstByName(w: World, name: string): Option<Definition> {
    FirstNamed(AllCandidates(w), name)
  }

  /** Two definitions that an entry cannot tell apart. */
  predicate SameAgent(d: Definition, c: Definition) {
    && d.name == c.name && d.description == c.description && d.scope == c.scope
    && SourceFromAgentDef(d) == SourceFromAgentDef(c)
  }

  /** What the files must be like for the entry to be callable: a built-in's name is the stem of
      no project file; any other entry does not clash, and the first file of its stem is the
      first file of its name. */
  predicate Resolvable(w: World, e: Entry) {
    if e.source.BuiltinSource? then LoadFirst(w.project, e.name, Project).None?
    else
      var d, c := FirstByStem(w, e.name), FirstByName(w, e.name);
      !Clashes(e) && d.Some? && c.Some? && SameAgent(d.value, c.value)
  }

  predicate DirNamedAlike(files: seq<File>, name: string) {
    && (forall k :: 0 <= k < |files| && files[k].parsed.Some? ==>
          (files[k].stem == name <==> files[k].parsed.value.name == name))
    && (forall i, j :: 0 <= i < j < |files| ==> !(files[i].stem == name && files[j].stem == name))
  }

  predicate DirsNamedAlike(dirs: seq<seq<File>>, name: string) {
    forall k :: 0 <= k < |dirs| ==> DirNamedAlike(dirs[k], name)
  }

  /** No directory holds two files of the stem `name`, and a file that parses has that stem
      exactly when it declares that name. */
  predicate NamedAlike(w: World, name: string) {
    DirsNamedAlike(w.project, name) && DirsNamedAlike(w.user, name) && DirsNamedAlike(w.bundled, name)
  }

  // ---- discovery and lookup see the same first definition ----

  lemma {:induction false} FirstNamedConcat(a: seq<Definition>, b: seq<Definition>, name: string)
    ensures FirstNamed(a + b, name) == if FirstNamed(a, name).Some? then FirstNamed(a, name) else FirstNamed(b, name)
  {
    if a == [] {
      assert a + b == b;
    } else {
      assert (a + b)[1..] == a[1..] + b;
      FirstNamedConcat(a[1..], b, name);
    }
  }

  lemma {:induction false} NoFileNamed(files: seq<File>, name: string)
    requires forall k :: 0 <= k < |files| ==> files[k].stem != name
    ensures FileNamed(files, name) == None
  {
    if files != [] {
      NoFileNamed(files[1..], name);
    }
  }

  lemma {:induction false} DirLookup(files: seq<File>, name: string, scope: Scope)
    requires DirNamedAlike(files, name)
    ensures LoadDefinitionByName(files, name, scope) == FirstNamed(DirDefinitions(files, scope), name)
  {
    if files != [] {
      var rest := files[1..];
      assert forall k :: 0 <= k < |rest| ==> rest[k] == files[k + 1];
      DirLookup(rest, name, scope);
      var head := if files[0].parsed.Some? then [WithScope(files[0].parsed.value, scope)] else [];
      FirstNamedConcat(head, DirDefinitions(rest, scope), name);
      if files[0].stem == name {
        NoFileNamed(rest, name);
      }
      if head != [] {
        assert head[1..] == [];
      }
    }
  }

  lemma {:induction false} DirsLookup(dirs: seq<seq<File>>, name: string, scope: Scope)
    requires DirsNamedAlike(dirs, name)
    ensures LoadFirst(dirs, name, scope) == FirstNamed(Candidates(dirs, scope), name)
  {
    if dirs != [] {
      DirLookup(dirs[0], name, scope);
      DirsLookup(dirs[1..], name, scope);
      FirstNamedConcat(DirDefinitions(dirs[0], scope), Candidates(dirs[1..], scope), name);
    }
  }

  lemma {:induction false} DirScope(files: seq<File>, scope: Scope)
    ensures forall d :: d in DirDefinitions(files, scope) ==> d.scope == scope
  {
    if files != [] {
      DirScope(files[1..], scope);
    }
  }

  lemma {:induction false} CandidatesScope(dirs: seq<seq<File>>, scope: Scope)
    ensures forall d :: d in Candidates(dirs, scope) ==> d.scope == scope
  {
    if dirs != [] {
      DirScope(dirs[0], scope);
      CandidatesScope(dirs[1..], scope);
    }
  }

  lemma {:induction false} LoadFirstScope(dirs: seq<seq<File>>, name: string, scope: Scope)
    ensures LoadFirst(dirs, name, scope).Some? ==> LoadFirst(dirs, name, scope).value.scope == scope
  {
    if dirs != [] {
      LoadFirstScope(dirs[1..], name, scope);
    }
  }

  /** The lookup, in terms of the first file of the stem. */
  lemma LookupIs(about: Catalogue, w: World, name: string)
    ensures var d, b := FirstByStem(w, name), FromStr(name);
            ByNameInCwdWithHome(about, w, name)
            == if d.Some? && d.value.scope == Project then d
               else if b.Some? then Some(BuiltinDefinition(about, b.value)) else d
    ensures var d := FirstByStem(w, name);
            (d.Some? ==> d.value.scope != BuiltIn)
            && (LoadFirst(w.project, name, Project).Some? <==> d.Some? && d.value.scope == Project)
  {
    hide LoadFirst, FromStr;
    LoadFirstScope(w.project, name, Project);
    LoadFirstScope(w.user, name, User);
    LoadFirstScope(w.bundled, name, Bundled);
  }

  lemma FirstByNameScope(w: World, name: string)
    ensures FirstByName(w, name).Some? ==>
              FirstByName(w, name).value.scope != BuiltIn && FirstByName(w, name).value.name == name
  {
    hide Candidates;
    CandidatesScope(w.project, Project);
    CandidatesScope(w.user, User);
    CandidatesScope(w.bundled, Bundled);
  }

  /** Where stems and names go together, both firsts are the same file. */
  lemma FirstsMeet(w: World, name: string)
    requires NamedAlike(w, name)
    ensures FirstByStem(w, name) == FirstByName(w, name)
  {
    hide LoadFirst, FirstNamed, Candidates, DirsNamedAlike;
    var p, u, b := Candidates(w.project, Project), Candidates(w.user, User), Candidates(w.bundled, Bundled);
    DirsLookup(w.project, name, Project);
    DirsLookup(w.user, name, User);
    DirsLookup(w.bundled, name, Bundled);
    FirstNamedConcat(p + u, b, name);
    FirstNamedConcat(p, u, name);
  }

  // ---- the merged list, put in the same terms ----

  lemma {:induction false} MergedDeduped(was: Option<Entry>, defs: seq<Definition>, seen: set<string>, name: string)
    ensures var c := FirstNamed(defs, name);
            MergedAll(was, Deduped(defs, seen), name)
            == if name in seen || c.None? then was else MergedEntry(was, c.value)
    decreases |defs|
  {
    hide MergedEntry;
    if defs != [] {
      if defs[0].name in seen {
        MergedDeduped(was, defs[1..], seen, name);
      } else {
        var rest := Deduped(defs[1..], seen + {defs[0].name});
        var next := if defs[0].name == name then MergedEntry(was, defs[0]) else was;
        MergedDeduped(next, defs[1..], seen + {defs[0].name}, name);
        assert ([defs[0]] + rest)[1..] == rest;
      }
    }
  }

  lemma SeedOf(about: Catalogue, name: string)
    ensures var v := Named(name, SUBAGENT_VARIANTS);
            EntryOf(Seeds(about), name) == if v.Some? then Some(SeedEntry(about, v.value)) else None
  {
    hide NameOf;
    var seeds, v := Seeds(about), Named(name, SUBAGENT_VARIANTS);
    var at := Position(seeds, name);
    if v.Some? {
      assert v.value == GeneralPurpose ==> seeds[0].name == name;
      assert v.value == Explore ==> seeds[1].name == name;
      assert v.value == Plan ==> seeds[2].name == name;
      if at.Some? {
        NamesDiffer(v.value, SUBAGENT_VARIANTS[at.value]);
      }
    } else {
      assert GeneralPurpose in SUBAGENT_VARIANTS && Explore in SUBAGENT_VARIANTS && Plan in SUBAGENT_VARIANTS;
    }
  }

  /** `merged` is what `merge_subagents` makes of everything discovered in `w`. */
  ghost predicate ListOf(about: Catalogue, w: World, merged: seq<Entry>) {
    MergedFrom(merged, Seeds(about), Deduped(AllCandidates(w), {}))
  }

  /** The list, name by name. */
  lemma ListIs(about: Catalogue, w: World, merged: seq<Entry>, name: string)
    requires ListOf(about, w, merged)
    ensures var c, v := FirstByName(w, name), Named(name, SUBAGENT_VARIANTS);
            EntryOf(merged, name)
            == if c.Some? && c.value.scope != BuiltIn && (c.value.scope == Project || v.None?)
               then Some(DefinedEntry(c.value, v))
               else if v.Some? then Some(SeedEntry(about, v.value)) else None
  {
    hide MergedAll, EntryOf, Deduped, FirstNamed, AllCandidates, Named;
    MergedDeduped(EntryOf(Seeds(about), name), AllCandidates(w), {}, name);
    SeedOf(about, name);
  }

  lemma EntryFound(merged: seq<Entry>, e: Entry)
    requires DistinctNames(merged) && e in merged
    ensures EntryOf(merged, e.name) == Some(e)
  {
    var i :| 0 <= i < |merged| && merged[i] == e;
    PositionIs(merged, e.name, i);
  }

  lemma EntryIn(merged: seq<Entry>, name: string)
    requires EntryOf(merged, name).Some?
    ensures EntryOf(merged, name).value in merged && EntryOf(merged, name).value.name == name
  {
  }

  lemma {:induction false} FilteredMember(entries: seq<Entry>, toggle: map<string, bool>, e: Entry)
    ensures e in Filtered(entries, toggle) <==> e in entries && Enabled(toggle, e.name)
  {
    if entries != [] {
      FilteredMember(entries[1..], toggle, e);
    }
  }

  lemma VariantFacts(name: string)
    ensures var b, v := FromStr(name), Named(name, SUBAGENT_VARIANTS);
            (v.Some? ==> b == v) && (b.Some? ==> NameOf(b.value) == name)
  {
    hide Named, NameOf;
    VariantIs(name);
  }

  /** In any world, an entry of the list agrees with the lookup exactly when it is resolvable. */
  lemma EntryAgreesIff(about: Catalogue, w: World, merged: seq<Entry>, e: Entry)
    requires ListOf(about, w, merged) && e in merged
    ensures Agrees(e, ByNameInCwdWithHome(about, w, e.name)) <==> Resolvable(w, e)
  {
    hide ByNameInCwdWithHome, FromStr, Named, NameOf, EntryOf, FirstNamed, AllCandidates, Deduped, Seeds, MergedAll;
    hide LoadFirst, FirstByStem;
    EntryFound(merged, e);
    ListIs(about, w, merged, e.name);
    LookupIs(about, w, e.name);
    FirstByNameScope(w, e.name);
    VariantFacts(e.name);
  }

  /** When just the entry's own name is a stem exactly where it is declared, it agrees unless it
      puts a user-level or bundled agent under a built-in name. */
  lemma EntryAgreesWhenNamed(about: Catalogue, w: World, merged: seq<Entry>, e: Entry)
    requires ListOf(about, w, merged) && e in merged && NamedAlike(w, e.name)
    ensures Agrees(e, ByNameInCwdWithHome(about, w, e.name)) <==> !Clashes(e)
  {
    hide ByNameInCwdWithHome, FromStr, Named, NameOf, EntryOf, FirstNamed, AllCandidates, Deduped, Seeds, MergedAll;
    hide LoadFirst, FirstByStem, NamedAlike;
    EntryAgreesIff(about, w, merged, e);
    EntryFound(merged, e);
    ListIs(about, w, merged, e.name);
    LookupIs(about, w, e.name);
    FirstByNameScope(w, e.name);
    FirstsMeet(w, e.name);
    VariantFacts(e.name);
  }

  /** No discovered user-level or bundled agent uses a built-in name that the merge does not screen. */
  predicate NoUnscreenedName(discovered: seq<Definition>) {
    forall d :: d in discovered && d.scope != Project && FromStr(d.name).Some? ==>
      Named(d.name, SUBAGENT_VARIANTS).Some?
  }

  lemma {:induction false} DedupedHolds(defs: seq<Definition>, seen: set<string>, d: Definition)
    ensures d in Deduped(defs, seen) <==> d.name !in seen && FirstNamed(defs, d.name) == Some(d)
    decreases |defs|
  {
    if defs != [] {
      if defs[0].name in seen {
        DedupedHolds(defs[1..], seen, d);
      } else {
        DedupedHolds(defs[1..], seen + {defs[0].name}, d);
      }
    }
  }

  /** Every definition that is listed is the first of its stem. */
  predicate StemsLead(w: World, discovered: seq<Definition>) {
    forall d :: d in discovered && (d.scope == Project || Named(d.name, SUBAGENT_VARIANTS).None?) ==>
      FirstByStem(w, d.name).Some? && SameAgent(FirstByStem(w, d.name).value, d)
  }

  /** A subagent that no project definition shadows is the stem of no project file. */
  predicate VariantsFree(w: World) {
    forall v :: v in SUBAGENT_VARIANTS
      && !(FirstByName(w, NameOf(v)).Some? && FirstByName(w, NameOf(v)).value.scope == Project)
      ==> LoadFirst(w.project, NameOf(v), Project).None?
  }

  /** In any world, the whole list agrees with the lookup exactly when no discovered definition
      slips past the screening of built-in names, and stems lead to the listed definitions. */
  lemma ListAgreesIff(about: Catalogue, w: World, merged: seq<Entry>)
    requires ListOf(about, w, merged)
    ensures var discovered := Deduped(AllCandidates(w), {});
            (forall e :: e in merged ==> Agrees(e, ByNameInCwdWithHome(about, w, e.name)))
            <==> NoUnscreenedName(discovered) && StemsLead(w, discovered) && VariantsFree(w)
  {
    hide *;
    var discovered := Deduped(AllCandidates(w), {});
    forall e | e in merged ensures Agrees(e, ByNameInCwdWithHome(about, w, e.name)) <==> Resolvable(w, e) {
      EntryAgreesIff(about, w, merged, e);
    }
    if NoUnscreenedName(discovered) && StemsLead(w, discovered) && VariantsFree(w) {
      forall e | e in merged ensures Resolvable(w, e) {
        ListedResolves(about, w, merged, e);
      }
    }
    if forall e :: e in merged ==> Resolvable(w, e) {
      DefinitionsLead(about, w, merged);
      SubagentsFree(about, w, merged);
    }
  }

  lemma ListedResolves(about: Catalogue, w: World, merged: seq<Entry>, e: Entry)
    requires ListOf(about, w, merged) && e in merged
    requires var discovered := Deduped(AllCandidates(w), {});
             NoUnscreenedName(discovered) && StemsLead(w, discovered) && VariantsFree(w)
    ensures Resolvable(w, e)
  {
    hide FromStr, Named, NameOf, EntryOf, FirstNamed, AllCandidates, Deduped, Seeds, MergedAll, LoadFirst;
    hide FirstByStem;
    EntryFound(merged, e);
    ListIs(about, w, merged, e.name);
    FirstByNameScope(w, e.name);
    VariantFacts(e.name);
    var c := FirstByName(w, e.name);
    if c.Some? { DedupedHolds(AllCandidates(w), {}, c.value); }
  }

  lemma DefinitionsLead(about: Catalogue, w: World, merged: seq<Entry>)
    requires ListOf(about, w, merged) && forall e :: e in merged ==> Resolvable(w, e)
    ensures NoUnscreenedName(Deduped(AllCandidates(w), {})) && StemsLead(w, Deduped(AllCandidates(w), {}))
  {
    hide FromStr, Named, NameOf, EntryOf, FirstNamed, AllCandidates, Deduped, Seeds, MergedAll, LoadFirst;
    hide FirstByStem;
    forall d | d in Deduped(AllCandidates(w), {}) && (d.scope == Project || Named(d.name, SUBAGENT_VARIANTS).None?)
      ensures FirstByStem(w, d.name).Some? && SameAgent(FirstByStem(w, d.name).value, d)
      ensures d.scope != Project ==> FromStr(d.name).None?
    {
      DedupedHolds(AllCandidates(w), {}, d);
      ListIs(about, w, merged, d.name);
      FirstByNameScope(w, d.name);
      EntryIn(merged, d.name);
      assert Resolvable(w, EntryOf(merged, d.name).value);
    }
  }

  lemma SubagentsFree(about: Catalogue, w: World, merged: seq<Entry>)
    requires ListOf(about, w, merged) && forall e :: e in merged ==> Resolvable(w, e)
    ensures VariantsFree(w)
  {
    hide FromStr, Named, NameOf, EntryOf, FirstNamed, AllCandidates, Deduped, Seeds, MergedAll, LoadFirst;
    hide FirstByStem;
    forall v | v in SUBAGENT_VARIANTS
        && !(FirstByName(w, NameOf(v)).Some? && FirstByName(w, NameOf(v)).value.scope == Project)
      ensures LoadFirst(w.project, NameOf(v), Project).None?
    {
      ListIs(about, w, merged, NameOf(v));
      assert Named(NameOf(v), SUBAGENT_VARIANTS).Some?;
      EntryIn(merged, NameOf(v));
      assert Resolvable(w, EntryOf(merged, NameOf(v)).value);
    }
  }

  /** `found`, which the lookup returns for `name`, is what the list shows under it. */
  predicate Shown(w: World, name: string, found: Definition) {
    var c := FirstByName(w, name);
    if found.scope == BuiltIn then Named(name, SUBAGENT_VARIANTS).Some? && !(c.Some? && c.value.scope == Project)
    else c.Some? && SameAgent(found, c.value)
  }

  /** In any world, what the lookup finds is on the list exactly when the toggles let it be, and
      it is either a subagent that no project definition shadows, or the first file that
      declares its name. */
  lemma CallableVisibleIff(about: Catalogue, w: World, merged: seq<Entry>, toggle: map<string, bool>, name: string)
    requires ListOf(about, w, merged) && ByNameInCwdWithHome(about, w, name).Some?
    ensures (exists e :: e in Filtered(merged, toggle) && e.name == name
                         && Agrees(e, ByNameInCwdWithHome(about, w, name)))
       <==> Enabled(toggle, name) && Shown(w, name, ByNameInCwdWithHome(about, w, name).value)
  {
    hide ByNameInCwdWithHome, FromStr, Named, NameOf, EntryOf, FirstNamed, AllCandidates, Deduped, Seeds, MergedAll;
    hide LoadFirst, FirstByStem, Filtered, Enabled;
    var found := ByNameInCwdWithHome(about, w, name);
    ListIs(about, w, merged, name);
    LookupIs(about, w, name);
    FirstByNameScope(w, name);
    VariantFacts(name);
    if e :| e in Filtered(merged, toggle) && e.name == name && Agrees(e, found) {
      FilteredMember(merged, toggle, e);
      EntryFound(merged, e);
    }
    if Enabled(toggle, name) && Shown(w, name, found.value) {
      EntryIn(merged, name);
      FilteredMember(merged, toggle, EntryOf(merged, name).value);
      assert Agrees(EntryOf(merged, name).value, found);
    }
  }

  /** `all_subagents`: discover, merge, filter. */
  method AllSubagents(about: Catalogue, w: World, toggle: map<string, bool>) returns (visible: seq<Entry>)
    ensures forall e :: e in visible ==> (Agrees(e, ByNameInCwdWithHome(about, w, e.name)) <==> Resolvable(w, e))
    ensures forall name :: ByNameInCwdWithHome(about, w, name).Some? ==>
              ((exists e :: e in visible && e.name == name && Agrees(e, ByNameInCwdWithHome(about, w, name)))
               <==> Enabled(toggle, name) && Shown(w, name, ByNameInCwdWithHome(about, w, name).value))
  {
    hide *;
    var discovered := DiscoverWithHome(w);
    visible := MergeSubagents(about, discovered, toggle);
    ghost var merged :| MergedFrom(merged, Seeds(about), discovered) && visible == Filtered(merged, toggle);
    ListOfIs(about, w, merged);
    forall e | e in visible ensures Agrees(e, ByNameInCwdWithHome(about, w, e.name)) <==> Resolvable(w, e) {
      FilteredMember(merged, toggle, e);
      EntryAgreesIff(about, w, merged, e);
    }
    forall name | ByNameInCwdWithHome(about, w, name).Some?
      ensures (exists e :: e in visible && e.name == name && Agrees(e, ByNameInCwdWithHome(about, w, name)))
         <==> Enabled(toggle, name) && Shown(w, name, ByNameInCwdWithHome(about, w, name).value)
    {
      CallableVisibleIff(about, w, merged, toggle, name);
    }
  }

  lemma ListOfIs(about: Catalogue, w: World, merged: seq<Entry>)
    ensures MergedFrom(merged, Seeds(about), Deduped(AllCandidates(w), {})) ==> ListOf(about, w, merged)
  {
    hide MergedFrom;
  }

  const CODEX_DEFINITION := Definition("codex", "mine", User, "codex.md")
  const CODEX_FILES := [File("codex", Some(CODEX_DEFINITION))]
  /** A home directory with one agent file, `codex.md`. */
  const CODEX_WORLD := World([], [CODEX_FILES], [])

  /** A user-level `codex.md` is listed, but its name calls the built-in. */
  lemma UnscreenedNameDisagrees(about: Catalogue, merged: seq<Entry>)
    requires ListOf(about, CODEX_WORLD, merged)
    ensures DefinedEntry(CODEX_DEFINITION, None) in merged
    ensures ByNameInCwdWithHome(about, CODEX_WORLD, "codex") == Some(BuiltinDefinition(about, Codex))
    ensures !Agrees(DefinedEntry(CODEX_DEFINITION, None), ByNameInCwdWithHome(about, CODEX_WORLD, "codex"))
  {
    hide *;
    CodexFirst();
    OnlyThree();
    ListIs(about, CODEX_WORLD, merged, "codex");
    EntryIn(merged, "codex");
    LookupIs(about, CODEX_WORLD, "codex");
    CodexDiffers(about);
  }

  lemma CodexFirst()
    ensures CODEX_DEFINITION.scope == User
    ensures FirstByStem(CODEX_WORLD, "codex") == FirstByName(CODEX_WORLD, "codex") == Some(CODEX_DEFINITION)
  {
    hide FirstByStem, FirstByName;
    OneFile("codex", CODEX_DEFINITION);
  }

  lemma CodexDiffers(about: Catalogue)
    ensures !Agrees(DefinedEntry(CODEX_DEFINITION, None), Some(BuiltinDefinition(about, Codex)))
  {
    hide NameOf;
  }

  const REVIEWER_DEFINITION := Definition("reviewer", "mine", User, "foo.md")
  const REVIEWER_FILES := [File("foo", Some(REVIEWER_DEFINITION))]
  /** A home directory with one agent file, `foo.md`, which declares the name `reviewer`. */
  const REVIEWER_WORLD := World([], [REVIEWER_FILES], [])

  /** An agent is listed under the name it declares, but called by the stem of its file. */
  lemma StemDisagrees(about: Catalogue, merged: seq<Entry>)
    requires ListOf(about, REVIEWER_WORLD, merged)
    ensures DefinedEntry(REVIEWER_DEFINITION, None) in merged
    ensures ByNameInCwdWithHome(about, REVIEWER_WORLD, "reviewer") == None
    ensures ByNameInCwdWithHome(about, REVIEWER_WORLD, "foo") == Some(REVIEWER_DEFINITION)
    ensures NoUnscreenedName(Deduped(AllCandidates(REVIEWER_WORLD), {}))
  {
    ReviewerFirst();
    NotBuiltins();
    hide Named, FromStr, AllCandidates, FirstByStem, FirstByName, EntryOf, ByNameInCwdWithHome, Deduped, ListOf;
    ListIs(about, REVIEWER_WORLD, merged, "reviewer");
    EntryIn(merged, "reviewer");
    LookupIs(about, REVIEWER_WORLD, "reviewer");
    LookupIs(about, REVIEWER_WORLD, "foo");
  }

  lemma ReviewerFirst()
    ensures REVIEWER_DEFINITION.scope == User && REVIEWER_DEFINITION.name == "reviewer"
    ensures FirstByStem(REVIEWER_WORLD, "foo") == FirstByName(REVIEWER_WORLD, "reviewer") == Some(REVIEWER_DEFINITION)
    ensures FirstByStem(REVIEWER_WORLD, "reviewer") == None
    ensures Deduped(AllCandidates(REVIEWER_WORLD), {}) == [REVIEWER_DEFINITION]
  {
    hide FirstByStem, FirstByName, Deduped, AllCandidates;
    OneFile("foo", REVIEWER_DEFINITION);
    assert |"foo"| != |"reviewer"|;
  }

  lemma NotBuiltins()
    ensures FromStr("reviewer").None? && FromStr("foo").None? && Named("reviewer", SUBAGENT_VARIANTS).None?
  {
    NameStarts();
    NamesShort();
    hide Named, NameOf;
    assert "reviewer"[0] == 'r' && |"foo"| == 3;
  }

  lemma NameStarts()
    ensures forall b :: NameOf(b) != "" && NameOf(b)[0] != 'r'
  {
  }

  lemma NamesShort()
    ensures forall b :: |NameOf(b)| >= 4
  {
  }

  /** One file in one user directory is all that is discovered, and the only file of its stem. */
  lemma OneFile(stem: string, def: Definition)
    requires def.scope == User
    ensures var w := World([], [[File(stem, Some(def))]], []);
            && Deduped(AllCandidates(w), {}) == [def]
            && (forall name :: FirstByName(w, name) == if name == def.name then Some(def) else None)
            && (forall name :: FirstByStem(w, name) == if name == stem then Some(def) else None)
  {
    var files := [File(stem, Some(def))];
    var dirs: seq<seq<File>> := [files];
    assert files[1..] == [] && DirDefinitions([], User) == [];
    assert dirs[1..] == [] && Candidates([], User) == [];
    assert DirDefinitions(files, User) == [def];
    assert Candidates(dirs, User) == [def];
    assert [def][1..] == [] && Deduped([], {def.name}) == [];
    hide DirDefinitions, Candidates;
    assert AllCandidates(World([], dirs, [])) == [def] by { NoDirs(); }
    forall name ensures FirstNamed([def], name) == if name == def.name then Some(def) else None {
      assert FirstNamed([], name) == None;
    }
    forall name ensures LoadFirst(dirs, name, User) == if name == stem then Some(def) else None {
      assert FileNamed([], name) == None && LoadFirst([], name, User) == None;
    }
  }

  lemma NoDirs()
    ensures Candidates([], Project) == [] && Candidates([], Bundled) == []
  {
  }

  lemma OnlyThree()
    ensures Named("codex", SUBAGENT_VARIANTS).None? && FromStr("codex") == Some(Codex)
  {
    var v, b := Named("codex", SUBAGENT_VARIANTS), FromStr("codex");
    assert |NameOf(GeneralPurpose)| == 15 && |NameOf(Explore)| == 7 && |NameOf(Plan)| == 4;
    assert NameOf(Codex) == "codex" && Codex in ALL_BUILTINS;
    NamesDiffer(b.value, Codex);
  }
}
