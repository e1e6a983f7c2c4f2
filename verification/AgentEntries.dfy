/** The entries of the visible list one by one: which definition makes an entry, what the entry
    says, and which entries the toggles leave. */
module AgentEntries {
  import opened Options
  import opened AgentDiscovery
  import opened Pairing

  // ---- the toggles ----

  function ShownMask(entries: seq<Entry>, toggle: map<string, bool>): seq<bool> {
    seq(|entries|, i requires 0 <= i < |entries| => entries[i].name !in toggle || toggle[entries[i].name])
  }

  lemma {:induction false} FilteredPicks(entries: seq<Entry>, toggle: map<string, bool>)
    ensures Filtered(entries, toggle) == Pick(entries, ShownMask(entries, toggle))
  {
    if entries != [] {
      var e, rest := entries[0], entries[1..];
      var shown := e.name !in toggle || toggle[e.name];
      FilteredPicks(rest, toggle);
      assert entries == [e] + rest && ShownMask(entries, toggle) == [shown] + ShownMask(rest, toggle);
      PickConcat([e], rest, [shown], ShownMask(rest, toggle));
      assert Pick([e], [shown]) == if shown then [e] else [];
    }
  }

  /** The toggles leave the entries whose name they do not set to false, all of them, in their
      order: a name they do not mention stays visible. */
  lemma FilteredAre(entries: seq<Entry>, toggle: map<string, bool>) returns (at: seq<nat>)
    ensures Ascending(at, |entries|)
    ensures forall i: nat :: i < |entries| ==>
              (i in at <==> !(entries[i].name in toggle && toggle[entries[i].name] == false))
    ensures |Filtered(entries, toggle)| == |at|
    ensures forall k :: 0 <= k < |at| ==> Filtered(entries, toggle)[k] == entries[at[k]]
  {
    hide Filtered, Pick;
    FilteredPicks(entries, toggle);
    at := PickedAre(entries, ShownMask(entries, toggle));
    forall i: nat | i < |entries|
      ensures i in at <==> !(entries[i].name in toggle && toggle[entries[i].name] == false)
    {
      assert ShownMask(entries, toggle)[i] == (entries[i].name !in toggle || toggle[entries[i].name]);
    }
  }

  // ---- discovery ----

  /** The first definition of its name. */
  predicate NewAt(defs: seq<Definition>, i: nat)
    requires i < |defs|
  {
    forall j :: 0 <= j < i ==> defs[j].name != defs[i].name
  }

  function NewMask(defs: seq<Definition>, seen: set<string>): seq<bool> {
    seq(|defs|, i requires 0 <= i < |defs| => defs[i].name !in seen && NewAt(defs, i))
  }

  lemma NewAtCons(def: Definition, rest: seq<Definition>, i: nat)
    requires i < |rest|
    ensures NewAt([def] + rest, i + 1) <==> rest[i].name != def.name && NewAt(rest, i)
  {
    var all := [def] + rest;
    assert all[0] == def;
    if NewAt(all, i + 1) {
      forall j | 0 <= j < i ensures rest[j].name != rest[i].name { assert all[j + 1].name != all[i + 1].name; }
    }
    if rest[i].name != def.name && NewAt(rest, i) {
      forall j | 0 <= j < i + 1 ensures all[j].name != all[i + 1].name {
        if j > 0 { assert rest[j - 1].name != rest[i].name; }
      }
    }
  }

  lemma NewMaskCons(def: Definition, rest: seq<Definition>, seen: set<string>)
    ensures NewMask([def] + rest, seen)
         == [def.name !in seen] + NewMask(rest, if def.name in seen then seen else seen + {def.name})
  {
    FirstIsNew(def, rest);
    forall i | 0 <= i < |rest|
      ensures NewAt([def] + rest, i + 1) <==> rest[i].name != def.name && NewAt(rest, i)
    {
      NewAtCons(def, rest, i);
    }
    hide NewAt;
  }

  lemma FirstIsNew(def: Definition, rest: seq<Definition>)
    ensures NewAt([def] + rest, 0)
  {
  }

  lemma {:induction false} DedupedPicks(defs: seq<Definition>, seen: set<string>)
    ensures |NewMask(defs, seen)| == |defs| && Deduped(defs, seen) == Pick(defs, NewMask(defs, seen))
    decreases |defs|
  {
    if defs != [] {
      hide NewMask, Pick;
      var def, rest := defs[0], defs[1..];
      var next := if def.name in seen then seen else seen + {def.name};
      assert defs == [def] + rest;
      NewMaskCons(def, rest, seen);
      DedupedPicks(rest, next);
      PickConcat([def], rest, [def.name !in seen], NewMask(rest, next));
      PickedOne(def, def.name !in seen);
      assert [] + Deduped(rest, next) == Deduped(rest, next);
    }
  }

  lemma PickedOne<T>(x: T, keep: bool)
    ensures Pick([x], [keep]) == if keep then [x] else []
  {
  }

  /** Discovery keeps the definitions that are the first of their name, all of them, in their order. */
  lemma DiscoveredAre(defs: seq<Definition>) returns (at: seq<nat>)
    ensures Ascending(at, |defs|)
    ensures forall i: nat :: i < |defs| ==> (i in at <==> NewAt(defs, i))
    ensures |Deduped(defs, {})| == |at| && forall k :: 0 <= k < |at| ==> Deduped(defs, {})[k] == defs[at[k]]
  {
    hide Deduped, Pick;
    DedupedPicks(defs, {});
    at := PickedAre(defs, NewMask(defs, {}));
    forall i: nat | i < |defs| ensures i in at <==> NewAt(defs, i) {
      assert NewMask(defs, {})[i] == NewAt(defs, i);
    }
  }

  // ---- which definition makes an entry ----

  /** `a` goes before `b`: project before user before bundled. */
  predicate Outranks(a: Scope, b: Scope) {
    || (a == Project && b != Project)
    || (a == User && (b == Bundled || b == BuiltIn))
    || (a == Bundled && b == BuiltIn)
  }

  /** A definition that may make the entry `name`: no built-in scope, and for the names of the three
      variants only one of the project. */
  predicate Eligible(def: Definition, name: string) {
    && def.name == name && def.scope != BuiltIn
    && (VariantOf(name).Some? ==> def.scope == Project)
  }

  /** The definition at `i` is the one that makes the entry: none outranks it, and it is the first of
      its rank. */
  predicate Best(defs: seq<Definition>, name: string, i: nat)
    requires i < |defs|
  {
    && Eligible(defs[i], name)
    && forall j :: 0 <= j < |defs| && Eligible(defs[j], name) ==>
         !Outranks(defs[j].scope, defs[i].scope) && (j < i ==> Outranks(defs[i].scope, defs[j].scope))
  }

  /** The built-in subagent of a name. */
  function VariantOf(name: string): Option<Builtin> {
    if name == "general-purpose" then Some(GeneralPurpose)
    else if name == "explore" then Some(Explore)
    else if name == "plan" then Some(Plan)
    else None
  }

  lemma VariantIsNamed(name: string)
    ensures Named(name, SUBAGENT_VARIANTS) == VariantOf(name)
  {
    assert SUBAGENT_VARIANTS[1..] == [Explore, Plan] && [Explore, Plan][1..] == [Plan] && [Plan][1..] == [];
    assert NameOf(GeneralPurpose) == "general-purpose" && NameOf(Explore) == "explore" && NameOf(Plan) == "plan";
  }

  /** What an entry made of a definition says. */
  predicate Says(e: Entry, def: Definition) {
    && e.name == def.name && e.description == def.description && e.source == UserDefined(def.scope)
    && e.configSource == (match def.scope
                          case Project => FromProject(def.path)
                          case User => FromUser(def.path)
                          case _ => FromBuiltin)
  }

  lemma EligibleIs(def: Definition, name: string)
    ensures Eligible(def, name) <==> def.name == name && Passes(def)
  {
    VariantIsNamed(def.name);
    hide Named, VariantOf;
  }

  lemma RanksAre(a: Scope, b: Scope)
    ensures Outranks(a, b) <==> Priority(a) > Priority(b)
    ensures Priority(a) == Priority(b) <==> a == b
  {
  }

  /** One more definition. */
  lemma MergedEntryIs(was: Option<Entry>, def: Definition)
    ensures var e := MergedEntry(was, def);
            if !Eligible(def, def.name) then e == was
            else if was.None? || was.value.source.BuiltinSource? || Outranks(def.scope, was.value.source.scope)
            then e.Some? && Says(e.value, def)
                 && e.value.shadowsBuiltin == if was.Some? then VariantOf(def.name) else None
            else e == was
  {
    EligibleIs(def, def.name);
    VariantIsNamed(def.name);
    if was.Some? && was.value.source.UserDefined? { RanksAre(def.scope, was.value.source.scope); }
    hide Named;
  }

  lemma BestGrows(defs: seq<Definition>, def: Definition, name: string, i: nat)
    requires i < |defs| && Best(defs, name, i)
    ensures var all := defs + [def];
            if Eligible(def, name) && Outranks(def.scope, defs[i].scope) then Best(all, name, |defs|)
            else Best(all, name, i)
  {
    var all := defs + [def];
    assert forall j :: 0 <= j < |defs| ==> all[j] == defs[j];
    assert all[|defs|] == def && all[i] == defs[i];
  }

  lemma FirstBest(defs: seq<Definition>, def: Definition, name: string)
    requires Eligible(def, name) && forall j :: 0 <= j < |defs| ==> !Eligible(defs[j], name)
    ensures Best(defs + [def], name, |defs|)
  {
    hide Eligible;
    var all := defs + [def];
    assert forall j :: 0 <= j < |defs| ==> all[j] == defs[j];
  }

  /** The entry of a name, seeded for the built-in subagents: what the best of its definitions says,
      with a note of the built-in it shadows, and with no definition what the seed says. */
  lemma {:induction false} MergedIsBest(seed: Option<Entry>, defs: seq<Definition>, name: string)
    returns (best: Option<nat>)
    requires seed.Some? <==> VariantOf(name).Some?
    requires seed.Some? ==> seed.value.source.BuiltinSource?
    ensures best.Some? ==> best.value < |defs| && Best(defs, name, best.value)
    ensures best.Some? ==> var e := MergedAll(seed, defs, name);
                           e.Some? && Says(e.value, defs[best.value]) && e.value.shadowsBuiltin == VariantOf(name)
    ensures best.None? ==>
              MergedAll(seed, defs, name) == seed && forall j :: 0 <= j < |defs| ==> !Eligible(defs[j], name)
    decreases |defs|
  {
    if defs == [] {
      best := None;
    } else {
      var n := |defs| - 1;
      var before, def := defs[..n], defs[n];
      assert defs == before + [def];
      hide MergedAll, MergedEntry, Eligible, Outranks, Best, Says, VariantOf;
      best := MergedIsBest(seed, before, name);
      MergedAllSnoc(seed, before, def, name);
      MergedEntryIs(MergedAll(seed, before, name), def);
      NameOfEligible(def, name);
      assert forall j :: 0 <= j < n ==> before[j] == defs[j];
      if best.Some? {
        BestGrows(before, def, name, best.value);
        SaysSource(MergedAll(seed, before, name).value, before[best.value]);
        if Eligible(def, name) && Outranks(def.scope, before[best.value].scope) { best := Some(n); }
      } else if Eligible(def, name) {
        FirstBest(before, def, name);
        best := Some(n);
      }
    }
  }

  lemma NameOfEligible(def: Definition, name: string)
    ensures Eligible(def, name) <==> def.name == name && Eligible(def, def.name)
  {
  }

  lemma SaysSource(e: Entry, def: Definition)
    requires Says(e, def)
    ensures e.source == UserDefined(def.scope)
  {
  }

  /** The seeds: one entry for each built-in subagent, with its own description and source. */
  lemma SeedsAre(about: Catalogue, name: string)
    ensures EntryOf(Seeds(about), name)
         == match VariantOf(name)
            case Some(b) => Some(Entry(name, about(b), BuiltinSource(b), None, FromBuiltin))
            case None => None
  {
    var seeds := Seeds(about);
    assert NameOf(GeneralPurpose) == "general-purpose" && NameOf(Explore) == "explore" && NameOf(Plan) == "plan";
    assert seeds[1..] == [seeds[1], seeds[2]] && seeds[1..][1..] == [seeds[2]] && seeds[1..][1..][1..] == [];
  }

  // ---- the order of the list ----

  /** A definition that makes or changes an entry, of a name that is not among `names` and that no
      such definition before it has. */
  predicate AddsName(names: seq<string>, defs: seq<Definition>, i: nat)
    requires i < |defs|
  {
    && Eligible(defs[i], defs[i].name) && defs[i].name !in names
    && forall j :: 0 <= j < i && Eligible(defs[j], defs[j].name) ==> defs[j].name != defs[i].name
  }

  function AddingMask(names: seq<string>, defs: seq<Definition>): seq<bool> {
    seq(|defs|, i requires 0 <= i < |defs| => AddsName(names, defs, i))
  }

  function Names(defs: seq<Definition>): seq<string> {
    seq(|defs|, i requires 0 <= i < |defs| => defs[i].name)
  }

  lemma AddsNameBehind(names: seq<string>, def: Definition, rest: seq<Definition>, i: nat)
    requires i < |rest|
    ensures AddsName(names, [def] + rest, i + 1) <==> AddsName(Extended(names, def), rest, i)
  {
    var all, next := [def] + rest, Extended(names, def);
    EligibleIs(def, def.name);
    hide Eligible, Passes;
    assert all[i + 1] == rest[i] && all[0] == def;
    if AddsName(names, all, i + 1) {
      forall j | 0 <= j < i && Eligible(rest[j], rest[j].name) ensures rest[j].name != rest[i].name {
        assert all[j + 1] == rest[j];
      }
    }
    if AddsName(next, rest, i) {
      forall j | 0 <= j < i + 1 && Eligible(all[j], all[j].name) ensures all[j].name != all[i + 1].name {
        if j > 0 { assert all[j] == rest[j - 1]; }
      }
    }
  }

  lemma AddingMaskCons(names: seq<string>, def: Definition, rest: seq<Definition>)
    ensures AddingMask(names, [def] + rest)
         == [Passes(def) && def.name !in names] + AddingMask(Extended(names, def), rest)
  {
    EligibleIs(def, def.name);
    assert AddsName(names, [def] + rest, 0) <==> Passes(def) && def.name !in names;
    hide AddsName, Passes, Extended;
    forall i | 0 <= i < |rest|
      ensures AddsName(names, [def] + rest, i + 1) <==> AddsName(Extended(names, def), rest, i)
    {
      AddsNameBehind(names, def, rest, i);
    }
  }

  lemma {:induction false} NameOrderPicks(names: seq<string>, defs: seq<Definition>)
    ensures |AddingMask(names, defs)| == |defs| == |Names(defs)|
    ensures NameOrder(names, defs) == names + Pick(Names(defs), AddingMask(names, defs))
    decreases |defs|
  {
    hide AddingMask, Pick, Passes, NameOrder;
    NameOrderUnfold(names, defs);
    MaskSize(names, defs);
    if defs == [] {
      NothingPicked(Names(defs), AddingMask(names, defs));
      assert names + [] == names;
    } else {
      var def, rest := defs[0], defs[1..];
      var next, keep := Extended(names, def), Passes(def) && def.name !in names;
      assert defs == [def] + rest && Names(defs) == [def.name] + Names(rest);
      AddingMaskCons(names, def, rest);
      NameOrderPicks(next, rest);
      PickConcat([def.name], Names(rest), [keep], AddingMask(next, rest));
      PickedOne(def.name, keep);
      assert names + ([def.name] + Pick(Names(rest), AddingMask(next, rest)))
          == names + [def.name] + Pick(Names(rest), AddingMask(next, rest));
      assert [] + Pick(Names(rest), AddingMask(next, rest)) == Pick(Names(rest), AddingMask(next, rest));
    }
  }

  lemma NameOrderUnfold(names: seq<string>, defs: seq<Definition>)
    ensures NameOrder(names, defs) == if defs == [] then names else NameOrder(Extended(names, defs[0]), defs[1..])
  {
    hide Extended;
  }

  lemma MaskSize(names: seq<string>, defs: seq<Definition>)
    ensures |AddingMask(names, defs)| == |defs|
  {
    hide AddsName;
  }

  lemma NothingPicked<T>(s: seq<T>, mask: seq<bool>)
    requires s == [] && mask == []
    ensures Pick(s, mask) == []
  {
  }

  /** The merged list, before the toggles: the built-in subagents, and behind them, in the order of
      discovery, the names that the definitions add. */
  lemma NamesAre(about: Catalogue, defs: seq<Definition>) returns (at: seq<nat>)
    ensures Ascending(at, |defs|)
    ensures var seeded := ["general-purpose", "explore", "plan"];
            && (forall i: nat :: i < |defs| ==> (i in at <==> AddsName(seeded, defs, i)))
            && NameOrder(NamesOf(Seeds(about)), defs)
               == seeded + seq(|at|, k requires 0 <= k < |at| => defs[at[k]].name)
  {
    SeedNames(about);
    var seeded := NamesOf(Seeds(about));
    hide AddsName, Pick, NameOrder, NamesOf, Seeds;
    NameOrderPicks(seeded, defs);
    at := PickedAre(Names(defs), AddingMask(seeded, defs));
    assert forall i: nat :: i < |defs| ==> AddingMask(seeded, defs)[i] == AddsName(seeded, defs, i);
    assert Pick(Names(defs), AddingMask(seeded, defs)) == seq(|at|, k requires 0 <= k < |at| => defs[at[k]].name);
  }

  lemma SeedNames(about: Catalogue)
    ensures NamesOf(Seeds(about)) == ["general-purpose", "explore", "plan"]
  {
    var names := NamesOf(Seeds(about));
    assert names[0] == "general-purpose" && names[1] == "explore" && names[2] == "plan";
  }
}
