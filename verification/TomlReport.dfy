/** What a run of `sync_config` reports, read off the text before the run. */
module TomlReport {
  import opened Options
  import opened Text
  import opened TomlBlocks
  import opened TomlSync
  import opened TomlEdits
  import opened TomlAppend
  import opened TomlFixpoint

  // ---- the report, in terms of the text before the run ----

  /** The first block with the key stands at `k`. */
  predicate FirstKeyed(bs: seq<Block>, key: string, k: nat) {
    k < |bs| && bs[k].key == Some(key) && forall j :: 0 <= j < k ==> bs[j].key != Some(key)
  }

  /** There is a block with the key, and the first one is `block`, but for outer blanks. */
  predicate Holds(text: string, key: string, block: string) {
    exists k: nat :: k < |Split(text)| && FirstKeyed(Split(text), key, k) && Strip(Split(text)[k].text) == Strip(block)
  }

  /** The last of the models with the id. */
  function LastOf(ms: seq<Model>, id: string): Option<Model> {
    if ms == [] then None
    else if ms[|ms| - 1].id == id then Some(ms[|ms| - 1])
    else LastOf(ms[..|ms| - 1], id)
  }

  /** What is reported for model `i`: what its key finds in the text, or, when an earlier model has
      its id, whether the last such model is the same. */
  function ChangeAt(cfg: Settings, text: string, ms: seq<Model>, i: nat): seq<Change>
    requires i < |ms|
  {
    var key := ms[i].id + "-222";
    match LastOf(ms[..i], ms[i].id)
    case Some(before) => if before == ms[i] then [] else [Updated(key)]
    case None =>
      if forall b :: b in Split(text) ==> b.key != Some(key) then [Added(key)]
      else if Holds(text, key, MakeConfigBlock(cfg, ms[i])) then []
      else [Updated(key)]
  }

  /** What is reported for the models from `i` on. */
  function ModelsReport(cfg: Settings, text: string, ms: seq<Model>, i: nat): seq<Change>
    requires i <= |ms|
    decreases |ms| - i
  {
    if i == |ms| then [] else ChangeAt(cfg, text, ms, i) + ModelsReport(cfg, text, ms, i + 1)
  }

  /** A block of a key that ends in the suffix, of no model of the run. */
  predicate IsStale(b: Block, ms: seq<Model>) {
    && b.key.Some? && |b.key.value| >= 4 && b.key.value[|b.key.value| - 4..] == "-222"
    && forall m :: m in ms ==> b.key.value != m.id + "-222"
  }

  /** What is reported of the blocks that are removed. */
  function StaleReport(bs: seq<Block>, ms: seq<Model>): seq<Change> {
    if bs == [] then []
    else (if IsStale(bs[0], ms) then [Removed(bs[0].key.value)] else []) + StaleReport(bs[1..], ms)
  }

  // ---- blocks by key ----

  lemma {:induction false} FirstKeyedIs(bs: seq<Block>, key: string) returns (k: nat)
    requires FirstWith(bs, key).Some?
    ensures FirstKeyed(bs, key, k) && FirstWith(bs, key) == Some(bs[k])
  {
    if bs[0].key == Some(key) {
      k := 0;
    } else {
      k := FirstKeyedIs(bs[1..], key);
      k := k + 1;
      assert forall j :: 1 <= j < k ==> bs[j] == bs[1..][j - 1];
    }
  }

  lemma FirstKeyedUnique(bs: seq<Block>, key: string, j: nat, k: nat)
    requires FirstKeyed(bs, key, j) && FirstKeyed(bs, key, k)
    ensures j == k
  {
  }

  lemma HoldsIs(text: string, key: string, block: string)
    ensures Holds(text, key, block) <==> BlockEqual(text, key, block)
    ensures (forall b :: b in Split(text) ==> b.key != Some(key)) <==> !HasKey(text, key)
  {
    hide Split, Strip;
    if FirstWith(Split(text), key).Some? {
      var k := FirstKeyedIs(Split(text), key);
      hide FirstWith;
      assert Split(text)[k] in Split(text);
      if j: nat :| j < |Split(text)| && FirstKeyed(Split(text), key, j) && Strip(Split(text)[j].text) == Strip(block) {
        FirstKeyedUnique(Split(text), key, j, k);
      }
    }
  }

  // ---- the models ----

  lemma LastOfIs(ms: seq<Model>, m: Model, id: string)
    ensures LastOf(ms + [m], id) == if m.id == id then Some(m) else LastOf(ms, id)
    ensures LastOf(ms, id).Some? ==> LastOf(ms, id).value.id == id
  {
    assert (ms + [m])[..|ms|] == ms;
  }

  /** The blocks of the models so far are the last ones' own, and all others are what they were. */
  ghost predicate Tracks(cfg: Settings, text: string, so: seq<Model>, now: string) {
    forall id :: if LastOf(so, id).Some? then Settled(cfg, now, LastOf(so, id).value)
                 else Alike(FirstWith(Split(now), id + SUFFIX), FirstWith(Split(text), id + SUFFIX))
  }

  lemma TracksAt(cfg: Settings, text: string, so: seq<Model>, now: string, id: string)
    requires Tracks(cfg, text, so, now)
    ensures if LastOf(so, id).Some? then Settled(cfg, now, LastOf(so, id).value)
            else Alike(FirstWith(Split(now), id + SUFFIX), FirstWith(Split(text), id + SUFFIX))
  {
    hide LastOf, Settled, Alike, FirstWith, Split;
  }

  lemma TracksFirst(cfg: Settings, text: string)
    ensures Tracks(cfg, text, [], text)
  {
    hide Settled, FirstWith, Split;
  }

  lemma AlikeAgain(a: Option<Block>, b: Option<Block>, c: Option<Block>)
    requires Alike(a, b) && Alike(b, c)
    ensures Alike(a, c)
  {
    hide Strip;
  }

  lemma KeysApart(a: string, b: string)
    requires a + SUFFIX == b + SUFFIX
    ensures a == b
  {
    assert |a + SUFFIX| == |b + SUFFIX|;
    assert (a + SUFFIX)[..|a|] == a && (b + SUFFIX)[..|b|] == b;
  }

  lemma TracksOn(cfg: Settings, text: string, so: seq<Model>, now: string, m: Model)
    requires Tracks(cfg, text, so, now) && GoodModel(cfg, m) && CanStand(now, KeyFor(m))
    ensures Tracks(cfg, text, so + [m], Next(cfg, now, m))
  {
    hide LastOf, Settled, Alike, FirstWith, Split, Next, CanStand, GoodModel, AlikeBut;
    var next := Next(cfg, now, m);
    NextSettles(cfg, now, m);
    forall id
      ensures if LastOf(so + [m], id).Some? then Settled(cfg, next, LastOf(so + [m], id).value)
              else Alike(FirstWith(Split(next), id + SUFFIX), FirstWith(Split(text), id + SUFFIX))
    {
      LastOfIs(so, m, id);
      if m.id != id {
        if id + SUFFIX == m.id + SUFFIX { KeysApart(id, m.id); }
        AlikeAt(now, next, {KeyFor(m)}, id + SUFFIX);
        TracksAt(cfg, text, so, now, id);
        if LastOf(so, id).Some? {
          SettledKept(cfg, now, next, LastOf(so, id).value);
        } else {
          AlikeAgain(FirstWith(Split(next), id + SUFFIX), FirstWith(Split(now), id + SUFFIX),
                     FirstWith(Split(text), id + SUFFIX));
        }
      }
    }
  }

  lemma ModelChange(cfg: Settings, o: Outcome, m: Model)
    ensures SyncModel(cfg, o, m).changes
         == o.changes + if Settled(cfg, o.text, m) then []
                        else if HasKey(o.text, KeyFor(m)) then [Updated(KeyFor(m))] else [Added(KeyFor(m))]
  {
    hide Split, MakeConfigBlock, TrimBy, Upsert, KeyFor, FirstWith;
  }

  /** What a model finds is what the report says it finds. */
  lemma FoundAt(cfg: Settings, text: string, ms: seq<Model>, i: nat, now: string)
    requires i < |ms| && Tracks(cfg, text, ms[..i], now)
    ensures ChangeAt(cfg, text, ms, i)
         == if Settled(cfg, now, ms[i]) then []
            else if HasKey(now, KeyFor(ms[i])) then [Updated(KeyFor(ms[i]))] else [Added(KeyFor(ms[i]))]
  {
    hide LastOf, Settled, FirstWith, Split, Holds, MakeConfigBlock, HasKey, Tracks, Alike;
    var m, last := ms[i], LastOf(ms[..i], ms[i].id);
    TracksAt(cfg, text, ms[..i], now, m.id);
    LastOfIs(ms[..i], m, m.id);
    if last.Some? {
      SettledHas(cfg, now, last.value);
      if Settled(cfg, now, m) {
        SettledSame(cfg, now, last.value, m);
        BlockDetermines(cfg, last.value, m);
      }
    } else {
      FoundFirst(cfg, text, now, m);
    }
  }

  lemma FoundFirst(cfg: Settings, text: string, now: string, m: Model)
    requires Alike(FirstWith(Split(now), KeyFor(m)), FirstWith(Split(text), KeyFor(m)))
    ensures HasKey(now, KeyFor(m)) <==> !forall b :: b in Split(text) ==> b.key != Some(m.id + "-222")
    ensures Settled(cfg, now, m) <==> Holds(text, m.id + "-222", MakeConfigBlock(cfg, m))
    ensures Settled(cfg, now, m) ==> HasKey(now, KeyFor(m))
  {
    hide Settled, FirstWith, Split, Holds, MakeConfigBlock, HasKey, Alike;
    HoldsIs(text, KeyFor(m), MakeConfigBlock(cfg, m));
    SettledKept(cfg, text, now, m);
    AlikeHasKey(text, now, KeyFor(m));
    SettledIs(cfg, text, m);
    if Settled(cfg, now, m) { SettledHas(cfg, text, m); }
  }

  lemma AlikeHasKey(text: string, now: string, key: string)
    requires Alike(FirstWith(Split(now), key), FirstWith(Split(text), key))
    ensures HasKey(now, key) <==> HasKey(text, key)
  {
    hide FirstWith, Split, Strip;
  }

  lemma SettledIs(cfg: Settings, text: string, m: Model)
    ensures Settled(cfg, text, m) <==> BlockEqual(text, KeyFor(m), MakeConfigBlock(cfg, m))
  {
    hide BlockEqual, MakeConfigBlock, KeyFor;
  }

  lemma {:induction false} ModelsReported(cfg: Settings, text: string, ms: seq<Model>, i: nat, o: Outcome)
    requires i <= |ms| && Good(cfg, ms) && Tracks(cfg, text, ms[..i], o.text) && Lands(cfg, o.text, ms[i..])
    ensures SyncModels(cfg, o, ms[i..]).changes == o.changes + ModelsReport(cfg, text, ms, i)
    decreases |ms| - i
  {
    hide *;
    SyncModelsUnfold(cfg, o, ms[i..]);
    ModelsReportUnfold(cfg, text, ms, i);
    if i < |ms| {
      var rest := ms[i..];
      assert rest[0] == ms[i] && rest[1..] == ms[i + 1..] && ms[..i + 1] == ms[..i] + [ms[i]];
      GoodFrom(cfg, ms, i);
      LandsCons(cfg, o.text, rest);
      NextIs(cfg, o, ms[i]);
      ModelChange(cfg, o, ms[i]);
      FoundAt(cfg, text, ms, i, o.text);
      TracksOn(cfg, text, ms[..i], o.text, ms[i]);
      ModelsReported(cfg, text, ms, i + 1, SyncModel(cfg, o, ms[i]));
    }
  }

  lemma ModelsReportUnfold(cfg: Settings, text: string, ms: seq<Model>, i: nat)
    requires i <= |ms|
    ensures ModelsReport(cfg, text, ms, i)
         == if i == |ms| then [] else ChangeAt(cfg, text, ms, i) + ModelsReport(cfg, text, ms, i + 1)
  {
    hide ChangeAt;
  }

  lemma GoodFrom(cfg: Settings, ms: seq<Model>, i: nat)
    requires i <= |ms| && Good(cfg, ms)
    ensures Good(cfg, ms[i..])
  {
    hide GoodModel;
  }

  // ---- the removals ----

  lemma {:induction false} RemovalReported(o: Outcome, bs: seq<Block>, ms: seq<Model>)
    ensures RemoveStale(o, Existing222Keys(bs), Wanted(ms)).changes == o.changes + StaleReport(bs, ms)
    decreases |bs|
  {
    hide Existing222Keys, RemoveConfigBlock, Wanted, StaleReport, IsStale, RemoveStale, Is222;
    if bs == [] {
      NoReport(ms);
      NothingStale(o, Existing222Keys(bs), Wanted(ms));
    } else {
      ExistingStep(bs);
      StaleStep(bs, ms);
      var b, keys := bs[0], Existing222Keys(bs[1..]);
      StaleIs(b, ms);
      if b.key.Some? && Is222(b.key.value) {
        var key := b.key.value;
        var next := if key in Wanted(ms) then o
                    else Outcome(RemoveConfigBlock(o.text, key), o.changes + [Removed(key)]);
        RemoveHead(o, key, keys, Wanted(ms));
        RemovalReported(next, bs[1..], ms);
      } else {
        assert [] + keys == keys;
        RemovalReported(o, bs[1..], ms);
      }
    }
  }

  lemma NoReport(ms: seq<Model>)
    ensures Existing222Keys([]) == [] && StaleReport([], ms) == []
  {
  }

  lemma RemoveHead(o: Outcome, key: string, keys: seq<string>, wanted: set<string>)
    ensures RemoveStale(o, [key] + keys, wanted)
         == RemoveStale(if key in wanted then o
                        else Outcome(RemoveConfigBlock(o.text, key), o.changes + [Removed(key)]), keys, wanted)
  {
    hide RemoveConfigBlock;
    assert ([key] + keys)[1..] == keys;
  }

  lemma ExistingStep(bs: seq<Block>)
    requires bs != []
    ensures Existing222Keys(bs)
         == (if bs[0].key.Some? && Is222(bs[0].key.value) then [bs[0].key.value] else []) + Existing222Keys(bs[1..])
  {
  }

  lemma StaleStep(bs: seq<Block>, ms: seq<Model>)
    requires bs != []
    ensures StaleReport(bs, ms)
         == (if IsStale(bs[0], ms) then [Removed(bs[0].key.value)] else []) + StaleReport(bs[1..], ms)
  {
    hide IsStale;
  }

  lemma StaleIs(b: Block, ms: seq<Model>)
    ensures IsStale(b, ms) <==> b.key.Some? && Is222(b.key.value) && b.key.value !in Wanted(ms)
  {
  }

  /** The blocks of the models count for nothing there. */
  lemma {:induction false} StaleAmongOthers(bs: seq<Block>, ms: seq<Model>, managed: string -> bool)
    requires forall k :: managed(k) <==> k in Wanted(ms)
    ensures StaleReport(Others(bs, managed), ms) == StaleReport(bs, ms)
  {
    if bs != [] {
      hide IsStale, Wanted, Others, StaleReport;
      var b, kept := bs[0], Others(bs[1..], managed);
      StaleIs(b, ms);
      StaleAmongOthers(bs[1..], ms, managed);
      assert bs == [b] + bs[1..];
      OthersStep(b, bs[1..], managed);
      StaleStep(bs, ms);
      if b.key.Some? && managed(b.key.value) {
        assert [] + kept == kept && [] + StaleReport(bs[1..], ms) == StaleReport(bs[1..], ms);
      } else {
        assert ([b] + kept)[1..] == kept;
        StaleStep([b] + kept, ms);
      }
    }
  }

  // ---- the whole run ----

  /** A run whose blocks land reports, model by model, what the text before the run lacks. */
  lemma ModelsReportIs(cfg: Settings, text: string, ms: seq<Model>)
    requires Lands(cfg, text, ms) && Good(cfg, ms)
    ensures SyncModels(cfg, Outcome(text, []), ms).changes == ModelsReport(cfg, text, ms, 0)
    ensures Synced(cfg, text, ms, false).changes == ModelsReport(cfg, text, ms, 0)
  {
    hide *;
    TracksFirst(cfg, text);
    assert ms[..0] == [] && ms[0..] == ms;
    ModelsReported(cfg, text, ms, 0, Outcome(text, []));
    SyncedIn(cfg, text, ms, false);
  }

  /** One that has room for each of its blocks then reports, block by block, what goes with removal. */
  lemma ReportIs(cfg: Settings, text: string, ms: seq<Model>)
    requires Fits(cfg, text, ms) && Good(cfg, ms)
    ensures Synced(cfg, text, ms, true).changes == ModelsReport(cfg, text, ms, 0) + StaleReport(Split(text), ms)
  {
    hide *;
    var o := SyncModels(cfg, Outcome(text, []), ms);
    FitsLands(cfg, text, ms);
    ModelsReportIs(cfg, text, ms);
    SyncedIn(cfg, text, ms, true);
    RemovalReported(o, Split(o.text), ms);
    var managed := k => k in Wanted(ms);
    forall m | m in ms ensures managed(KeyFor(m)) { KeyIsWanted(ms, m); }
    SyncModelsKeep(cfg, Outcome(text, []), ms, managed);
    StaleAmongOthers(Split(o.text), ms, managed);
    StaleAmongOthers(Split(text), ms, managed);
  }

  lemma {:induction false} FitsLands(cfg: Settings, text: string, ms: seq<Model>)
    requires Fits(cfg, text, ms)
    ensures Lands(cfg, text, ms)
    decreases |ms|
  {
    hide Room, Next, KeyFor, CanStand;
    if ms != [] {
      ClosedStands(text, KeyFor(ms[0]));
      FitsLands(cfg, Next(cfg, text, ms[0]), ms[1..]);
    }
  }
}
