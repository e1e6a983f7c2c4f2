/** What a run of `sync_config` leaves behind: every upstream model settled, nothing else
    touched, and nothing left to do for a second run. */
module TomlFixpoint {
  import opened Options
  import opened Text
  import opened TomlBlocks
  import opened TomlSync
  import opened TomlEdits
  import opened TomlAppend
  import Utf8

  // ---- one model, then all of them ----

  /** The first block of the model's key says what the tool would write. */
  predicate Settled(cfg: Settings, text: string, m: Model) {
    BlockEqual(text, KeyFor(m), MakeConfigBlock(cfg, m))
  }

  lemma SettledHas(cfg: Settings, text: string, m: Model)
    requires Settled(cfg, text, m)
    ensures HasKey(text, KeyFor(m))
  {
    hide Split, MakeConfigBlock, TrimBy;
  }

  lemma SyncModelIs(cfg: Settings, o: Outcome, m: Model)
    ensures Settled(cfg, o.text, m) ==> SyncModel(cfg, o, m) == o
    ensures !Settled(cfg, o.text, m) ==>
              SyncModel(cfg, o, m).text == Upsert(o.text, KeyFor(m), MakeConfigBlock(cfg, m))
  {
    hide Split, MakeConfigBlock, TrimBy, Upsert, KeyFor;
  }

  /** The text after one model. */
  function Next(cfg: Settings, text: string, m: Model): string {
    if Settled(cfg, text, m) then text else Upsert(text, KeyFor(m), MakeConfigBlock(cfg, m))
  }

  lemma NextIs(cfg: Settings, o: Outcome, m: Model)
    ensures SyncModel(cfg, o, m).text == Next(cfg, o.text, m)
  {
    hide Settled, Upsert, KeyFor, MakeConfigBlock, SyncModel;
    SyncModelIs(cfg, o, m);
  }

  /** There is room for the block, or all that stands on the unended line is blank. */
  predicate CanStand(text: string, key: string) {
    Room(text, key) || Strip(Hanging(text)) == ""
  }

  /** No block of the run comes to stand behind an unended line that is not blank. */
  predicate Lands(cfg: Settings, text: string, ms: seq<Model>)
    decreases |ms|
  {
    ms == [] || (CanStand(text, KeyFor(ms[0])) && Lands(cfg, Next(cfg, text, ms[0]), ms[1..]))
  }

  predicate Good(cfg: Settings, ms: seq<Model>) {
    forall m :: m in ms ==> GoodModel(cfg, m)
  }

  /** Every key but the given ones leads to what it did, but for outer blanks. */
  ghost predicate AlikeBut(text: string, after: string, keys: set<string>) {
    forall k :: k !in keys ==> Alike(FirstWith(Split(after), k), FirstWith(Split(text), k))
  }

  lemma AlikeTwice(text: string, next: string, after: string, a: set<string>, b: set<string>)
    requires AlikeBut(text, next, a) && AlikeBut(next, after, b)
    ensures AlikeBut(text, after, a + b)
  {
    hide FirstWith, Split, Strip;
  }

  lemma AlikeAt(text: string, after: string, keys: set<string>, k: string)
    requires AlikeBut(text, after, keys) && k !in keys
    ensures Alike(FirstWith(Split(after), k), FirstWith(Split(text), k))
    ensures HasKey(after, k) <==> HasKey(text, k)
  {
    hide FirstWith, Split, Strip;
  }

  /** One model: it is settled, and every other key leads to what it did, but for a blank. */
  lemma NextSettles(cfg: Settings, text: string, m: Model)
    requires GoodModel(cfg, m) && CanStand(text, KeyFor(m))
    ensures var r := Next(cfg, text, m);
            && Settled(cfg, r, m) && (Closed(text) ==> Closed(r))
            && AlikeBut(text, r, {KeyFor(m)})
  {
    hide Split, Upsert, MakeConfigBlock, FirstWith, Closed, Writable, GoodModel, KeyFor, WithNewline;
    hide Hanging, Strip, Room, Settled, Alike;
    var key, block := KeyFor(m), MakeConfigBlock(cfg, m);
    if !Settled(cfg, text, m) {
      ConfigBlockWritable(cfg, m);
      UpsertSplits(text, key, block);
      if Room(text, key) {
        UpsertAlike(text, key, block);
      } else {
        BlankAppend(text, key, block);
      }
      SettledBy(cfg, Next(cfg, text, m), m, Block(Some(key), block));
    }
    forall k | k != key || Settled(cfg, text, m)
      ensures Alike(FirstWith(Split(Next(cfg, text, m)), k), FirstWith(Split(text), k))
    {
      AlikeSame(FirstWith(Split(text), k));
    }
  }

  lemma AlikeSame(b: Option<Block>)
    ensures Alike(b, b)
  {
    hide Strip;
  }

  lemma SettledBy(cfg: Settings, text: string, m: Model, b: Block)
    requires Alike(FirstWith(Split(text), KeyFor(m)), Some(b)) && b.text == MakeConfigBlock(cfg, m)
    ensures Settled(cfg, text, m)
  {
    hide FirstWith, Split, Strip, KeyFor, MakeConfigBlock;
  }

  lemma UpsertAlike(text: string, key: string, block: string)
    requires Writable(Block(Some(key), block)) && WithNewline(block) == block && Room(text, key)
    ensures var after := Split(Upsert(text, key, block));
            forall k :: Alike(FirstWith(after, k),
                              if k == key then Some(Block(Some(key), block)) else FirstWith(Split(text), k))
  {
    hide Split, Upsert, Upserted, FirstWith, Writable, WithNewline, Strip, Room;
    var b := Block(Some(key), block);
    UpsertSplits(text, key, block);
    forall k
      ensures FirstWith(Upserted(Split(text), b), k) == if k == key then Some(b) else FirstWith(Split(text), k)
    {
      FirstUpserted(Split(text), b, k);
    }
  }

  /** Where there is room, all blocks of other keys are kept. */
  lemma NextKeeps(cfg: Settings, text: string, m: Model, managed: string -> bool)
    requires GoodModel(cfg, m) && Room(text, KeyFor(m)) && managed(KeyFor(m))
    ensures Others(Split(Next(cfg, text, m)), managed) == Others(Split(text), managed)
  {
    if !Settled(cfg, text, m) {
      hide Split, Upsert, MakeConfigBlock, Upserted, FirstWith, Others, Closed, Writable, GoodModel, KeyFor;
      hide WithNewline, TrimBy;
      var b := Block(Some(KeyFor(m)), MakeConfigBlock(cfg, m));
      ConfigBlockWritable(cfg, m);
      UpsertSplits(text, KeyFor(m), b.text);
      OthersUpserted(Split(text), b, managed);
    }
  }

  /** Models of one id are one model. */
  predicate Consistent(ms: seq<Model>) {
    forall a, b :: a in ms && b in ms && a.id == b.id ==> a == b
  }

  lemma WantedCons(ms: seq<Model>)
    requires ms != []
    ensures Wanted(ms) == {KeyFor(ms[0])} + Wanted(ms[1..])
    ensures Consistent(ms) ==> Consistent(ms[1..]) && (KeyFor(ms[0]) in Wanted(ms[1..]) ==> ms[0] in ms[1..])
  {
    assert ms == [ms[0]] + ms[1..];
    assert forall m :: m in ms <==> m == ms[0] || m in ms[1..];
    forall m | m in ms[1..] && KeyFor(m) == KeyFor(ms[0]) ensures m.id == ms[0].id {
      assert KeyFor(m)[..|m.id|] == m.id && KeyFor(ms[0])[..|ms[0].id|] == ms[0].id;
    }
  }

  /** A run whose blocks all land settles every model. */
  lemma {:induction false} SyncModelsSettle(cfg: Settings, o: Outcome, ms: seq<Model>)
    requires Lands(cfg, o.text, ms) && Consistent(ms) && Good(cfg, ms)
    ensures var r := SyncModels(cfg, o, ms);
            && (forall m :: m in ms ==> Settled(cfg, r.text, m))
            && AlikeBut(o.text, r.text, Wanted(ms))
    decreases |ms|
  {
    hide *;
    SyncModelsUnfold(cfg, o, ms);
    if ms == [] {
      AlikeThroughout(o.text, Wanted(ms));
    } else {
      var m, rest := ms[0], ms[1..];
      var first, last := SyncModel(cfg, o, m), SyncModels(cfg, o, ms);
      assert ms == [m] + rest;
      WantedCons(ms);
      LandsCons(cfg, o.text, ms);
      NextIs(cfg, o, m);
      NextSettles(cfg, o.text, m);
      SyncModelsSettle(cfg, first, rest);
      AlikeTwice(o.text, first.text, last.text, {KeyFor(m)}, Wanted(rest));
      if KeyFor(m) !in Wanted(rest) {
        AlikeAt(first.text, last.text, Wanted(rest), KeyFor(m));
        SettledKept(cfg, first.text, last.text, m);
      }
    }
  }

  lemma AlikeThroughout(text: string, keys: set<string>)
    ensures AlikeBut(text, text, keys)
  {
    hide FirstWith, Split, Strip;
  }

  lemma LandsCons(cfg: Settings, text: string, ms: seq<Model>)
    requires ms != [] && Lands(cfg, text, ms) && Good(cfg, ms)
    ensures CanStand(text, KeyFor(ms[0])) && Lands(cfg, Next(cfg, text, ms[0]), ms[1..])
    ensures GoodModel(cfg, ms[0]) && Good(cfg, ms[1..])
  {
    hide CanStand, Next, GoodModel, KeyFor;
  }

  /** There is room for every block of the run. */
  predicate Fits(cfg: Settings, text: string, ms: seq<Model>)
    decreases |ms|
  {
    ms == [] || (Room(text, KeyFor(ms[0])) && Fits(cfg, Next(cfg, text, ms[0]), ms[1..]))
  }

  lemma FitsCons(cfg: Settings, text: string, ms: seq<Model>)
    requires ms != []
    ensures Fits(cfg, text, ms) <==> Room(text, KeyFor(ms[0])) && Fits(cfg, Next(cfg, text, ms[0]), ms[1..])
  {
    hide Room, Next, KeyFor;
  }

  lemma GoodCons(cfg: Settings, ms: seq<Model>)
    requires Good(cfg, ms) && ms != []
    ensures GoodModel(cfg, ms[0]) && Good(cfg, ms[1..])
  {
    hide GoodModel;
  }

  lemma {:induction false} ClosedLands(cfg: Settings, text: string, ms: seq<Model>)
    requires Closed(text) && Good(cfg, ms)
    ensures Lands(cfg, text, ms)
    decreases |ms|
  {
    if ms != [] {
      hide Room, Next, GoodModel, KeyFor, Closed;
      GoodCons(cfg, ms);
      ClosedStands(text, KeyFor(ms[0]));
      NextSettles(cfg, text, ms[0]);
      ClosedLands(cfg, Next(cfg, text, ms[0]), ms[1..]);
    }
  }

  lemma ClosedStands(text: string, key: string)
    ensures Closed(text) ==> Room(text, key)
    ensures Room(text, key) ==> CanStand(text, key)
  {
    hide HasKey, Closed, Strip, Hanging;
  }

  lemma {:induction false} SyncModelsKeep(cfg: Settings, o: Outcome, ms: seq<Model>, managed: string -> bool)
    requires Fits(cfg, o.text, ms) && Good(cfg, ms) && forall m :: m in ms ==> managed(KeyFor(m))
    ensures var r := SyncModels(cfg, o, ms);
            Others(Split(r.text), managed) == Others(Split(o.text), managed) && (Closed(o.text) ==> Closed(r.text))
    decreases |ms|
  {
    hide *;
    SyncModelsUnfold(cfg, o, ms);
    if ms != [] {
      assert ms == [ms[0]] + ms[1..];
      FitsCons(cfg, o.text, ms);
      GoodCons(cfg, ms);
      NextIs(cfg, o, ms[0]);
      NextKeeps(cfg, o.text, ms[0], managed);
      ClosedStands(o.text, KeyFor(ms[0]));
      NextSettles(cfg, o.text, ms[0]);
      SyncModelsKeep(cfg, SyncModel(cfg, o, ms[0]), ms[1..], managed);
    }
  }

  lemma SettledKept(cfg: Settings, text: string, after: string, m: Model)
    requires Alike(FirstWith(Split(after), KeyFor(m)), FirstWith(Split(text), KeyFor(m)))
    ensures Settled(cfg, after, m) <==> Settled(cfg, text, m)
  {
    hide Split, MakeConfigBlock, TrimBy, FirstWith;
  }

  lemma {:induction false} NothingToSync(cfg: Settings, o: Outcome, ms: seq<Model>)
    requires forall m :: m in ms ==> Settled(cfg, o.text, m)
    ensures SyncModels(cfg, o, ms) == o
    decreases |ms|
  {
    if ms != [] {
      hide SyncModel, Settled;
      SyncModelIs(cfg, o, ms[0]);
      NothingToSync(cfg, o, ms[1..]);
    }
  }

  // ---- removing what is gone upstream ----

  lemma {:induction false} ExistingAre(bs: seq<Block>, key: string)
    ensures key in Existing222Keys(bs) <==> Is222(key) && FirstWith(bs, key).Some?
  {
    if bs != [] {
      ExistingAre(bs[1..], key);
    }
  }

  lemma RemoveOne(text: string, key: string, managed: string -> bool)
    requires managed(key)
    ensures var r := RemoveConfigBlock(text, key);
            && (Closed(text) ==> Closed(r))
            && (forall k :: FirstWith(Split(r), k) == if k == key then None else FirstWith(Split(text), k))
            && Others(Split(r), managed) == Others(Split(text), managed)
  {
    hide Split, FirstWith, Others, Closed, RemoveConfigBlock, Without;
    RemoveSplits(text, key);
    OthersWithout(Split(text), key, managed);
    forall k ensures FirstWith(Without(Split(text), key), k) == if k == key then None else FirstWith(Split(text), k) {
      FirstWithout(Split(text), key, k);
    }
  }

  lemma {:induction false} RemoveStaleStep(o: Outcome, keys: seq<string>, wanted: set<string>, managed: string -> bool)
    requires forall k :: k in keys ==> managed(k)
    ensures var r := RemoveStale(o, keys, wanted);
            && (Closed(o.text) ==> Closed(r.text))
            && (forall k :: FirstWith(Split(r.text), k)
                            == if k in keys && k !in wanted then None else FirstWith(Split(o.text), k))
            && Others(Split(r.text), managed) == Others(Split(o.text), managed)
    decreases |keys|
  {
    if keys != [] {
      hide Split, FirstWith, Others, Closed, RemoveConfigBlock, Without;
      var next := if keys[0] in wanted then o
                  else Outcome(RemoveConfigBlock(o.text, keys[0]), o.changes + [Removed(keys[0])]);
      assert keys == [keys[0]] + keys[1..];
      RemoveOne(o.text, keys[0], managed);
      RemoveStaleStep(next, keys[1..], wanted, managed);
    }
  }

  lemma {:induction false} NothingStale(o: Outcome, keys: seq<string>, wanted: set<string>)
    requires forall k :: k in keys ==> k in wanted
    ensures RemoveStale(o, keys, wanted) == o
    decreases |keys|
  {
    if keys != [] {
      NothingStale(o, keys[1..], wanted);
    }
  }

  // ---- main results ----

  /** The keys a run may touch. */
  function Managed(ms: seq<Model>, removeMissing: bool): string -> bool {
    if removeMissing then Is222 else (k => k in Wanted(ms))
  }

  /** A second run changes nothing and reports nothing. */
  predicate Quiet(cfg: Settings, text: string, ms: seq<Model>, removeMissing: bool) {
    var r := Synced(cfg, text, ms, removeMissing).text;
    Synced(cfg, r, ms, removeMissing) == Outcome(r, [])
  }

  lemma ManagedWanted(cfg: Settings, ms: seq<Model>, removeMissing: bool, m: Model)
    requires m in ms && GoodModel(cfg, m)
    ensures Managed(ms, removeMissing)(KeyFor(m)) && KeyFor(m) in Wanted(ms)
  {
    KeyIsTrimmed(m);
  }

  lemma SyncedIn(cfg: Settings, text: string, ms: seq<Model>, removeMissing: bool)
    ensures var o := SyncModels(cfg, Outcome(text, []), ms);
            Synced(cfg, text, ms, removeMissing)
            == if removeMissing then RemoveStale(o, Existing222Keys(Split(o.text)), Wanted(ms)) else o
  {
    hide SyncModels, Split, RemoveStale;
  }

  /** The removal leaves the upstream models alone, and no other `-222` key. */
  lemma RemovalKeeps(cfg: Settings, text: string, ms: seq<Model>, removeMissing: bool)
    ensures var r, o := Synced(cfg, text, ms, removeMissing).text, SyncModels(cfg, Outcome(text, []), ms).text;
            && (forall m :: m in ms ==> (Settled(cfg, r, m) <==> Settled(cfg, o, m)))
            && (removeMissing ==> forall k :: Is222(k) && HasKey(r, k) ==> k in Wanted(ms))
  {
    hide Split, FirstWith, Others, Closed, SyncModels, RemoveStale, Synced, Settled;
    hide KeyFor, Wanted, Existing222Keys, Is222, TrimBy;
    SyncedIn(cfg, text, ms, removeMissing);
    var o := SyncModels(cfg, Outcome(text, []), ms);
    if removeMissing {
      var keys := Existing222Keys(Split(o.text));
      forall k ensures k in keys <==> Is222(k) && FirstWith(Split(o.text), k).Some? { ExistingAre(Split(o.text), k); }
      RemoveStaleStep(o, keys, Wanted(ms), k => true);
      var r := Synced(cfg, text, ms, removeMissing).text;
      forall m | m in ms ensures Settled(cfg, r, m) <==> Settled(cfg, o.text, m) {
        KeyIsWanted(ms, m);
        SettledKept(cfg, o.text, r, m);
      }
    }
  }

  lemma KeyIsWanted(ms: seq<Model>, m: Model)
    requires m in ms
    ensures KeyFor(m) in Wanted(ms)
  {
  }

  /** One run whose blocks land settles every upstream model, and with removal the `-222`
      keys are then exactly the wanted ones. */
  lemma SyncResult(cfg: Settings, text: string, ms: seq<Model>, removeMissing: bool)
    requires Lands(cfg, text, ms) && Consistent(ms) && Good(cfg, ms)
    ensures var r := Synced(cfg, text, ms, removeMissing).text;
            && (forall m :: m in ms ==> Settled(cfg, r, m))
            && (removeMissing ==> forall k :: Is222(k) ==> (HasKey(r, k) <==> k in Wanted(ms)))
  {
    hide Split, FirstWith, SyncModels, Synced, Settled, Lands, Consistent, Good, HasKey;
    hide KeyFor, Wanted, Is222;
    var r := Synced(cfg, text, ms, removeMissing).text;
    SyncModelsSettle(cfg, Outcome(text, []), ms);
    RemovalKeeps(cfg, text, ms, removeMissing);
    forall k | k in Wanted(ms) ensures HasKey(r, k) {
      var m := WantedBy(ms, k);
      SettledHas(cfg, r, m);
    }
  }

  /** Where there is room for all its blocks, a run keeps all others byte for byte and in order. */
  lemma SyncKeepsOthers(cfg: Settings, text: string, ms: seq<Model>, removeMissing: bool)
    requires Fits(cfg, text, ms) && Good(cfg, ms)
    ensures var r := Synced(cfg, text, ms, removeMissing).text;
            && Others(Split(r), Managed(ms, removeMissing)) == Others(Split(text), Managed(ms, removeMissing))
            && (Closed(text) ==> Closed(r))
  {
    hide Split, FirstWith, Others, Closed, SyncModels, RemoveStale, Synced, Fits;
    hide KeyFor, Wanted, Existing222Keys, Is222, Managed;
    var managed := Managed(ms, removeMissing);
    SyncedIn(cfg, text, ms, removeMissing);
    forall m | m in ms ensures managed(KeyFor(m)) { ManagedWanted(cfg, ms, removeMissing, m); }
    var o := SyncModels(cfg, Outcome(text, []), ms);
    SyncModelsKeep(cfg, Outcome(text, []), ms, managed);
    if removeMissing {
      var keys := Existing222Keys(Split(o.text));
      forall k | k in keys ensures managed(k) { ExistingAre(Split(o.text), k); ManagedIs222(ms, k); }
      RemoveStaleStep(o, keys, Wanted(ms), managed);
    }
  }

  lemma ManagedIs222(ms: seq<Model>, key: string)
    requires Is222(key)
    ensures Managed(ms, true)(key)
  {
  }

  lemma WantedBy(ms: seq<Model>, key: string) returns (m: Model)
    requires key in Wanted(ms)
    ensures m in ms && KeyFor(m) == key
  {
    m :| m in ms && KeyFor(m) == key;
  }

  /** A second run changes nothing and reports nothing exactly when the first one settles every
      model. */
  lemma QuietIffSettled(cfg: Settings, text: string, ms: seq<Model>, removeMissing: bool)
    ensures Quiet(cfg, text, ms, removeMissing)
       <==> forall m :: m in ms ==> Settled(cfg, SyncModels(cfg, Outcome(text, []), ms).text, m)
  {
    hide Split, FirstWith, SyncModels, RemoveStale, Synced, Settled, KeyFor, Wanted, Existing222Keys, Is222;
    var r := Synced(cfg, text, ms, removeMissing).text;
    RemovalKeeps(cfg, text, ms, removeMissing);
    SyncedIn(cfg, r, ms, removeMissing);
    if forall m :: m in ms ==> Settled(cfg, r, m) {
      NothingToSync(cfg, Outcome(r, []), ms);
      if removeMissing {
        var keys := Existing222Keys(Split(r));
        forall k | k in keys ensures k in Wanted(ms) { ExistingAre(Split(r), k); }
        NothingStale(Outcome(r, []), keys, Wanted(ms));
      }
    }
    if Quiet(cfg, text, ms, removeMissing) {
      var o := SyncModels(cfg, Outcome(r, []), ms);
      RemovalGrows(o, Existing222Keys(Split(o.text)), Wanted(ms));
      QuietMeansSettled(cfg, Outcome(r, []), ms);
    }
  }

  /** A run whose blocks land is followed by a quiet one. */
  lemma SyncTwice(cfg: Settings, text: string, ms: seq<Model>, removeMissing: bool)
    requires Lands(cfg, text, ms) && Consistent(ms) && Good(cfg, ms)
    ensures Quiet(cfg, text, ms, removeMissing)
  {
    hide *;
    SyncModelsSettle(cfg, Outcome(text, []), ms);
    QuietIffSettled(cfg, text, ms, removeMissing);
  }

  // ---- why models of one id must agree ----

  lemma {:induction false} QuietMeansSettled(cfg: Settings, o: Outcome, ms: seq<Model>)
    ensures |SyncModels(cfg, o, ms).changes| >= |o.changes|
    ensures |SyncModels(cfg, o, ms).changes| == |o.changes| ==>
              SyncModels(cfg, o, ms) == o && forall m :: m in ms ==> Settled(cfg, o.text, m)
    decreases |ms|
  {
    hide *;
    SyncModelsUnfold(cfg, o, ms);
    if ms != [] {
      QuietStep(cfg, o, ms[0]);
      QuietMeansSettled(cfg, SyncModel(cfg, o, ms[0]), ms[1..]);
      assert ms == [ms[0]] + ms[1..];
    }
  }

  lemma SyncModelsUnfold(cfg: Settings, o: Outcome, ms: seq<Model>)
    ensures SyncModels(cfg, o, ms) == if ms == [] then o else SyncModels(cfg, SyncModel(cfg, o, ms[0]), ms[1..])
  {
    hide SyncModel;
  }

  lemma QuietStep(cfg: Settings, o: Outcome, m: Model)
    ensures if Settled(cfg, o.text, m) then SyncModel(cfg, o, m) == o
            else |SyncModel(cfg, o, m).changes| == |o.changes| + 1
  {
    SyncModelIs(cfg, o, m);
    hide Split, MakeConfigBlock, TrimBy, Upsert, KeyFor;
  }

  lemma {:induction false} RemovalGrows(o: Outcome, keys: seq<string>, wanted: set<string>)
    ensures |RemoveStale(o, keys, wanted).changes| >= |o.changes|
    decreases |keys|
  {
    if keys != [] {
      hide RemoveConfigBlock;
      RemovalGrows(o, keys[1..], wanted);
      RemovalGrows(Outcome(RemoveConfigBlock(o.text, keys[0]), o.changes + [Removed(keys[0])]), keys[1..], wanted);
    }
  }

  lemma StripEnded(front: string, number: string)
    requires front != "" && !IsSpace(front[0]) && number != "" && !IsSpace(number[|number| - 1])
    ensures Strip(front + number + "\n") == front + number
  {
    hide TrimBy;
    var core := front + number;
    assert core[0] == front[0] && core[|core| - 1] == number[|number| - 1];
    TrimIs("", core, "\n", IsSpace);
    assert "" + core + "\n" == core + "\n";
  }

  lemma IdLinesStart(cfg: Settings, id: string)
    ensures Concat(IdLines(cfg, id)) != "" && Concat(IdLines(cfg, id))[0] == '['
  {
    var ls := IdLines(cfg, id);
    ConcatOne(ls[0]);
    assert ls == [ls[0]] + ls[1..];
    ConcatAppend([ls[0]], ls[1..]);
    hide Concat;
    assert ls[0][0] == HEADER_LEAD[0];
  }

  /** The block of a model says what its id fixes, and ends in its number. */
  lemma BlockEndsInNumber(cfg: Settings, m: Model)
    ensures Strip(MakeConfigBlock(cfg, m)) == Concat(IdLines(cfg, m.id)) + CONTEXT_LEAD + Utf8.Decimal(m.ctx)
  {
    IdLinesStart(cfg, m.id);
    hide Concat, IdLines, Utf8.Decimal, Strip;
    var front, digits := Concat(IdLines(cfg, m.id)), Utf8.Decimal(m.ctx);
    var number := CONTEXT_LEAD + digits;
    ConcatAppend(IdLines(cfg, m.id), [number + "\n"]);
    ConcatOne(number + "\n");
    assert number[|number| - 1] == digits[|digits| - 1];
    StripEnded(front, number);
    assert front + (number + "\n") == front + number + "\n";
    assert front + number == front + CONTEXT_LEAD + digits;
  }

  /** The written blocks of two models of one id say the same only for one model. */
  lemma BlockDetermines(cfg: Settings, a: Model, b: Model)
    requires a.id == b.id && Strip(MakeConfigBlock(cfg, a)) == Strip(MakeConfigBlock(cfg, b))
    ensures a == b
  {
    hide *;
    BlockEndsInNumber(cfg, a);
    BlockEndsInNumber(cfg, b);
    var lead := Concat(IdLines(cfg, a.id)) + CONTEXT_LEAD;
    assert (lead + Utf8.Decimal(a.ctx))[|lead|..] == Utf8.Decimal(a.ctx);
    assert (lead + Utf8.Decimal(b.ctx))[|lead|..] == Utf8.Decimal(b.ctx);
    Utf8.DecimalInjective(a.ctx, b.ctx);
  }

  lemma SettledSame(cfg: Settings, text: string, a: Model, b: Model)
    requires Settled(cfg, text, a) && Settled(cfg, text, b) && a.id == b.id
    ensures Strip(MakeConfigBlock(cfg, a)) == Strip(MakeConfigBlock(cfg, b))
  {
    hide Split, MakeConfigBlock, TrimBy;
  }

  /** A second run is quiet only when the models of one id agree. */
  lemma QuietAgrees(cfg: Settings, text: string, ms: seq<Model>, removeMissing: bool)
    requires Quiet(cfg, text, ms, removeMissing)
    ensures Consistent(ms)
  {
    hide Quiet, SyncModels, Settled, MakeConfigBlock, TrimBy;
    QuietIffSettled(cfg, text, ms, removeMissing);
    forall a, b | a in ms && b in ms && a.id == b.id ensures a == b {
      SettledSame(cfg, SyncModels(cfg, Outcome(text, []), ms).text, a, b);
      BlockDetermines(cfg, a, b);
    }
  }

  /** When its blocks land, it is quiet exactly when they do. */
  lemma SyncTwiceIff(cfg: Settings, text: string, ms: seq<Model>, removeMissing: bool)
    requires Lands(cfg, text, ms) && Good(cfg, ms)
    ensures Quiet(cfg, text, ms, removeMissing) <==> Consistent(ms)
  {
    hide *;
    if Consistent(ms) {
      SyncTwice(cfg, text, ms, removeMissing);
    }
    if Quiet(cfg, text, ms, removeMissing) {
      QuietAgrees(cfg, text, ms, removeMissing);
    }
  }

  lemma NotSettled(cfg: Settings, text: string, m: Model)
    requires !HasKey(text, KeyFor(m))
    ensures !Settled(cfg, text, m) && Next(cfg, text, m) == Upsert(text, KeyFor(m), MakeConfigBlock(cfg, m))
  {
    hide Split, FirstWith, KeyFor, MakeConfigBlock, Upsert, TrimBy;
  }
}
