/** Which blocks of a run land, read off the text before the run: the exact condition under
    which `sync_config` can be repeated. */
module TomlPlacement {
  import opened Options
  import opened Text
  import opened TomlBlocks
  import opened TomlSync
  import opened TomlEdits
  import opened TomlAppend
  import opened TomlPushed
  import opened TomlFixpoint

  /** The last block of the text is one of the key. */
  predicate EndsIn(text: string, key: string) {
    var bs := Split(text);
    bs != [] && bs[|bs| - 1].key == Some(key)
  }

  /** One of the first `n` models updates the last block, and so ends the last line. */
  predicate ClosedBefore(cfg: Settings, text: string, ms: seq<Model>, n: nat)
    requires n <= |ms|
  {
    exists j :: 0 <= j < n && EndsIn(text, KeyFor(ms[j])) && !Settled(cfg, text, ms[j])
  }

  /** What hangs behind the last newline is blank, or there is a block keyed `ui`, or every
      model has its block already or comes behind one that updates the last block. */
  predicate Placed(cfg: Settings, text: string, ms: seq<Model>) {
    || Strip(Hanging(text)) == ""
    || HasKey(text, "ui")
    || AllPlaced(cfg, text, ms)
  }

  predicate AllPlaced(cfg: Settings, text: string, ms: seq<Model>) {
    forall i :: 0 <= i < |ms| ==> HasKey(text, KeyFor(ms[i])) || ClosedBefore(cfg, text, ms, i)
  }

  lemma ClosedBeforeCons(cfg: Settings, text: string, ms: seq<Model>, i: nat)
    requires ms != [] && i <= |ms[1..]|
    ensures ClosedBefore(cfg, text, ms, i + 1)
       <==> (EndsIn(text, KeyFor(ms[0])) && !Settled(cfg, text, ms[0])) || ClosedBefore(cfg, text, ms[1..], i)
  {
    hide EndsIn, Settled, KeyFor;
    var rest := ms[1..];
    assert forall j :: 0 <= j < |rest| ==> rest[j] == ms[j + 1];
    if j :| 0 <= j < i && EndsIn(text, KeyFor(rest[j])) && !Settled(cfg, text, rest[j]) {
      assert EndsIn(text, KeyFor(ms[j + 1])) && !Settled(cfg, text, ms[j + 1]);
    }
    if j :| 0 <= j < i + 1 && EndsIn(text, KeyFor(ms[j])) && !Settled(cfg, text, ms[j]) && j > 0 {
      assert EndsIn(text, KeyFor(rest[j - 1])) && !Settled(cfg, text, rest[j - 1]);
    }
  }

  /** What holds of the whole list holds of the first model and of the others. */
  lemma AllPlacedCons(cfg: Settings, text: string, ms: seq<Model>)
    requires ms != []
    ensures AllPlaced(cfg, text, ms)
       <==> HasKey(text, KeyFor(ms[0]))
            && ((EndsIn(text, KeyFor(ms[0])) && !Settled(cfg, text, ms[0])) || AllPlaced(cfg, text, ms[1..]))
  {
    hide EndsIn, Settled, KeyFor, HasKey;
    var rest := ms[1..];
    forall i | 0 <= i < |rest|
      ensures rest[i] == ms[i + 1]
      ensures ClosedBefore(cfg, text, ms, i + 1)
         <==> (EndsIn(text, KeyFor(ms[0])) && !Settled(cfg, text, ms[0])) || ClosedBefore(cfg, text, rest, i)
    {
      ClosedBeforeCons(cfg, text, ms, i);
    }
    hide ClosedBefore;
    NoneBefore(cfg, text, ms);
    if AllPlaced(cfg, text, ms) {
      assert HasKey(text, KeyFor(ms[0]));
      forall i | 0 <= i < |rest| && !(EndsIn(text, KeyFor(ms[0])) && !Settled(cfg, text, ms[0]))
        ensures HasKey(text, KeyFor(rest[i])) || ClosedBefore(cfg, text, rest, i)
      {
        assert HasKey(text, KeyFor(ms[i + 1])) || ClosedBefore(cfg, text, ms, i + 1);
      }
    }
  }

  lemma NoneBefore(cfg: Settings, text: string, ms: seq<Model>)
    ensures !ClosedBefore(cfg, text, ms, 0)
  {
  }

  /** What hangs behind tidy blocks hangs behind the last of them. */
  lemma HangingIsLast(bs: seq<Block>)
    requires Tidy(bs) && bs != []
    ensures Hanging(Join(bs)) == Hanging(bs[|bs| - 1].text)
  {
    hide Join, Hanging, Tidy, Ended;
    var front, last := bs[..|bs| - 1], bs[|bs| - 1];
    assert bs == front + [last];
    JoinAppend(front, [last]);
    OneJoined(last);
    FrontTidy(front, last);
    TidyJoin(front);
    HangingConcat(Join(front), last.text);
  }

  /** An edit that has room ends the last line or leaves it as it is; an update does the one
      when the last block is of its key, and the other when it is not. */
  lemma NextHangs(cfg: Settings, text: string, m: Model)
    requires GoodModel(cfg, m) && Room(text, KeyFor(m)) && !Settled(cfg, text, m)
    ensures var r := Next(cfg, text, m);
            && (Hanging(r) == "" || Hanging(r) == Hanging(text))
            && (HasKey(text, KeyFor(m)) ==>
                  if EndsIn(text, KeyFor(m)) then Hanging(r) == ""
                  else Hanging(r) == Hanging(text) && forall k :: EndsIn(r, k) <==> EndsIn(text, k))
  {
    hide *;
    var b := Block(Some(KeyFor(m)), MakeConfigBlock(cfg, m));
    var r := Next(cfg, text, m);
    ConfigBlockWritable(cfg, m);
    UpsertSplits(text, KeyFor(m), b.text);
    UnsettledNext(cfg, text, m);
    LastOf(text);
    LastOf(r);
    RoomIs(text, KeyFor(m));
    HasKeyIs(text, KeyFor(m));
    UpsertedLast(Split(text), b);
    WritableCloses(b);
    forall t: string, k ensures EndsIn(t, k) <==> Split(t) != [] && Split(t)[|Split(t)| - 1].key == Some(k) {
      EndsInIs(t, k);
    }
  }

  lemma UnsettledNext(cfg: Settings, text: string, m: Model)
    requires !Settled(cfg, text, m)
    ensures Next(cfg, text, m) == Upsert(text, KeyFor(m), MakeConfigBlock(cfg, m))
  {
    hide Settled, Upsert, KeyFor, MakeConfigBlock;
  }

  lemma EndsInIs(text: string, k: string)
    ensures EndsIn(text, k) <==> Split(text) != [] && Split(text)[|Split(text)| - 1].key == Some(k)
  {
    hide Split;
  }

  lemma LastOf(text: string)
    ensures Split(text) == [] ==> Hanging(text) == ""
    ensures Split(text) != [] ==> Hanging(text) == Hanging(Split(text)[|Split(text)| - 1].text)
  {
    hide Split, Hanging, Tidy, Closed;
    SplitIsTidy(text);
    ClosedIff(text);
    if Split(text) != [] { HangingIsLast(Split(text)); }
  }

  /** The last block after an edit: the new one or the last one before, and the last one
      before when the edit is an update of another key. */
  lemma UpsertedLast(bs: seq<Block>, b: Block)
    requires b.key.Some?
    ensures var r := Upserted(bs, b);
            && r != []
            && (r[|r| - 1] == b || (bs != [] && r[|r| - 1] == bs[|bs| - 1]))
            && (FirstWith(bs, b.key.value).Some? ==>
                  bs != [] && r[|r| - 1] == if bs[|bs| - 1].key == b.key then b else bs[|bs| - 1])
  {
    hide FirstWith, UiIndex;
    if FirstWith(bs, b.key.value).Some? { assert FirstWith(bs, b.key.value).value in bs; }
  }

  lemma WritableCloses(b: Block)
    requires Writable(b)
    ensures Hanging(b.text) == ""
  {
    hide Headed;
    ClosedIff(b.text);
  }

  // ---- which runs land, and which find room ----

  /** The blocks of a run land exactly when the text before it places them. */
  lemma {:induction false} LandsIff(cfg: Settings, text: string, ms: seq<Model>)
    requires Good(cfg, ms)
    ensures Lands(cfg, text, ms) <==> Placed(cfg, text, ms)
    decreases |ms|
  {
    hide *;
    LandsIs(cfg, text, ms);
    PlacedIs(cfg, text, ms);
    if ms == [] {
      NonePlaced(cfg, text);
    } else {
      var m, rest := ms[0], ms[1..];
      assert ms == [m] + rest;
      GoodCons(cfg, ms);
      LandsIff(cfg, Next(cfg, text, m), rest);
      PlacedIs(cfg, Next(cfg, text, m), rest);
      PlacedStep(cfg, text, m, rest);
    }
  }

  /** There is room for the blocks of a run exactly when, in the same way, nothing hangs behind
      the last newline, blank or not. */
  lemma {:induction false} FitsIff(cfg: Settings, text: string, ms: seq<Model>)
    requires Good(cfg, ms)
    ensures Fits(cfg, text, ms) <==> Closed(text) || HasKey(text, "ui") || AllPlaced(cfg, text, ms)
    decreases |ms|
  {
    hide *;
    ClosedIff(text);
    if ms == [] {
      NonePlaced(cfg, text);
      NoneFits(cfg, text);
    } else {
      var m, rest := ms[0], ms[1..];
      assert ms == [m] + rest;
      GoodCons(cfg, ms);
      FitsCons(cfg, text, ms);
      FitsIff(cfg, Next(cfg, text, m), rest);
      FitsStep(cfg, text, m, rest);
    }
  }

  lemma NoneFits(cfg: Settings, text: string)
    ensures Fits(cfg, text, [])
  {
  }

  lemma LandsIs(cfg: Settings, text: string, ms: seq<Model>)
    ensures Lands(cfg, text, ms)
       <==> ms == [] || (CanStand(text, KeyFor(ms[0])) && Lands(cfg, Next(cfg, text, ms[0]), ms[1..]))
  {
    hide CanStand, Next, KeyFor;
  }

  lemma PlacedIs(cfg: Settings, text: string, ms: seq<Model>)
    ensures Placed(cfg, text, ms) <==> Strip(Hanging(text)) == "" || HasKey(text, "ui") || AllPlaced(cfg, text, ms)
  {
    hide AllPlaced, HasKey, Strip, Hanging;
  }

  lemma NonePlaced(cfg: Settings, text: string)
    ensures AllPlaced(cfg, text, [])
  {
  }

  /** One model that there is room for. */
  lemma RoomStep(cfg: Settings, text: string, m: Model, rest: seq<Model>)
    requires GoodModel(cfg, m) && Room(text, KeyFor(m))
    ensures var next := Next(cfg, text, m);
            && (Hanging(next) == "" || Hanging(next) == Hanging(text))
            && (HasKey(next, "ui") <==> HasKey(text, "ui"))
            && (HasKey(text, "ui") || Hanging(text) == ""
                || (Hanging(next) == "" || AllPlaced(cfg, next, rest) <==> AllPlaced(cfg, text, [m] + rest)))
  {
    var next := Next(cfg, text, m);
    hide *;
    RoomIs(text, KeyFor(m));
    ClosedStands(text, KeyFor(m));
    NextSettles(cfg, text, m);
    KeyIsNotUi(m);
    AlikeAt(text, next, {KeyFor(m)}, "ui");
    assert ([m] + rest)[1..] == rest && ([m] + rest)[0] == m;
    AllPlacedCons(cfg, text, [m] + rest);
    if Settled(cfg, text, m) {
      SettledNext(cfg, text, m);
      SettledHas(cfg, text, m);
    } else {
      NextHangs(cfg, text, m);
      if HasKey(text, KeyFor(m)) && !EndsIn(text, KeyFor(m)) { AllPlacedKept(cfg, text, next, m, rest); }
    }
  }

  lemma PlacedStep(cfg: Settings, text: string, m: Model, rest: seq<Model>)
    requires GoodModel(cfg, m)
    ensures var next := Next(cfg, text, m);
            (CanStand(text, KeyFor(m))
             && (Strip(Hanging(next)) == "" || HasKey(next, "ui") || AllPlaced(cfg, next, rest))
             <==> Strip(Hanging(text)) == "" || HasKey(text, "ui") || AllPlaced(cfg, text, [m] + rest))
  {
    hide *;
    StripNone();
    CanStandIs(text, KeyFor(m));
    RoomIs(text, KeyFor(m));
    if Room(text, KeyFor(m)) {
      RoomStep(cfg, text, m, rest);
    } else {
      assert ([m] + rest)[1..] == rest && ([m] + rest)[0] == m;
      AllPlacedCons(cfg, text, [m] + rest);
      NotSettled(cfg, text, m);
      AppendFindsKeyIff(cfg, text, m);
      ClosedIff(Next(cfg, text, m));
    }
  }

  lemma FitsStep(cfg: Settings, text: string, m: Model, rest: seq<Model>)
    requires GoodModel(cfg, m)
    ensures var next := Next(cfg, text, m);
            (Room(text, KeyFor(m)) && (Closed(next) || HasKey(next, "ui") || AllPlaced(cfg, next, rest))
             <==> Closed(text) || HasKey(text, "ui") || AllPlaced(cfg, text, [m] + rest))
  {
    hide *;
    ClosedIff(text);
    ClosedIff(Next(cfg, text, m));
    RoomIs(text, KeyFor(m));
    if Room(text, KeyFor(m)) {
      RoomStep(cfg, text, m, rest);
    } else {
      assert ([m] + rest)[1..] == rest && ([m] + rest)[0] == m;
      AllPlacedCons(cfg, text, [m] + rest);
    }
  }

  lemma StripNone()
    ensures Strip("") == ""
  {
  }

  lemma RoomIs(text: string, key: string)
    ensures Room(text, key) <==> Hanging(text) == "" || HasKey(text, key) || HasKey(text, "ui")
  {
    hide HasKey, Closed, Hanging;
    ClosedIff(text);
  }

  lemma CanStandIs(text: string, key: string)
    ensures CanStand(text, key) <==> Strip(Hanging(text)) == "" || HasKey(text, key) || HasKey(text, "ui")
  {
    hide HasKey, Strip, Room, Hanging;
    RoomIs(text, key);
    StripNone();
  }

  lemma SettledNext(cfg: Settings, text: string, m: Model)
    requires Settled(cfg, text, m)
    ensures Next(cfg, text, m) == text
  {
    hide Settled;
  }

  lemma KeyIsNotUi(m: Model)
    ensures KeyFor(m) != "ui"
  {
    assert KeyFor(m)[|m.id|..] == SUFFIX;
  }

  lemma AllPlacedKept(cfg: Settings, text: string, next: string, m: Model, rest: seq<Model>)
    requires AlikeBut(text, next, {KeyFor(m)}) && Settled(cfg, next, m)
    requires HasKey(text, KeyFor(m)) && !EndsIn(text, KeyFor(m)) && forall k :: EndsIn(next, k) <==> EndsIn(text, k)
    ensures AllPlaced(cfg, next, rest) <==> AllPlaced(cfg, text, rest)
  {
    SettledHas(cfg, next, m);
    hide EndsIn, Settled, HasKey, AlikeBut, KeyFor, Alike, FirstWith, Split, Strip;
    forall j | 0 <= j < |rest|
      ensures HasKey(next, KeyFor(rest[j])) <==> HasKey(text, KeyFor(rest[j]))
      ensures EndsIn(text, KeyFor(rest[j])) ==> (Settled(cfg, next, rest[j]) <==> Settled(cfg, text, rest[j]))
    {
      if KeyFor(rest[j]) != KeyFor(m) {
        AlikeAt(text, next, {KeyFor(m)}, KeyFor(rest[j]));
        SettledKept(cfg, text, next, rest[j]);
      }
    }
    forall i | 0 <= i < |rest| ensures ClosedBefore(cfg, next, rest, i) <==> ClosedBefore(cfg, text, rest, i) {
      if j :| 0 <= j < i && EndsIn(next, KeyFor(rest[j])) && !Settled(cfg, next, rest[j]) {
        assert EndsIn(text, KeyFor(rest[j])) && !Settled(cfg, text, rest[j]);
      }
      if j :| 0 <= j < i && EndsIn(text, KeyFor(rest[j])) && !Settled(cfg, text, rest[j]) {
        assert EndsIn(next, KeyFor(rest[j])) && !Settled(cfg, next, rest[j]);
      }
    }
    hide ClosedBefore;
  }

  // ---- when a repeated model mends what a lost block has spoilt ----

  /** The i-th model is the first that has no block in the text. */
  predicate FirstLost(text: string, ms: seq<Model>, i: nat) {
    i < |ms| && !HasKey(text, KeyFor(ms[i])) && forall j :: 0 <= j < i ==> HasKey(text, KeyFor(ms[j]))
  }

  /** The model comes again behind the i-th, or has a block that is not the last. */
  predicate Survives(text: string, ms: seq<Model>, i: nat, m: Model)
    requires i < |ms|
  {
    m in ms[i + 1..] || (HasKey(text, KeyFor(m)) && !StandsLast(text, KeyFor(m)))
  }

  /** Every model survives the loss of the first that has no block. */
  predicate Mended(text: string, ms: seq<Model>) {
    exists i :: 0 <= i < |ms| && FirstLost(text, ms, i) && forall m :: m in ms ==> Survives(text, ms, i, m)
  }

  predicate Agrees(ms: seq<Model>, m: Model) {
    forall m' :: m' in ms && m'.id == m.id ==> m' == m
  }

  lemma KeysOfIds(a: Model, b: Model)
    ensures KeyFor(a) == KeyFor(b) <==> a.id == b.id
  {
    assert KeyFor(a)[..|KeyFor(a)| - |SUFFIX|] == a.id && KeyFor(b)[..|KeyFor(b)| - |SUFFIX|] == b.id;
  }

  lemma AgreesCons(ms: seq<Model>, m: Model)
    requires Agrees(ms, m) && ms != []
    ensures Agrees(ms[1..], m) && (KeyFor(ms[0]) == KeyFor(m) ==> ms[0] == m)
    ensures m !in ms[1..] ==> KeyFor(m) !in Wanted(ms[1..])
    ensures m in ms <==> m == ms[0] || m in ms[1..]
  {
    assert ms == [ms[0]] + ms[1..];
    KeysOfIds(ms[0], m);
    if KeyFor(m) in Wanted(ms[1..]) {
      var m' := WantedBy(ms[1..], KeyFor(m));
      KeysOfIds(m', m);
    }
  }

  /** An update of a block that is not the last leaves every key where it was. */
  lemma KeysStay(cfg: Settings, text: string, m: Model, k: string)
    requires GoodModel(cfg, m) && HasKey(text, KeyFor(m))
    ensures HasKey(Next(cfg, text, m), k) <==> HasKey(text, k)
    ensures StandsLast(Next(cfg, text, m), k) <==> StandsLast(text, k)
  {
    hide *;
    if Settled(cfg, text, m) {
      SettledNext(cfg, text, m);
    } else {
      var b := Block(Some(KeyFor(m)), MakeConfigBlock(cfg, m));
      ConfigBlockWritable(cfg, m);
      UnsettledNext(cfg, text, m);
      RoomIs(text, KeyFor(m));
      UpsertSplits(text, KeyFor(m), b.text);
      HasKeyIs(text, KeyFor(m));
      HasKeyIs(text, k);
      HasKeyIs(Next(cfg, text, m), k);
      ReplacedKeys(Split(text), b, k);
      StandsLastMeans(text, k);
      StandsLastMeans(Next(cfg, text, m), k);
    }
  }

  lemma StandsLastMeans(text: string, k: string)
    ensures StandsLast(text, k) <==> (Split(text) != [] && Split(text)[|Split(text)| - 1].key == Some(k)
                                      && FirstWith(Front(Split(text)), k).None?)
  {
    hide Split, FirstWith, Front;
  }

  lemma ReplacedKeys(bs: seq<Block>, b: Block, k: string)
    requires b.key.Some? && FirstWith(bs, b.key.value).Some?
    ensures var r := Upserted(bs, b);
            && |r| == |bs| && (bs != [] ==> r[|r| - 1].key == bs[|bs| - 1].key)
            && (FirstWith(r, k).Some? <==> FirstWith(bs, k).Some?)
            && (FirstWith(Front(r), k).None? <==> FirstWith(Front(bs), k).None?)
  {
    hide FirstWith;
    var r := Replaced(bs, b);
    FirstReplaced(bs, b, k);
    FirstReplaced(Front(bs), b, k);
    assert Front(r) == Replaced(Front(bs), b);
  }

  /** After a run with a lost block exactly the models that survive are settled. */
  lemma {:induction false} SurvivesIff(cfg: Settings, o: Outcome, ms: seq<Model>, i: nat, m: Model)
    requires !Lands(cfg, o.text, ms) && Good(cfg, ms) && Consistent(ms) && Agrees(ms, m)
    requires FirstLost(o.text, ms, i) && (m in ms || Settled(cfg, o.text, m))
    ensures Settled(cfg, SyncModels(cfg, o, ms).text, m) <==> Survives(o.text, ms, i, m)
    decreases |ms|
  {
    hide *;
    LostCons(o.text, ms, i);
    var first, rest := ms[0], ms[1..];
    var next := SyncModel(cfg, o, first);
    assert ms == [first] + rest;
    GoodCons(cfg, ms);
    WantedCons(ms);
    AgreesCons(ms, m);
    NextIs(cfg, o, first);
    SyncModelsUnfold(cfg, o, ms);
    LandsIs(cfg, o.text, ms);
    CanStandIs(o.text, KeyFor(first));
    LandsIff(cfg, o.text, ms);
    PlacedIs(cfg, o.text, ms);
    if CanStand(o.text, KeyFor(first)) {
      NextSettles(cfg, o.text, first);
      forall k
        ensures HasKey(next.text, k) <==> HasKey(o.text, k)
        ensures StandsLast(next.text, k) <==> StandsLast(o.text, k)
      {
        KeysStay(cfg, o.text, first, k);
      }
      LostTail(o.text, next.text, ms, i);
      if KeyFor(m) != KeyFor(first) {
        AlikeAt(o.text, next.text, {KeyFor(first)}, KeyFor(m));
        SettledKept(cfg, o.text, next.text, m);
      }
      SurvivesIff(cfg, next, rest, i - 1, m);
      SurvivesTail(o.text, next.text, ms, i, m);
    } else {
      NotSettled(cfg, o.text, first);
      AppendFindsKeyIff(cfg, o.text, first);
      ClosedLands(cfg, next.text, rest);
      SyncModelsSettle(cfg, next, rest);
      if m !in rest {
        AlikeAt(next.text, SyncModels(cfg, o, ms).text, Wanted(rest), KeyFor(m));
        SettledKept(cfg, next.text, SyncModels(cfg, o, ms).text, m);
        LostModel(cfg, o.text, first, m);
      }
      SurvivesIs(o.text, ms, 0, m);
    }
  }

  /** The append that is lost: what else it spoils. */
  lemma LostModel(cfg: Settings, text: string, first: Model, m: Model)
    requires GoodModel(cfg, first) && !CanStand(text, KeyFor(first)) && (m == first || Settled(cfg, text, m))
    ensures Settled(cfg, Next(cfg, text, first), m) <==> HasKey(text, KeyFor(m)) && !StandsLast(text, KeyFor(m))
  {
    hide *;
    CanStandIs(text, KeyFor(first));
    NotSettled(cfg, text, first);
    var next := Next(cfg, text, first);
    if Settled(cfg, text, m) {
      SettledHas(cfg, text, m);
      ConfigBlockWritable(cfg, first);
      PushedAppend(text, KeyFor(first), MakeConfigBlock(cfg, first), KeyFor(m));
      SettledAlike(cfg, text, next, m);
    } else {
      AppendFindsKeyIff(cfg, text, first);
      NotSettled(cfg, next, first);
    }
  }

  lemma SettledAlike(cfg: Settings, text: string, next: string, m: Model)
    requires Settled(cfg, text, m)
    ensures Settled(cfg, next, m) <==> Alike(FirstWith(Split(next), KeyFor(m)), FirstWith(Split(text), KeyFor(m)))
  {
    hide Split, MakeConfigBlock, TrimBy, FirstWith, KeyFor;
  }

  lemma LostCons(text: string, ms: seq<Model>, i: nat)
    requires FirstLost(text, ms, i)
    ensures ms != [] && i < |ms| && (i == 0 <==> !HasKey(text, KeyFor(ms[0])))
  {
    hide HasKey, KeyFor;
  }

  lemma LostTail(text: string, next: string, ms: seq<Model>, i: nat)
    requires FirstLost(text, ms, i) && i > 0 && forall k :: HasKey(next, k) <==> HasKey(text, k)
    ensures FirstLost(next, ms[1..], i - 1)
  {
    hide HasKey, KeyFor;
    var rest := ms[1..];
    assert forall j :: 0 <= j < |rest| ==> rest[j] == ms[j + 1];
  }

  lemma SurvivesIs(text: string, ms: seq<Model>, i: nat, m: Model)
    requires i < |ms|
    ensures Survives(text, ms, i, m) <==> m in ms[i + 1..] || (HasKey(text, KeyFor(m)) && !StandsLast(text, KeyFor(m)))
  {
    hide HasKey, StandsLast, KeyFor;
  }

  lemma SurvivesTail(text: string, next: string, ms: seq<Model>, i: nat, m: Model)
    requires 0 < i < |ms|
    requires forall k :: (HasKey(next, k) <==> HasKey(text, k)) && (StandsLast(next, k) <==> StandsLast(text, k))
    ensures Survives(next, ms[1..], i - 1, m) <==> Survives(text, ms, i, m)
  {
    hide HasKey, StandsLast, KeyFor;
    assert ms[1..][i..] == ms[i + 1..];
  }

  lemma SomeIsLost(cfg: Settings, text: string, ms: seq<Model>) returns (i: nat)
    requires !AllPlaced(cfg, text, ms)
    ensures i < |ms| && FirstLost(text, ms, i)
  {
    hide HasKey, KeyFor, ClosedBefore;
    i := 0;
    while i < |ms| && HasKey(text, KeyFor(ms[i]))
      invariant i <= |ms| && forall j :: 0 <= j < i ==> HasKey(text, KeyFor(ms[j]))
    {
      i := i + 1;
    }
  }

  lemma ConsistentAgrees(ms: seq<Model>, m: Model)
    requires Consistent(ms) && m in ms
    ensures Agrees(ms, m)
  {
  }

  /** A second run is quiet exactly when the models of one id agree and the text places every
      block, or every model survives the first lost one. */
  lemma QuietIff(cfg: Settings, text: string, ms: seq<Model>, removeMissing: bool)
    requires Good(cfg, ms)
    ensures Quiet(cfg, text, ms, removeMissing) <==> Consistent(ms) && (Placed(cfg, text, ms) || Mended(text, ms))
  {
    hide *;
    LandsIff(cfg, text, ms);
    if Quiet(cfg, text, ms, removeMissing) { QuietAgrees(cfg, text, ms, removeMissing); }
    if Consistent(ms) {
      if Lands(cfg, text, ms) {
        SyncTwice(cfg, text, ms, removeMissing);
      } else {
        PlacedIs(cfg, text, ms);
        var i := SomeIsLost(cfg, text, ms);
        QuietIffSettled(cfg, text, ms, removeMissing);
        forall m | m in ms
          ensures Settled(cfg, SyncModels(cfg, Outcome(text, []), ms).text, m) <==> Survives(text, ms, i, m)
        {
          ConsistentAgrees(ms, m);
          SurvivesIff(cfg, Outcome(text, []), ms, i, m);
        }
        MendedIs(text, ms, i);
      }
    }
  }

  lemma MendedIs(text: string, ms: seq<Model>, i: nat)
    requires FirstLost(text, ms, i)
    ensures Mended(text, ms) <==> forall m :: m in ms ==> Survives(text, ms, i, m)
  {
    hide HasKey, KeyFor, Survives;
    if i' :| 0 <= i' < |ms| && FirstLost(text, ms, i') && forall m :: m in ms ==> Survives(text, ms, i', m) {
      assert i' == i;
    }
  }

  // ---- a text of one unended line ----

  const UNENDED := "a = 1"

  lemma UnendedHolds(key: string)
    ensures Hanging(UNENDED) == UNENDED == Strip(UNENDED) != "" && !HasKey(UNENDED, key)
  {
    hide TrimBy, Lines, HasHeader, HasKey;
    WholeLine(UNENDED);
    TrimIs("", UNENDED, "", IsSpace);
    assert "" + UNENDED + "" == UNENDED;
    KeyIsHeaded(UNENDED, key);
    OneHead(UNENDED, key);
    HangingWhole(UNENDED);
  }

  lemma {:induction false} HangingWhole(s: string)
    requires NoNewline(s)
    ensures Hanging(s) == s
  {
    if s != "" { HangingWhole(s[..|s| - 1]); }
  }

  /** On a text of one unended line a run on one model is never quiet the second time; a run
      that is given the model twice is. */
  lemma UnendedIsNotQuiet(cfg: Settings, m: Model, removeMissing: bool)
    requires GoodModel(cfg, m)
    ensures !Quiet(cfg, UNENDED, [m], removeMissing) && Quiet(cfg, UNENDED, [m, m], removeMissing)
  {
    var once, twice := [m], [m, m];
    SameModels(cfg, m);
    UnendedLoses(once, m);
    UnendedLoses(twice, m);
    hide *;
    QuietIff(cfg, UNENDED, once, removeMissing);
    QuietIff(cfg, UNENDED, twice, removeMissing);
    UnendedHolds("ui");
    PlacedIs(cfg, UNENDED, once);
    AllPlacedCons(cfg, UNENDED, once);
    MendedIs(UNENDED, once, 0);
    MendedIs(UNENDED, twice, 0);
    SurvivesIs(UNENDED, once, 0, m);
    SurvivesIs(UNENDED, twice, 0, m);
    assert once[1..] == [] && twice[1..] == [m];
  }

  lemma SameModels(cfg: Settings, m: Model)
    requires GoodModel(cfg, m)
    ensures Good(cfg, [m]) && Good(cfg, [m, m]) && Consistent([m]) && Consistent([m, m])
  {
    hide GoodModel;
  }

  lemma UnendedLoses(ms: seq<Model>, m: Model)
    requires ms != [] && ms[0] == m
    ensures FirstLost(UNENDED, ms, 0) && !HasKey(UNENDED, KeyFor(m))
  {
    UnendedHolds(KeyFor(m));
    hide HasKey, KeyFor;
  }
}
