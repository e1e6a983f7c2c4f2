/** `sync_config`: insert or update one block per upstream model, optionally drop the
    stale ones; a second run changes nothing. */
module TomlSync {
  import opened Options
  import opened Text
  import opened TomlBlocks
  import Utf8

  const SUFFIX := "-222"

  datatype Model = Model(id: string, ctx: nat)

  /** What a run takes from its environment: the endpoint, and the display titles. */
  datatype Settings = Settings(endpoint: string, titleOf: string -> string)

  function KeyFor(m: Model): string {
    m.id + SUFFIX
  }

  const HEADER_LEAD := "[model.\""
  const HEADER_TAIL := "\"]"
  const ID_LEAD := "model = \""
  const URL_LEAD := "base_url = \""
  const URL_TAIL := "/v1\""
  const NAME_LEAD := "name = \"CodeLy "
  const NAME_TAIL := " (LAN 222)\""
  const QUOTE := "\""
  const API_LINE := "api_backend = \"chat_completions\""
  const AUTH_LINE := "auth_scheme = \"bearer\""
  const CONTEXT_LEAD := "context_window = "

  /** What the block says besides the context window. */
  function IdLines(cfg: Settings, id: string): seq<string> {
    [ HEADER_LEAD + (id + SUFFIX) + HEADER_TAIL + "\n",
      ID_LEAD + id + QUOTE + "\n",
      URL_LEAD + TrimEndBy(cfg.endpoint, IsSlash) + URL_TAIL + "\n",
      NAME_LEAD + cfg.titleOf(id) + NAME_TAIL + "\n",
      API_LINE + "\n",
      AUTH_LINE + "\n" ]
  }

  function ConfigLines(cfg: Settings, m: Model): seq<string> {
    IdLines(cfg, m.id) + [CONTEXT_LEAD + Utf8.Decimal(m.ctx) + "\n"]
  }

  function MakeConfigBlock(cfg: Settings, m: Model): string {
    Concat(ConfigLines(cfg, m))
  }

  // ---- single edits ----

  /** The first block of a key. */
  function FirstWith(bs: seq<Block>, key: string): (r: Option<Block>)
    ensures r.Some? ==> r.value in bs && r.value.key == Some(key)
    ensures r.None? ==> forall b :: b in bs ==> b.key != Some(key)
  {
    if bs == [] then None
    else if bs[0].key == Some(key) then Some(bs[0])
    else FirstWith(bs[1..], key)
  }

  predicate HasKey(text: string, key: string) {
    FirstWith(Split(text), key).Some?
  }

  predicate BlockEqual(text: string, key: string, block: string) {
    var b := FirstWith(Split(text), key);
    b.Some? && Strip(b.value.text) == Strip(block)
  }

  function WithNewline(block: string): string {
    if EndsLine(block) then block else block + "\n"
  }

  function Replaced(bs: seq<Block>, b: Block): (r: seq<Block>)
    ensures |r| == |bs| && forall k :: 0 <= k < |bs| ==> r[k] == if bs[k].key == b.key then b else bs[k]
  {
    seq(|bs|, k requires 0 <= k < |bs| => if bs[k].key == b.key then b else bs[k])
  }

  /** The last `[model.ui]` block. */
  function UiIndex(bs: seq<Block>): (r: Option<nat>)
    ensures r.Some? ==> r.value < |bs| && bs[r.value].key == Some("ui")
                        && forall k :: r.value < k < |bs| ==> bs[k].key != Some("ui")
    ensures r.None? ==> forall k :: 0 <= k < |bs| ==> bs[k].key != Some("ui")
  {
    if bs == [] then None
    else if bs[|bs| - 1].key == Some("ui") then Some(|bs| - 1)
    else
      assert forall k :: 0 <= k < |bs| - 1 ==> bs[..|bs| - 1][k] == bs[k];
      UiIndex(bs[..|bs| - 1])
  }

  /** `b` in the place of every block of its key; else before the UI block; else at the end. */
  function Upserted(bs: seq<Block>, b: Block): seq<Block>
    requires b.key.Some?
  {
    if FirstWith(bs, b.key.value).Some? then Replaced(bs, b)
    else
      var ui := UiIndex(bs);
      if ui.Some? then bs[..ui.value] + [b] + bs[ui.value..] else bs + [b]
  }

  function Upsert(text: string, key: string, block: string): string {
    Join(Upserted(Split(text), Block(Some(key), WithNewline(block))))
  }

  function Without(bs: seq<Block>, key: string): seq<Block> {
    if bs == [] then []
    else (if bs[0].key == Some(key) then [] else [bs[0]]) + Without(bs[1..], key)
  }

  function RemoveConfigBlock(text: string, key: string): string {
    Join(Without(Split(text), key))
  }

  ghost predicate TextsOf(out: seq<string>, bs: seq<Block>) {
    |out| == |bs| && forall k :: 0 <= k < |out| ==> out[k] == bs[k].text
  }

  lemma {:induction false} JoinTexts(out: seq<string>, bs: seq<Block>)
    requires TextsOf(out, bs)
    ensures Concat(out) == Join(bs)
  {
    if out != [] {
      JoinTexts(out[1..], bs[1..]);
    }
  }

  method UpsertConfig(text: string, key: string, block: string) returns (r: string)
    ensures r == Upsert(text, key, block)
  {
    var blocks := SplitBlocks(text);
    var line := if EndsLine(block) then block else block + "\n";
    ghost var b := Block(Some(key), line);
    ghost var replacement := Replaced(blocks, b);
    hide EndsLine, Split, Join, Concat, FirstWith, UiIndex, Replaced;
    var out: seq<string> := [];
    var replaced := false;
    var uiIdx: Option<nat> := None;
    for i := 0 to |blocks|
      invariant |out| == i && forall k :: 0 <= k < i ==> out[k] == replacement[k].text
      invariant replaced <==> exists k :: 0 <= k < i && blocks[k].key == Some(key)
      invariant uiIdx.Some? ==> uiIdx.value < i && blocks[uiIdx.value].key == Some("ui")
                                && forall k :: uiIdx.value < k < i ==> blocks[k].key != Some("ui")
      invariant uiIdx.None? ==> forall k :: 0 <= k < i ==> blocks[k].key != Some("ui")
    {
      if blocks[i].key == Some(key) {
        out := out + [line];
        replaced := true;
      } else {
        out := out + [blocks[i].text];
      }
      if blocks[i].key == Some("ui") {
        uiIdx := Some(i);
      }
    }
    ghost var result := Upserted(blocks, b);
    assert replaced <==> FirstWith(blocks, key).Some?;
    assert !replaced ==> forall k :: 0 <= k < |out| ==> out[k] == blocks[k].text;
    assert uiIdx == UiIndex(blocks);
    if !replaced {
      if uiIdx.Some? {
        out := out[..uiIdx.value] + [line] + out[uiIdx.value..];
      } else {
        out := out + [line];
      }
    }
    assert TextsOf(out, result);
    JoinTexts(out, result);
    r := Concat(out);
  }

  // ---- the whole run ----

  datatype Change = Updated(key: string) | Added(key: string) | Removed(key: string)

  datatype Outcome = Outcome(text: string, changes: seq<Change>)

  function SyncModel(cfg: Settings, o: Outcome, m: Model): Outcome {
    var key, block := KeyFor(m), MakeConfigBlock(cfg, m);
    if HasKey(o.text, key) then
      if BlockEqual(o.text, key, block) then o
      else Outcome(Upsert(o.text, key, block), o.changes + [Updated(key)])
    else Outcome(Upsert(o.text, key, block), o.changes + [Added(key)])
  }

  function SyncModels(cfg: Settings, o: Outcome, ms: seq<Model>): Outcome
    decreases |ms|
  {
    if ms == [] then o else SyncModels(cfg, SyncModel(cfg, o, ms[0]), ms[1..])
  }

  function Wanted(ms: seq<Model>): set<string> {
    set m | m in ms :: KeyFor(m)
  }

  predicate Is222(key: string) {
    At(key, |key| - |SUFFIX|, SUFFIX)
  }

  function Existing222Keys(bs: seq<Block>): seq<string> {
    if bs == [] then []
    else (if bs[0].key.Some? && bs[0].key.value != "" && Is222(bs[0].key.value) then [bs[0].key.value] else [])
         + Existing222Keys(bs[1..])
  }

  function RemoveStale(o: Outcome, keys: seq<string>, wanted: set<string>): Outcome
    decreases |keys|
  {
    if keys == [] then o
    else
      RemoveStale(if keys[0] in wanted then o
                  else Outcome(RemoveConfigBlock(o.text, keys[0]), o.changes + [Removed(keys[0])]),
                  keys[1..], wanted)
  }

  function Synced(cfg: Settings, text: string, ms: seq<Model>, removeMissing: bool): Outcome {
    var o := SyncModels(cfg, Outcome(text, []), ms);
    if removeMissing then RemoveStale(o, Existing222Keys(Split(o.text)), Wanted(ms)) else o
  }

  method SyncConfig(cfg: Settings, text: string, models: seq<Model>, removeMissing: bool) returns (o: Outcome)
    ensures o == Synced(cfg, text, models, removeMissing)
  {
    hide *;
    o := Outcome(text, []);
    SyncStart(cfg, o, models);
    for i := 0 to |models|
      invariant SyncModels(cfg, o, models[i..]) == SyncModels(cfg, Outcome(text, []), models)
    {
      SyncNext(cfg, o, models, i);
      var key, block := KeyFor(models[i]), MakeConfigBlock(cfg, models[i]);
      if HasKey(o.text, key) {
        if !BlockEqual(o.text, key, block) {
          var next := UpsertConfig(o.text, key, block);
          o := Outcome(next, o.changes + [Updated(key)]);
        }
      } else {
        var next := UpsertConfig(o.text, key, block);
        o := Outcome(next, o.changes + [Added(key)]);
      }
    }
    SyncedIs(cfg, text, models, o, removeMissing);
    if removeMissing {
      var blocks := SplitBlocks(o.text);
      var keys, wanted := Existing222Keys(blocks), Wanted(models);
      ghost var target := RemoveStale(o, keys, wanted);
      assert keys[0..] == keys;
      for i := 0 to |keys|
        invariant RemoveStale(o, keys[i..], wanted) == target
      {
        RemoveNext(o, keys, i, wanted);
        if keys[i] !in wanted {
          o := Outcome(RemoveConfigBlock(o.text, keys[i]), o.changes + [Removed(keys[i])]);
        }
      }
      RemoveNone(o, keys[|keys|..], wanted);
    }
  }

  lemma SyncStart(cfg: Settings, o: Outcome, models: seq<Model>)
    ensures SyncModels(cfg, o, models[0..]) == SyncModels(cfg, o, models)
  {
    hide SyncModels;
    assert models[0..] == models;
  }

  lemma SyncNext(cfg: Settings, o: Outcome, models: seq<Model>, i: nat)
    requires i < |models|
    ensures var key, block := KeyFor(models[i]), MakeConfigBlock(cfg, models[i]);
            SyncModels(cfg, o, models[i..])
            == SyncModels(cfg,
                 if HasKey(o.text, key) then
                   if BlockEqual(o.text, key, block) then o
                   else Outcome(Upsert(o.text, key, block), o.changes + [Updated(key)])
                 else Outcome(Upsert(o.text, key, block), o.changes + [Added(key)]),
                 models[i + 1..])
  {
    hide HasKey, BlockEqual, Upsert, MakeConfigBlock, KeyFor;
    assert models[i..][1..] == models[i + 1..];
  }

  lemma SyncedIs(cfg: Settings, text: string, models: seq<Model>, o: Outcome, removeMissing: bool)
    requires SyncModels(cfg, o, models[|models|..]) == SyncModels(cfg, Outcome(text, []), models)
    ensures Synced(cfg, text, models, removeMissing)
         == if removeMissing then RemoveStale(o, Existing222Keys(Split(o.text)), Wanted(models)) else o
  {
    hide SyncModel, RemoveStale, Split;
  }

  lemma RemoveNext(o: Outcome, keys: seq<string>, i: nat, wanted: set<string>)
    requires i < |keys|
    ensures RemoveStale(o, keys[i..], wanted)
         == RemoveStale(if keys[i] in wanted then o
                        else Outcome(RemoveConfigBlock(o.text, keys[i]), o.changes + [Removed(keys[i])]),
                        keys[i + 1..], wanted)
  {
    hide RemoveConfigBlock;
    assert keys[i..][1..] == keys[i + 1..];
  }

  lemma RemoveNone(o: Outcome, keys: seq<string>, wanted: set<string>)
    requires keys == []
    ensures RemoveStale(o, keys, wanted) == o
  {
  }
}
