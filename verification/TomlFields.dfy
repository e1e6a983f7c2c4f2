/** What the block of a model says, read back field by field. */
module TomlFields {
  import opened Options
  import opened Text
  import opened TomlBlocks
  import opened TomlSync
  import opened TomlEdits
  import Utf8

  /** What stands behind `key = ` on the first line that starts so. */
  function FieldIn(ls: seq<string>, key: string): Option<string> {
    if ls == [] then None
    else if At(ls[0], 0, key + " = ") && |ls[0]| > |key| + 3 then Some(ls[0][|key| + 3..|ls[0]| - 1])
    else FieldIn(ls[1..], key)
  }

  function Field(text: string, key: string): Option<string> {
    FieldIn(Lines(text), key)
  }

  lemma FieldHere(ls: seq<string>, key: string, value: string)
    requires ls != [] && ls[0] == key + " = " + value + "\n"
    ensures FieldIn(ls, key) == Some(value)
  {
    var l := ls[0];
    Pieces("", key + " = ", value + "\n");
    assert "" + (key + " = ") + (value + "\n") == l;
    assert l[|key| + 3..] == value + "\n";
  }

  lemma FieldBehind(ls: seq<string>, key: string)
    requires ls != [] && key != "" && ls[0] != ""
    requires ls[0][0] != key[0] || (|key| > 1 && |ls[0]| > 1 && ls[0][1] != key[1])
    ensures FieldIn(ls, key) == FieldIn(ls[1..], key)
  {
  }

  /** A value in quotes. */
  function Quoted(s: string): string {
    "\"" + s + "\""
  }

  /** The lines of a block, each a key and its value. */
  lemma FieldLines(cfg: Settings, m: Model)
    ensures ConfigLines(cfg, m)
         == [ "[model.\"" + KeyFor(m) + "\"]\n",
              "model" + " = " + Quoted(m.id) + "\n",
              "base_url" + " = " + Quoted(TrimEndBy(cfg.endpoint, IsSlash) + "/v1") + "\n",
              "name" + " = " + Quoted("CodeLy " + cfg.titleOf(m.id) + " (LAN 222)") + "\n",
              "api_backend" + " = " + Quoted("chat_completions") + "\n",
              "auth_scheme" + " = " + Quoted("bearer") + "\n",
              "context_window" + " = " + Utf8.Decimal(m.ctx) + "\n" ]
  {
    var root, title, number := TrimEndBy(cfg.endpoint, IsSlash), cfg.titleOf(m.id), Utf8.Decimal(m.ctx);
    IdLine(m.id);
    UrlLine(root);
    NameLine(title);
    PlainLines(number);
    HeaderText(KeyFor(m));
    hide TrimEndBy, Utf8.Decimal, HEADER_LEAD, HEADER_TAIL, ID_LEAD, URL_LEAD, URL_TAIL, NAME_LEAD, NAME_TAIL, QUOTE;
    hide API_LINE, AUTH_LINE, CONTEXT_LEAD, Quoted;
  }

  lemma HeaderText(key: string)
    ensures HEADER_LEAD + key + HEADER_TAIL + "\n" == "[model.\"" + key + "\"]\n"
  {
    assert HEADER_LEAD + key + HEADER_TAIL + "\n" == "[model.\"" + key + ("\"]" + "\n");
    assert "\"]" + "\n" == "\"]\n";
  }

  lemma IdLine(id: string)
    ensures ID_LEAD + id + QUOTE + "\n" == "model" + " = " + Quoted(id) + "\n"
  {
    assert "model" + " = " + "\"" == ID_LEAD;
    assert "model" + " = " + Quoted(id) == "model" + " = " + "\"" + id + "\"";
  }

  lemma UrlLine(root: string)
    ensures URL_LEAD + root + URL_TAIL + "\n" == "base_url" + " = " + Quoted(root + "/v1") + "\n"
  {
    assert "base_url" + " = " + "\"" == URL_LEAD && "/v1" + "\"" == URL_TAIL;
    assert "base_url" + " = " + Quoted(root + "/v1") == "base_url" + " = " + "\"" + root + ("/v1" + "\"");
  }

  lemma NameLine(title: string)
    ensures NAME_LEAD + title + NAME_TAIL + "\n" == "name" + " = " + Quoted("CodeLy " + title + " (LAN 222)") + "\n"
  {
    assert "name" + " = " + "\"" + "CodeLy " == NAME_LEAD && " (LAN 222)" + "\"" == NAME_TAIL;
    assert "name" + " = " + Quoted("CodeLy " + title + " (LAN 222)")
        == "name" + " = " + "\"" + "CodeLy " + title + (" (LAN 222)" + "\"");
  }

  lemma PlainLines(number: string)
    ensures API_LINE + "\n" == "api_backend" + " = " + Quoted("chat_completions") + "\n"
    ensures AUTH_LINE + "\n" == "auth_scheme" + " = " + Quoted("bearer") + "\n"
    ensures CONTEXT_LEAD + number + "\n" == "context_window" + " = " + number + "\n"
  {
    ApiLine();
    AuthLine();
    assert "context_window" + " = " == CONTEXT_LEAD;
    hide API_LINE, AUTH_LINE, Quoted;
  }

  lemma ApiLine()
    ensures "api_backend" + " = " + Quoted("chat_completions") == API_LINE
  {
  }

  lemma AuthLine()
    ensures "auth_scheme" + " = " + Quoted("bearer") == AUTH_LINE
  {
  }

  /** The six fields of the block of a well-formed model, and the endpoint without its slashes. */
  lemma BlockSays(cfg: Settings, m: Model)
    requires GoodModel(cfg, m)
    ensures var b, root := MakeConfigBlock(cfg, m), TrimEndBy(cfg.endpoint, IsSlash);
            && Field(b, "model") == Some(Quoted(m.id))
            && Field(b, "base_url") == Some(Quoted(root + "/v1"))
            && Field(b, "name") == Some(Quoted("CodeLy " + cfg.titleOf(m.id) + " (LAN 222)"))
            && Field(b, "api_backend") == Some(Quoted("chat_completions"))
            && Field(b, "auth_scheme") == Some(Quoted("bearer"))
            && Field(b, "context_window") == Some(Utf8.Decimal(m.ctx))
            && (root == "" || root[|root| - 1] != '/') && root <= cfg.endpoint
            && forall k :: |root| <= k < |cfg.endpoint| ==> cfg.endpoint[k] == '/'
  {
    hide *;
    LinesOfBlock(cfg, m);
    FieldLines(cfg, m);
    var id, url := Quoted(m.id), Quoted(TrimEndBy(cfg.endpoint, IsSlash) + "/v1");
    var title, number := Quoted("CodeLy " + cfg.titleOf(m.id) + " (LAN 222)"), Utf8.Decimal(m.ctx);
    FieldsIn(ConfigLines(cfg, m), id, url, title, number);
    FieldIs(MakeConfigBlock(cfg, m), "model");
    FieldIs(MakeConfigBlock(cfg, m), "base_url");
    FieldIs(MakeConfigBlock(cfg, m), "name");
    FieldIs(MakeConfigBlock(cfg, m), "api_backend");
    FieldIs(MakeConfigBlock(cfg, m), "auth_scheme");
    FieldIs(MakeConfigBlock(cfg, m), "context_window");
    RootIs(cfg.endpoint);
  }

  lemma RootIs(endpoint: string)
    ensures var root := TrimEndBy(endpoint, IsSlash);
            && (root == "" || root[|root| - 1] != '/') && root <= endpoint
            && forall k :: |root| <= k < |endpoint| ==> endpoint[k] == '/'
  {
    hide TrimEndBy;
  }

  lemma FieldIs(text: string, key: string)
    ensures Field(text, key) == FieldIn(Lines(text), key)
  {
    hide Lines, FieldIn;
  }

  lemma LinesOfBlock(cfg: Settings, m: Model)
    requires GoodModel(cfg, m)
    ensures Lines(MakeConfigBlock(cfg, m)) == ConfigLines(cfg, m)
  {
    hide Lines, ConfigLines, GoodModel;
    ConfigLinesGood(cfg, m);
    LinesOfConcat(ConfigLines(cfg, m));
  }

  lemma FieldsIn(ls: seq<string>, id: string, url: string, title: string, number: string)
    requires |ls| == 7 && ls[0] != "" && ls[0][0] == '['
    requires ls[1] == "model" + " = " + id + "\n" && ls[2] == "base_url" + " = " + url + "\n"
    requires ls[3] == "name" + " = " + title + "\n"
    requires ls[4] == "api_backend" + " = " + Quoted("chat_completions") + "\n"
    requires ls[5] == "auth_scheme" + " = " + Quoted("bearer") + "\n"
    requires ls[6] == "context_window" + " = " + number + "\n"
    ensures FieldIn(ls, "model") == Some(id) && FieldIn(ls, "base_url") == Some(url)
    ensures FieldIn(ls, "name") == Some(title)
    ensures FieldIn(ls, "api_backend") == Some(Quoted("chat_completions"))
    ensures FieldIn(ls, "auth_scheme") == Some(Quoted("bearer")) && FieldIn(ls, "context_window") == Some(number)
  {
    hide Quoted, FieldIn, StartsElse;
    HeaderStart(ls[0]);
    LineStart(ls[1], "model", id, 'm', 'o');
    LineStart(ls[2], "base_url", url, 'b', 'a');
    LineStart(ls[3], "name", title, 'n', 'a');
    LineStart(ls[4], "api_backend", Quoted("chat_completions"), 'a', 'p');
    LineStart(ls[5], "auth_scheme", Quoted("bearer"), 'a', 'u');
    FieldAt(ls, 1, "model", id, 'm', 'o');
    FieldAt(ls, 2, "base_url", url, 'b', 'a');
    FieldAt(ls, 3, "name", title, 'n', 'a');
    FieldAt(ls, 4, "api_backend", Quoted("chat_completions"), 'a', 'p');
    FieldAt(ls, 5, "auth_scheme", Quoted("bearer"), 'a', 'u');
    FieldAt(ls, 6, "context_window", number, 'c', 'o');
  }

  predicate StartsWith(line: string, a: char, b: char) {
    |line| > 1 && line[0] == a && line[1] == b
  }

  predicate StartsElse(line: string, a: char, b: char) {
    line != "" && (line[0] != a || (|line| > 1 && line[1] != b))
  }

  lemma LineStart(line: string, key: string, value: string, a: char, b: char)
    requires line == key + " = " + value + "\n" && StartsWith(key, a, b)
    ensures forall c, d :: (c, d) != (a, b) ==> StartsElse(line, c, d)
  {
  }

  lemma HeaderStart(line: string)
    requires line != "" && line[0] == '['
    ensures forall c, d :: c != '[' ==> StartsElse(line, c, d)
  {
  }

  /** The line at `n` has the key, and no line before it starts like it. */
  lemma {:induction false} FieldAt(ls: seq<string>, n: nat, key: string, value: string, a: char, b: char)
    requires n < |ls| && ls[n] == key + " = " + value + "\n" && StartsWith(key, a, b)
    requires forall k :: 0 <= k < n ==> StartsElse(ls[k], a, b)
    ensures FieldIn(ls, key) == Some(value)
  {
    hide FieldIn;
    if n == 0 {
      FieldHere(ls, key, value);
    } else {
      FieldBehind(ls, key);
      assert forall k :: 0 <= k < n - 1 ==> ls[1..][k] == ls[k + 1];
      FieldAt(ls[1..], n - 1, key, value, a, b);
    }
  }
}
