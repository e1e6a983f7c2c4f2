/** A conversation seen as turns: each item that is not a tool result leads a
    turn, and the results that follow it contiguously are the turn's run.  The
    first turn has no leader; its run holds the results nobody precedes. */
module Turns {
  import opened Options
  import opened Conversation

  datatype Turn = Turn(leader: Option<Item>, run: seq<Item>)

  /** Length of the run of tool results that `s` starts with. */
  function RunLength(s: seq<Item>): (n: nat)
    ensures n <= |s| && AllResults(s[..n])
    ensures n < |s| ==> !s[n].ToolResult?
  {
    if s == [] || !s[0].ToolResult? then 0
    else
      var m := RunLength(s[1..]);
      assert s[..m + 1] == [s[0]] + s[1..][..m];
      1 + m
  }

  lemma {:induction false} RunLengthExact(run: seq<Item>, rest: seq<Item>)
    requires AllResults(run) && (rest == [] || !rest[0].ToolResult?)
    ensures RunLength(run + rest) == |run|
  {
    if run == [] {
      assert run + rest == rest;
    } else {
      assert (run + rest)[1..] == run[1..] + rest;
      RunLengthExact(run[1..], rest);
    }
  }

  /** The turns of `s` when its first results follow `lead`. */
  function Split(lead: Option<Item>, s: seq<Item>): seq<Turn>
    decreases |s|
  {
    var n := RunLength(s);
    [Turn(lead, s[..n])] + (if n == |s| then [] else Split(Some(s[n]), s[n + 1..]))
  }

  function TurnsOf(s: seq<Item>): seq<Turn> {
    Split(None, s)
  }

  function Lead(t: Turn): seq<Item> {
    if t.leader.Some? then [t.leader.value] else []
  }

  /** The items of the turns `ts`, without the leader of the first. */
  function Join(ts: seq<Turn>): seq<Item> {
    if ts == [] then []
    else ts[0].run + (if |ts| == 1 then [] else Lead(ts[1]) + Join(ts[1..]))
  }

  ghost predicate Canonical(ts: seq<Turn>) {
    && ts != []
    && (forall k :: 0 <= k < |ts| ==> AllResults(ts[k].run))
    && (forall k :: 1 <= k < |ts| ==> ts[k].leader.Some? && !ts[k].leader.value.ToolResult?)
  }

  lemma SplitUnfold(lead: Option<Item>, s: seq<Item>)
    ensures var n := RunLength(s);
            Split(lead, s) == [Turn(lead, s[..n])] + (if n == |s| then [] else Split(Some(s[n]), s[n + 1..]))
  {
    hide RunLength;
  }

  lemma JoinCons(t: Turn, ts: seq<Turn>)
    ensures Join([t] + ts) == t.run + (if ts == [] then [] else Lead(ts[0]) + Join(ts))
  {
    assert ([t] + ts)[1..] == ts;
  }

  lemma CanonicalCons(t: Turn, ts: seq<Turn>)
    requires AllResults(t.run)
    requires ts == [] || (Canonical(ts) && ts[0].leader.Some? && !ts[0].leader.value.ToolResult?)
    ensures Canonical([t] + ts)
  {
    var all := [t] + ts;
    assert all[0] == t;
    assert forall k :: 1 <= k < |all| ==> all[k] == ts[k - 1];
  }

  lemma {:induction false} SplitCanonical(lead: Option<Item>, s: seq<Item>)
    ensures Canonical(Split(lead, s)) && Split(lead, s)[0].leader == lead
    ensures Join(Split(lead, s)) == s
    decreases |s|
  {
    hide *;
    var n := RunLength(s);
    SplitUnfold(lead, s);
    if n < |s| {
      var rest := Split(Some(s[n]), s[n + 1..]);
      SplitCanonical(Some(s[n]), s[n + 1..]);
      CanonicalIsNonempty(rest);
      CanonicalCons(Turn(lead, s[..n]), rest);
      JoinCons(Turn(lead, s[..n]), rest);
      LeadOf(rest[0], s[n]);
      assert s == s[..n] + ([s[n]] + s[n + 1..]);
    } else {
      CanonicalCons(Turn(lead, s[..n]), []);
      JoinCons(Turn(lead, s[..n]), []);
      assert Split(lead, s) == [Turn(lead, s[..n])] + [];
    }
  }

  lemma CanonicalIsNonempty(ts: seq<Turn>)
    requires Canonical(ts)
    ensures ts != []
  {
  }

  lemma LeadOf(t: Turn, x: Item)
    requires t.leader == Some(x)
    ensures Lead(t) == [x]
  {
  }

  lemma {:induction false} SplitJoin(ts: seq<Turn>)
    requires Canonical(ts)
    ensures Split(ts[0].leader, Join(ts)) == ts
  {
    hide Split, Join, RunLength;
    var t, run, rest := ts[0], ts[0].run, ts[1..];
    assert ts == [t] + rest;
    JoinCons(t, rest);
    SplitUnfold(t.leader, Join(ts));
    if |ts| == 1 {
      assert Join(ts) == run + [];
      RunLengthExact(run, []);
      assert Join(ts)[..|run|] == run;
    } else {
      SplitJoin(rest);
      var tail := Lead(ts[1]) + Join(rest);
      RunLengthExact(run, tail);
      assert (run + tail)[|run| + 1..] == Join(rest) && (run + tail)[..|run|] == run;
    }
  }

  /** The turns `ts` with every run rewritten by `f`. */
  function Rerun(ts: seq<Turn>, f: Turn -> seq<Item>): (r: seq<Turn>)
    ensures |r| == |ts|
    ensures forall k :: 0 <= k < |ts| ==> r[k] == Turn(ts[k].leader, f(ts[k]))
  {
    seq(|ts|, i requires 0 <= i < |ts| => Turn(ts[i].leader, f(ts[i])))
  }

  /** `s`, whose first results follow `lead`, with every run rewritten by `f`. */
  function RewriteFrom(lead: Option<Item>, s: seq<Item>, f: Turn -> seq<Item>): seq<Item>
    decreases |s|
  {
    var n := RunLength(s);
    f(Turn(lead, s[..n])) + (if n == |s| then [] else [s[n]] + RewriteFrom(Some(s[n]), s[n + 1..], f))
  }

  /** The conversation `s` with every run rewritten by `f`. */
  function Rewrite(s: seq<Item>, f: Turn -> seq<Item>): seq<Item> {
    RewriteFrom(None, s, f)
  }

  lemma RewriteUnfold(lead: Option<Item>, s: seq<Item>, f: Turn -> seq<Item>)
    ensures var n := RunLength(s);
            RewriteFrom(lead, s, f) == f(Turn(lead, s[..n]))
              + (if n == |s| then [] else [s[n]] + RewriteFrom(Some(s[n]), s[n + 1..], f))
  {
  }

  lemma {:induction false} RewriteFromJoin(lead: Option<Item>, s: seq<Item>, f: Turn -> seq<Item>)
    ensures RewriteFrom(lead, s, f) == Join(Rerun(Split(lead, s), f))
    decreases |s|
  {
    hide RewriteFrom, Split, Join, RunLength, Rerun, Canonical;
    var n := RunLength(s);
    var first := Turn(lead, s[..n]);
    RewriteUnfold(lead, s, f);
    SplitUnfold(lead, s);
    if n < |s| {
      var rest := Split(Some(s[n]), s[n + 1..]);
      RewriteFromJoin(Some(s[n]), s[n + 1..], f);
      SplitCanonical(Some(s[n]), s[n + 1..]);
      CanonicalIsNonempty(rest);
      assert Rerun([first] + rest, f) == [Turn(lead, f(first))] + Rerun(rest, f);
      JoinCons(Turn(lead, f(first)), Rerun(rest, f));
    } else {
      assert Rerun([first] + [], f) == [Turn(lead, f(first))] + [];
      JoinCons(Turn(lead, f(first)), []);
    }
  }

  ghost predicate YieldsResults(f: Turn -> seq<Item>) {
    forall t: Turn :: AllResults(t.run) ==> AllResults(f(t))
  }

  /** Rewriting runs leaves the leaders alone and shows up turn by turn. */
  lemma TurnsOfRewrite(s: seq<Item>, f: Turn -> seq<Item>)
    requires YieldsResults(f)
    ensures TurnsOf(Rewrite(s, f)) == Rerun(TurnsOf(s), f)
    ensures Canonical(TurnsOf(s))
  {
    hide Split, Join, RewriteFrom, RunLength, Rerun;
    SplitCanonical(None, s);
    RewriteFromJoin(None, s, f);
    SplitJoin(Rerun(TurnsOf(s), f));
  }

  /** A rewrite that leaves every run of `s` alone leaves `s` alone. */
  lemma RewriteIdentity(s: seq<Item>, f: Turn -> seq<Item>)
    requires forall k :: 0 <= k < |TurnsOf(s)| ==> f(TurnsOf(s)[k]) == TurnsOf(s)[k].run
    ensures Rewrite(s, f) == s
  {
    hide Split, Join, RewriteFrom, RunLength, Rerun;
    SplitCanonical(None, s);
    RewriteFromJoin(None, s, f);
    assert Rerun(TurnsOf(s), f) == TurnsOf(s);
  }

  predicate Caller(item: Item) {
    item.Assistant? && item.toolCalls != []
  }

  /** `f` rewrites only the runs led by an Assistant that makes calls. */
  ghost predicate OnlyCallers(f: Turn -> seq<Item>) {
    forall t: Turn :: !(t.leader.Some? && Caller(t.leader.value)) ==> f(t) == t.run
  }

  lemma LeadIrrelevant(lead: Item, s: seq<Item>, f: Turn -> seq<Item>)
    requires OnlyCallers(f) && !Caller(lead)
    ensures RewriteFrom(Some(lead), s, f) == RewriteFrom(None, s, f)
  {
    hide RewriteFrom, RunLength;
    RewriteUnfold(Some(lead), s, f);
    RewriteUnfold(None, s, f);
  }

  /** A scan may step over an item that makes no calls. */
  lemma StepPlain(x: Item, s: seq<Item>, f: Turn -> seq<Item>)
    requires OnlyCallers(f) && !Caller(x)
    ensures RewriteFrom(None, [x] + s, f) == [x] + RewriteFrom(None, s, f)
  {
    hide RewriteFrom;
    var all := [x] + s;
    assert all[1..] == s;
    RewriteUnfold(None, all, f);
    if x.ToolResult? {
      hide RunLength;
      RewriteUnfold(None, s, f);
      var n := RunLength(s);
      RunLengthHead(x, s);
      assert f(Turn(None, all[..n + 1])) == [x] + f(Turn(None, s[..n]));
      if n < |s| {
        assert all[n + 2..] == s[n + 1..];
      }
    } else {
      LeadIrrelevant(x, s, f);
      assert f(Turn(None, all[..0])) == [];
    }
  }

  lemma RunLengthHead(x: Item, s: seq<Item>)
    ensures RunLength([x] + s) == if x.ToolResult? then RunLength(s) + 1 else 0
  {
    assert ([x] + s)[1..] == s;
  }

  /** A scan may step over a calling Assistant together with its whole run. */
  lemma StepCaller(x: Item, run: seq<Item>, rest: seq<Item>, f: Turn -> seq<Item>)
    requires OnlyCallers(f) && Caller(x)
    requires AllResults(run) && (rest == [] || !rest[0].ToolResult?)
    ensures RewriteFrom(None, [x] + run + rest, f)
         == [x] + f(Turn(Some(x), run)) + RewriteFrom(None, rest, f)
  {
    hide RewriteFrom, RunLength;
    StepLeader(x, run + rest, f);
    assert [x] + run + rest == [x] + (run + rest);
    RewriteUnfold(Some(x), run + rest, f);
    RunLengthExact(run, rest);
    assert (run + rest)[..|run|] == run;
    if rest != [] {
      assert (run + rest)[|run| + 1..] == rest[1..];
      assert rest == [rest[0]] + rest[1..];
      StepLeader(rest[0], rest[1..], f);
    } else {
      RewriteUnfold(None, [], f);
      assert f(Turn(None, [])) == [];
    }
  }

  lemma StepLeader(x: Item, s: seq<Item>, f: Turn -> seq<Item>)
    requires OnlyCallers(f) && !x.ToolResult?
    ensures RewriteFrom(None, [x] + s, f) == [x] + RewriteFrom(Some(x), s, f)
  {
    hide RewriteFrom, RunLength;
    RunLengthHead(x, s);
    RewriteUnfold(None, [x] + s, f);
    assert ([x] + s)[1..] == s;
    assert f(Turn(None, ([x] + s)[..0])) == [];
  }
}
