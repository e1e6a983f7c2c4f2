/** `repair_history`: drop duplicate results, strip displaced ones, backfill
    unanswered calls, and report what was changed. */
module HistoryRepair {
  import opened Options
  import opened Conversation
  import opened Turns
  import opened Pairing
  import opened RunRepair
  import opened DedupResults
  import opened BackfillCalls

  datatype Report = Report(duplicatesRemoved: nat, strippedIds: seq<string>, syntheticInserted: nat) {
    predicate Changed() {
      duplicatesRemoved > 0 || strippedIds != [] || syntheticInserted > 0
    }
  }

  const HISTORY_REPAIR := HarnessHalted("history_repair")

  // ---- strip_displaced_tool_results ----

  method StripDisplacedToolResults(items: seq<Item>) returns (conv: seq<Item>, stripped: seq<string>)
    ensures conv == Pick(items, StrictMask(items))
    ensures stripped == Pick(CallIds(items), Inverted(StrictMask(items)))
  {
    var runIds: set<string> := {};
    conv, stripped := [], [];
    ghost var mask := StrictMask(items);
    for i := 0 to |items|
      invariant forall id :: id in runIds <==> DeclaredBy(Nearest(None, items, i), id)
      invariant conv == Pick(items[..i], mask[..i])
      invariant stripped == Pick(CallIds(items)[..i], Inverted(mask)[..i])
    {
      PickStep(items, mask, i);
      PickStep(CallIds(items), Inverted(mask), i);
      match items[i]
      case Assistant(_, calls) =>
        runIds := DeclaredIds(items[i]);
        conv := conv + [items[i]];
      case ToolResult(id, _, _) =>
        if id in runIds {
          conv := conv + [items[i]];
        } else {
          stripped := stripped + [id];
        }
      case _ =>
        runIds := {};
        conv := conv + [items[i]];
    }
    assert items[..|items|] == items && mask[..|items|] == mask;
    assert CallIds(items)[..|items|] == CallIds(items) && Inverted(mask)[..|items|] == Inverted(mask);
  }

  function StrictMaskAfter(lead: Option<Item>, s: seq<Item>): seq<bool> {
    seq(|s|, i requires 0 <= i < |s| => InOwnRun(lead, s, i))
  }

  lemma {:induction false} NearestPastResult(lead: Option<Item>, r: Item, s: seq<Item>, k: nat)
    requires r.ToolResult? && k <= |s|
    ensures Nearest(lead, [r] + s, k + 1) == Nearest(lead, s, k)
  {
    if k > 0 {
      assert ([r] + s)[k] == s[k - 1];
      NearestPastResult(lead, r, s, k - 1);
    }
  }

  lemma OwnedByHead(lead: Option<Item>, x: Item, run: seq<Item>)
    requires x.ToolResult?
    ensures OwnedBy(lead, [x] + run) == (if DeclaredBy(lead, x.callId) then [x] else []) + OwnedBy(lead, run)
  {
    assert ([x] + run)[1..] == run;
  }

  lemma StripStep(lead: Option<Item>, x: Item, s: seq<Item>)
    ensures RewriteFrom(lead, [x] + s, StripRun)
         == if x.ToolResult? then (if DeclaredBy(lead, x.callId) then [x] else []) + RewriteFrom(lead, s, StripRun)
            else [x] + RewriteFrom(Some(x), s, StripRun)
  {
    hide RewriteFrom, RunLength, DeclaredBy;
    var all := [x] + s;
    RunLengthHead(x, s);
    RewriteUnfold(lead, all, StripRun);
    assert all[1..] == s;
    if x.ToolResult? {
      var n := RunLength(s);
      RewriteUnfold(lead, s, StripRun);
      assert all[..n + 1] == [x] + s[..n];
      OwnedByHead(lead, x, s[..n]);
      assert n < |s| ==> all[n + 2..] == s[n + 1..] && all[n + 1] == s[n];
    }
  }

  lemma NearestBehind(lead: Option<Item>, x: Item, s: seq<Item>, k: nat)
    requires k <= |s|
    ensures Nearest(lead, [x] + s, k + 1) == Nearest(if x.ToolResult? then lead else Some(x), s, k)
  {
    if x.ToolResult? {
      NearestPastResult(lead, x, s, k);
    } else {
      NearestShift(lead, [x] + s, 0, k + 1);
      assert ([x] + s)[1..] == s;
    }
  }

  lemma MaskStep(lead: Option<Item>, x: Item, s: seq<Item>)
    ensures StrictMaskAfter(lead, [x] + s)
         == [x.ToolResult? ==> DeclaredBy(lead, x.callId)]
            + StrictMaskAfter(if x.ToolResult? then lead else Some(x), s)
  {
    hide DeclaredBy, InOwnRun;
    OwnAtFront(lead, x, s);
    var all := [x] + s;
    var next := if x.ToolResult? then lead else Some(x);
    forall k | 0 <= k < |s|
      ensures InOwnRun(lead, all, k + 1) == InOwnRun(next, s, k)
    {
      OwnBehind(lead, x, s, k);
    }
  }

  lemma OwnAtFront(lead: Option<Item>, x: Item, s: seq<Item>)
    ensures InOwnRun(lead, [x] + s, 0) <==> (x.ToolResult? ==> DeclaredBy(lead, x.callId))
  {
    hide DeclaredBy;
  }

  lemma OwnBehind(lead: Option<Item>, x: Item, s: seq<Item>, k: nat)
    requires k < |s|
    ensures InOwnRun(lead, [x] + s, k + 1) <==> InOwnRun(if x.ToolResult? then lead else Some(x), s, k)
  {
    hide DeclaredBy, Nearest;
    NearestBehind(lead, x, s, k);
  }

  lemma {:induction false} StripIsRewriteAfter(lead: Option<Item>, s: seq<Item>)
    ensures RewriteFrom(lead, s, StripRun) == Pick(s, StrictMaskAfter(lead, s))
    decreases |s|
  {
    if s != [] {
      var x, tail := s[0], s[1..];
      var next := if x.ToolResult? then lead else Some(x);
      var keep := x.ToolResult? ==> DeclaredBy(lead, x.callId);
      assert s == [x] + tail;
      StripStep(lead, x, tail);
      MaskStep(lead, x, tail);
      PickConcat([x], tail, [keep], StrictMaskAfter(next, tail));
      assert Pick([x], [keep]) == if keep then [x] else [];
      StripIsRewriteAfter(next, tail);
    }
  }

  /** Filtering by the strict rule strips each run on its own. */
  lemma StripIsRewrite(s: seq<Item>)
    ensures Pick(s, StrictMask(s)) == Rewrite(s, StripRun)
  {
    assert StrictMask(s) == StrictMaskAfter(None, s);
    StripIsRewriteAfter(None, s);
  }

  function Repairing(reason: DanglingReason): Turn -> seq<Item> {
    (t: Turn) => RepairTurn(t, reason).run
  }

  lemma StripRunShape()
    ensures YieldsResults(StripRun)
  {
    forall t: Turn | AllResults(t.run) ensures AllResults(StripRun(t)) {
      OwnedByResults(t.leader, t.run);
    }
  }

  // ---- repair_history ----

  /** The conversation after the three passes, turn by turn. */
  function Repaired(s: seq<Item>): seq<Item> {
    Rewrite(s, Repairing(HISTORY_REPAIR))
  }

  lemma RepairingShape(reason: DanglingReason)
    ensures YieldsResults(Repairing(reason))
  {
    hide RepairTurn, AllResults, DeclaredBy;
    forall t: Turn | AllResults(t.run) ensures AllResults(Repairing(reason)(t)) {
      RepairTurnResults(t, reason);
    }
  }

  /** Two passes over the runs are one pass with both rewrites. */
  lemma RewriteTwice(s: seq<Item>, f: Turn -> seq<Item>, g: Turn -> seq<Item>, h: Turn -> seq<Item>)
    requires YieldsResults(f) && forall t: Turn :: h(t) == g(Turn(t.leader, f(t)))
    ensures Rewrite(Rewrite(s, f), g) == Rewrite(s, h)
  {
    TurnsOfRewrite(s, f);
    RewriteFromJoin(None, Rewrite(s, f), g);
    RewriteFromJoin(None, s, h);
    assert Rerun(Rerun(TurnsOf(s), f), g) == Rerun(TurnsOf(s), h);
  }

  // ---- what the report says, position by position of the input ----

  /** The result stands in the run of a calling Assistant, and a later one there answers its call. */
  predicate SupersededAt(lead: Option<Item>, s: seq<Item>, i: nat)
    requires i < |s|
  {
    s[i].ToolResult? && Calling(Nearest(lead, s, i)) && Answers(RunAfter(s, i), s[i].callId)
  }

  function SupersededAfter(lead: Option<Item>, s: seq<Item>): seq<bool> {
    seq(|s|, i requires 0 <= i < |s| => SupersededAt(lead, s, i))
  }

  /** The results that a later one of the same run supersedes. */
  function SupersededMask(s: seq<Item>): seq<bool> {
    SupersededAfter(None, s)
  }

  function StrayAfter(lead: Option<Item>, s: seq<Item>): seq<bool> {
    seq(|s|, i requires 0 <= i < |s| => !SupersededAt(lead, s, i) && !InOwnRun(lead, s, i))
  }

  /** Of the others, the results outside the run of an Assistant that declares their call. */
  function StrayMask(s: seq<Item>): seq<bool> {
    StrayAfter(None, s)
  }

  /** The calls, over all Assistants, that the run behind their Assistant leaves unanswered. */
  function UnansweredCalls(s: seq<Item>): seq<ToolCall> {
    if s == [] then []
    else (if s[0].Assistant? then Unanswered(s[0].toolCalls, RunAfter(s, 0)) else []) + UnansweredCalls(s[1..])
  }

  lemma DedupStep(lead: Option<Item>, x: Item, s: seq<Item>)
    ensures RewriteFrom(lead, [x] + s, DedupRun)
         == if x.ToolResult?
            then (if Calling(lead) && Answers(s[..RunLength(s)], x.callId) then [] else [x])
                 + RewriteFrom(lead, s, DedupRun)
            else [x] + RewriteFrom(Some(x), s, DedupRun)
  {
    hide RewriteFrom, RunLength, Answers, DedupRun;
    var all := [x] + s;
    RunLengthHead(x, s);
    RewriteUnfold(lead, all, DedupRun);
    assert all[1..] == s;
    if x.ToolResult? {
      var n := RunLength(s);
      RewriteUnfold(lead, s, DedupRun);
      DedupHead(lead, x, s[..n]);
      assert all[..n + 1] == [x] + s[..n];
      assert n < |s| ==> all[n + 2..] == s[n + 1..] && all[n + 1] == s[n];
    } else {
      NothingToDedup(lead);
      assert all[..0] == [];
    }
  }

  lemma DedupHead(lead: Option<Item>, x: Item, run: seq<Item>)
    requires x.ToolResult?
    ensures DedupRun(Turn(lead, [x] + run))
         == (if Calling(lead) && Answers(run, x.callId) then [] else [x]) + DedupRun(Turn(lead, run))
  {
    hide Calling, Answers;
    assert ([x] + run)[1..] == run;
  }

  lemma NothingToDedup(lead: Option<Item>)
    ensures DedupRun(Turn(lead, [])) == []
  {
  }

  lemma SupersededBehind(lead: Option<Item>, x: Item, s: seq<Item>, k: nat)
    requires k < |s|
    ensures SupersededAt(lead, [x] + s, k + 1)
       <==> SupersededAt(if x.ToolResult? then lead else Some(x), s, k)
  {
    hide Calling, DeclaredBy, Answers, Nearest, RunLength;
    var all := [x] + s;
    assert all[k + 2..] == s[k + 1..] && all[k + 1] == s[k];
    NearestBehind(lead, x, s, k);
  }

  lemma SupersededAtFront(lead: Option<Item>, x: Item, s: seq<Item>)
    ensures SupersededAt(lead, [x] + s, 0) <==> x.ToolResult? && Calling(lead) && Answers(s[..RunLength(s)], x.callId)
  {
    hide Calling, DeclaredBy, Answers, RunLength;
    assert ([x] + s)[1..] == s;
    assert Nearest(lead, [x] + s, 0) == lead;
  }

  lemma MasksStep(lead: Option<Item>, x: Item, s: seq<Item>)
    ensures var next := if x.ToolResult? then lead else Some(x);
            var gone := x.ToolResult? && Calling(lead) && Answers(s[..RunLength(s)], x.callId);
            && SupersededAfter(lead, [x] + s) == [gone] + SupersededAfter(next, s)
            && StrayAfter(lead, [x] + s)
               == [!gone && x.ToolResult? && !DeclaredBy(lead, x.callId)] + StrayAfter(next, s)
  {
    hide SupersededAt, InOwnRun, Calling, DeclaredBy, Answers, RunLength;
    var all := [x] + s;
    var next := if x.ToolResult? then lead else Some(x);
    SupersededAtFront(lead, x, s);
    OwnAtFront(lead, x, s);
    forall k | 0 <= k < |s|
      ensures SupersededAt(lead, all, k + 1) <==> SupersededAt(next, s, k)
      ensures InOwnRun(lead, all, k + 1) <==> InOwnRun(next, s, k)
    {
      SupersededBehind(lead, x, s, k);
      OwnBehind(lead, x, s, k);
    }
  }

  lemma CallIdsCons(x: Item, s: seq<Item>)
    ensures CallIds([x] + s) == [if x.ToolResult? then x.callId else ""] + CallIds(s)
  {
  }

  lemma {:induction false} DedupPicks(lead: Option<Item>, s: seq<Item>)
    ensures |SupersededAfter(lead, s)| == |s|
    ensures |RewriteFrom(lead, s, DedupRun)| + |Pick(s, SupersededAfter(lead, s))| == |s|
    decreases |s|
  {
    if s == [] {
      assert DedupRun(Turn(lead, [])) == [];
    } else {
      var x, rest := s[0], s[1..];
      var next := if x.ToolResult? then lead else Some(x);
      var gone := x.ToolResult? && Calling(lead) && Answers(rest[..RunLength(rest)], x.callId);
      assert s == [x] + rest;
      hide RewriteFrom, RunLength, Pick, SupersededAfter, Answers, Calling;
      DedupStep(lead, x, rest);
      MasksStep(lead, x, rest);
      DedupPicks(next, rest);
      PickConcat([x], rest, [gone], SupersededAfter(next, rest));
      PickOne(x, gone);
    }
  }

  /** The ids that stripping reports after deduplication, found in the history before it. */
  lemma {:induction false} StrayPicks(lead: Option<Item>, s: seq<Item>)
    ensures |StrayAfter(lead, s)| == |s|
    ensures var d := RewriteFrom(lead, s, DedupRun);
            |StrictMaskAfter(lead, d)| == |d|
            && Pick(CallIds(d), Inverted(StrictMaskAfter(lead, d))) == Pick(CallIds(s), StrayAfter(lead, s))
    decreases |s|
  {
    if s == [] {
      assert DedupRun(Turn(lead, [])) == [];
    } else {
      var x, rest := s[0], s[1..];
      var next := if x.ToolResult? then lead else Some(x);
      var gone := x.ToolResult? && Calling(lead) && Answers(rest[..RunLength(rest)], x.callId);
      var stray := !gone && x.ToolResult? && !DeclaredBy(lead, x.callId);
      var d := RewriteFrom(next, rest, DedupRun);
      var id := if x.ToolResult? then x.callId else "";
      assert s == [x] + rest;
      hide RewriteFrom, RunLength, Pick, StrayAfter, StrictMaskAfter, Answers, Calling, DeclaredBy, CallIds;
      DedupStep(lead, x, rest);
      MasksStep(lead, x, rest);
      StrayPicks(next, rest);
      CallIdsCons(x, rest);
      CallIdsSize(rest);
      CallIdsSize(d);
      PickConcat([id], CallIds(rest), [stray], StrayAfter(next, rest));
      PickOne(id, stray);
      if gone {
        assert [] + d == d;
        assert [] + Pick(CallIds(rest), StrayAfter(next, rest)) == Pick(CallIds(rest), StrayAfter(next, rest));
      } else {
        var keep := x.ToolResult? ==> DeclaredBy(lead, x.callId);
        MaskStep(lead, x, d);
        CallIdsCons(x, d);
        InvertedCons(keep, StrictMaskAfter(next, d));
        PickConcat([id], CallIds(d), [!keep], Inverted(StrictMaskAfter(next, d)));
        PickOne(id, !keep);
      }
    }
  }

  lemma CallIdsSize(s: seq<Item>)
    ensures |CallIds(s)| == |s|
  {
  }

  lemma InvertedCons(b: bool, mask: seq<bool>)
    ensures Inverted([b] + mask) == [!b] + Inverted(mask)
  {
  }

  /** The calls that the runs of `s`, the first of which follows `lead`, leave unanswered. */
  function Missing(lead: Option<Item>, s: seq<Item>): seq<ToolCall>
    decreases |s|
  {
    var n := RunLength(s);
    (if Calling(lead) then Unanswered(lead.value.toolCalls, s[..n]) else [])
    + (if n == |s| then [] else Missing(Some(s[n]), s[n + 1..]))
  }

  lemma {:induction false} MissingIsUnanswered(lead: Item, s: seq<Item>)
    ensures UnansweredCalls([lead] + s) == (if lead.ToolResult? then UnansweredCalls(s) else Missing(Some(lead), s))
    decreases |s|
  {
    hide RunLength, Unanswered, UnansweredCalls, Missing;
    var n := RunLength(s);
    UnansweredStep(lead, s);
    if lead.ToolResult? {
      assert [] + UnansweredCalls(s) == UnansweredCalls(s);
    } else {
      MissingUnfold(Some(lead), s);
      NoCallsInRun(s, n);
      if n < |s| {
        MissingIsUnanswered(s[n], s[n + 1..]);
        assert s[n..] == [s[n]] + s[n + 1..];
      } else {
        assert s[n..] == [];
        NoCallsAtEnd();
      }
      UncalledNone(s[..n]);
    }
  }

  lemma MissingUnfold(lead: Option<Item>, s: seq<Item>)
    ensures var n := RunLength(s);
            Missing(lead, s)
            == (if Calling(lead) then Unanswered(lead.value.toolCalls, s[..n]) else [])
               + (if n == |s| then [] else Missing(Some(s[n]), s[n + 1..]))
  {
    hide RunLength, Unanswered, Calling;
  }

  lemma UnansweredStep(x: Item, s: seq<Item>)
    ensures UnansweredCalls([x] + s)
         == (if x.Assistant? then Unanswered(x.toolCalls, s[..RunLength(s)]) else []) + UnansweredCalls(s)
  {
    hide RunLength, Unanswered;
    assert ([x] + s)[1..] == s && ([x] + s)[0 + 1..] == s;
  }

  lemma NoCallsAtEnd()
    ensures UnansweredCalls([]) == []
  {
  }

  lemma UncalledNone(run: seq<Item>)
    ensures Unanswered([], run) == []
  {
  }

  lemma {:induction false} NoCallsInRun(s: seq<Item>, n: nat)
    requires n <= |s| && AllResults(s[..n])
    ensures UnansweredCalls(s) == UnansweredCalls(s[n..])
    decreases n
  {
    if n == 0 {
      assert s[0..] == s;
    } else {
      hide UnansweredCalls, Unanswered, RunLength;
      assert s[0] == s[..n][0];
      assert s[1..][..n - 1] == s[..n][1..];
      NoCallsInRun(s[1..], n - 1);
      assert s[1..][n - 1..] == s[n..];
      assert s == [s[0]] + s[1..];
      UnansweredStep(s[0], s[1..]);
      assert [] + UnansweredCalls(s[1..]) == UnansweredCalls(s[1..]);
    }
  }

  lemma RepairingIs(t: Turn, reason: DanglingReason)
    ensures Repairing(reason)(t) == RepairTurn(t, reason).run
  {
    hide RepairTurn;
  }

  lemma RepairTurnIs(t: Turn, reason: DanglingReason)
    ensures RepairTurn(t, reason).run == BackfillRun(StripOnly(t), reason)
  {
    hide BackfillRun, StripOnly;
  }

  lemma StrippingIs(t: Turn)
    ensures StrippingAfterDedup(t) == StripOnly(t).run
  {
    hide StripOnly;
  }

  lemma BackfillRunIs(t: Turn, reason: DanglingReason)
    ensures BackfillRun(t, reason)
         == if Calling(t.leader) then t.run + StandIns(t.leader.value.toolCalls, t.run, reason) else t.run
  {
    hide StandIns;
  }

  lemma BackfilledSize(t: Turn)
    ensures |Repairing(HISTORY_REPAIR)(t)|
         == |StrippingAfterDedup(t)| + if Calling(t.leader) then |Unanswered(t.leader.value.toolCalls, t.run)| else 0
  {
    hide *;
    RepairingIs(t, HISTORY_REPAIR);
    RepairTurnIs(t, HISTORY_REPAIR);
    StrippingIs(t);
    BackfillRunIs(StripOnly(t), HISTORY_REPAIR);
    SameLeader(t);
    if Calling(t.leader) {
      CallingLeads(t);
      StrippingUnanswered(t);
      StandInsAre(t.leader.value.toolCalls, StripOnly(t).run, HISTORY_REPAIR);
    }
  }

  lemma CallingLeads(t: Turn)
    requires Calling(t.leader)
    ensures t.leader.Some? && t.leader.value.Assistant?
  {
  }

  lemma SameLeader(t: Turn)
    ensures StripOnly(t).leader == t.leader
  {
    hide StripRun, DedupRun;
  }

  lemma {:induction false} MissingInserted(lead: Option<Item>, s: seq<Item>)
    ensures |RewriteFrom(lead, s, Repairing(HISTORY_REPAIR))|
         == |RewriteFrom(lead, s, StrippingAfterDedup)| + |Missing(lead, s)|
    decreases |s|
  {
    hide RewriteFrom, RunLength, Repairing, StrippingAfterDedup, Unanswered, Calling;
    var n := RunLength(s);
    RewriteUnfold(lead, s, Repairing(HISTORY_REPAIR));
    RewriteUnfold(lead, s, StrippingAfterDedup);
    BackfilledSize(Turn(lead, s[..n]));
    if n < |s| { MissingInserted(Some(s[n]), s[n + 1..]); }
  }

  lemma InsertedIsUnanswered(items: seq<Item>)
    ensures |Rewrite(items, Repairing(HISTORY_REPAIR))|
         == |Rewrite(items, StrippingAfterDedup)| + |UnansweredCalls(items)|
  {
    hide RewriteFrom, Missing, UnansweredCalls;
    MissingInserted(None, items);
    var n := RunLength(items);
    NoCallsInRun(items, n);
    MissingUnfold(None, items);
    if n < |items| {
      MissingIsUnanswered(items[n], items[n + 1..]);
      assert items[n..] == [items[n]] + items[n + 1..];
    } else {
      assert items[n..] == [];
      NoCallsAtEnd();
    }
  }

  method RepairHistory(items: seq<Item>) returns (conv: seq<Item>, report: Report)
    ensures conv == Repaired(items)
    ensures report.duplicatesRemoved == |Pick(items, SupersededMask(items))|
    ensures report.strippedIds == Pick(CallIds(items), StrayMask(items))
    ensures report.syntheticInserted == |UnansweredCalls(items)|
    ensures report.Changed() <==> !WellPaired(items)
    ensures !report.Changed() ==> conv == items
  {
    var deduped, removed := DedupDuplicateToolResults(items);
    var kept, stripped := StripDisplacedToolResults(deduped);
    var backfilled, inserted := RepairDanglingToolCalls(kept, HISTORY_REPAIR);
    conv, report := backfilled, Report(removed, stripped, inserted);
    PassesCompose(items, deduped, kept);
    ReportCounts(items, deduped, kept, conv, report);
    ReportIsHonest(items, deduped, kept, conv, report);
  }

  /** What the passes count and collect, in terms of the input. */
  lemma ReportCounts(items: seq<Item>, deduped: seq<Item>, kept: seq<Item>, conv: seq<Item>, report: Report)
    requires deduped == Rewrite(items, DedupRun) && report.duplicatesRemoved + |deduped| == |items|
    requires kept == Pick(deduped, StrictMask(deduped))
    requires report.strippedIds == Pick(CallIds(deduped), Inverted(StrictMask(deduped)))
    requires conv == Repaired(items) && |conv| == |kept| + report.syntheticInserted
    ensures report.duplicatesRemoved == |Pick(items, SupersededMask(items))|
    ensures report.strippedIds == Pick(CallIds(items), StrayMask(items))
    ensures report.syntheticInserted == |UnansweredCalls(items)|
  {
    StrictFromNone(deduped);
    hide RewriteFrom, Pick, UnansweredCalls, SupersededAfter, StrayAfter, StrictMask, StrictMaskAfter;
    hide CallIds, Inverted;
    DedupPicks(None, items);
    StrayPicks(None, items);
    StripIsRewrite(deduped);
    StrippedAfterDedup(items);
    InsertedIsUnanswered(items);
  }

  lemma StrictFromNone(s: seq<Item>)
    ensures StrictMask(s) == StrictMaskAfter(None, s)
  {
  }

  function StrippingAfterDedup(t: Turn): seq<Item> {
    StripOnly(t).run
  }

  lemma StrippedAfterDedup(items: seq<Item>)
    ensures Rewrite(Rewrite(items, DedupRun), StripRun) == Rewrite(items, StrippingAfterDedup)
  {
    DedupRunShape();
    RewriteTwice(items, DedupRun, StripRun, StrippingAfterDedup);
  }

  lemma StrippingShape()
    ensures YieldsResults(StrippingAfterDedup)
  {
    DedupRunShape();
    StripRunShape();
    forall t: Turn | AllResults(t.run) ensures AllResults(StrippingAfterDedup(t)) {
      assert AllResults(DedupRun(t));
      assert AllResults(StripRun(Turn(t.leader, DedupRun(t))));
    }
  }

  lemma RepairingIsComposite(reason: DanglingReason)
    ensures forall t: Turn :: Repairing(reason)(t) == Backfilling(reason)(Turn(t.leader, StrippingAfterDedup(t)))
  {
  }

  lemma BackfillAfterStripping(items: seq<Item>, reason: DanglingReason)
    ensures Rewrite(Rewrite(items, StrippingAfterDedup), Backfilling(reason)) == Rewrite(items, Repairing(reason))
  {
    RepairingIsComposite(reason);
    StrippingShape();
    RewriteTwice(items, StrippingAfterDedup, Backfilling(reason), Repairing(reason));
  }

  lemma PassesCompose(items: seq<Item>, deduped: seq<Item>, kept: seq<Item>)
    requires deduped == Rewrite(items, DedupRun)
    requires kept == Pick(deduped, StrictMask(deduped))
    ensures Rewrite(kept, Backfilling(HISTORY_REPAIR)) == Repaired(items)
  {
    StripIsRewrite(deduped);
    StrippedAfterDedup(items);
    BackfillAfterStripping(items, HISTORY_REPAIR);
  }

  /** Runs that all shrink, or all grow, keep the total size only by keeping each size. */
  lemma {:induction false} SameSizeJoin(ts: seq<Turn>, us: seq<Turn>)
    requires |ts| == |us| && forall k :: 0 <= k < |ts| ==> ts[k].leader == us[k].leader
    requires forall k :: 0 <= k < |ts| ==> |us[k].run| <= |ts[k].run|
    ensures |Join(us)| <= |Join(ts)|
    ensures |Join(us)| == |Join(ts)| ==> forall k :: 0 <= k < |ts| ==> |us[k].run| == |ts[k].run|
  {
    if |ts| > 1 {
      SameSizeJoin(ts[1..], us[1..]);
      if |Join(us)| == |Join(ts)| {
        forall k | 0 <= k < |ts| ensures |us[k].run| == |ts[k].run| {
          if k > 0 { assert us[1..][k - 1] == us[k] && ts[1..][k - 1] == ts[k]; }
        }
      }
    }
  }

  /** Deduplication that removes nothing leaves each run as it was. */
  lemma DedupUnchanged(s: seq<Item>)
    requires |Rewrite(s, DedupRun)| == |s|
    ensures forall k :: 0 <= k < |TurnsOf(s)| ==> DedupRun(TurnsOf(s)[k]) == TurnsOf(s)[k].run
    ensures Rewrite(s, DedupRun) == s
  {
    var ts := TurnsOf(s);
    SplitCanonical(None, s);
    RewriteFromJoin(None, s, DedupRun);
    forall k | 0 <= k < |ts| ensures |DedupRun(ts[k])| <= |ts[k].run| { KeepLastSize(ts[k].run); }
    SameSizeJoin(ts, Rerun(ts, DedupRun));
    forall k | 0 <= k < |ts| ensures DedupRun(ts[k]) == ts[k].run { KeepLastSize(ts[k].run); }
    RewriteIdentity(s, DedupRun);
  }

  /** Backfilling that inserts nothing leaves each run as it was. */
  lemma BackfillUnchanged(s: seq<Item>, reason: DanglingReason)
    requires |Rewrite(s, Backfilling(reason))| == |s|
    ensures forall k :: 0 <= k < |TurnsOf(s)| ==> BackfillRun(TurnsOf(s)[k], reason) == TurnsOf(s)[k].run
    ensures Rewrite(s, Backfilling(reason)) == s
  {
    var ts := TurnsOf(s);
    SplitCanonical(None, s);
    RewriteFromJoin(None, s, Backfilling(reason));
    SameSizeJoin(Rerun(ts, Backfilling(reason)), ts);
    RewriteIdentity(s, Backfilling(reason));
  }

  lemma StripUnchanged(s: seq<Item>)
    ensures Pick(CallIds(s), Inverted(StrictMask(s))) == [] <==> Rewrite(s, StripRun) == s
    ensures Rewrite(s, StripRun) == s
       <==> forall k :: 0 <= k < |TurnsOf(s)| ==> StripRun(TurnsOf(s)[k]) == TurnsOf(s)[k].run
  {
    StripIsRewrite(s);
    PickAll(s, StrictMask(s));
    PickNone(CallIds(s), StrictMask(s));
    StripRunShape();
    TurnsOfRewrite(s, StripRun);
    if forall k :: 0 <= k < |TurnsOf(s)| ==> StripRun(TurnsOf(s)[k]) == TurnsOf(s)[k].run {
      RewriteIdentity(s, StripRun);
    }
  }

  lemma ReportIsHonest(items: seq<Item>, deduped: seq<Item>, kept: seq<Item>, conv: seq<Item>, report: Report)
    requires deduped == Rewrite(items, DedupRun) && report.duplicatesRemoved + |deduped| == |items|
    requires kept == Pick(deduped, StrictMask(deduped))
    requires report.strippedIds == Pick(CallIds(deduped), Inverted(StrictMask(deduped)))
    requires conv == Rewrite(kept, Backfilling(HISTORY_REPAIR)) && |conv| == |kept| + report.syntheticInserted
    ensures report.Changed() <==> !WellPaired(items)
    ensures !report.Changed() ==> conv == items
  {
    hide TurnsOf, Rewrite, DedupRun, StripRun, Backfilling, BackfillRun, WellPaired, PairedTurn, Pick, StrictMask,
      CallIds, Inverted;
    StripUnchanged(deduped);
    StripIsRewrite(deduped);
    PairedIffUnchanged(items);
    if !report.Changed() {
      DedupUnchanged(items);
      BackfillUnchanged(items, HISTORY_REPAIR);
    } else if WellPaired(items) {
      NothingToDo(items);
    }
  }

  /** A history is well paired exactly when no pass would change any of its runs. */
  lemma PairedIffUnchanged(s: seq<Item>)
    ensures WellPaired(s) <==> forall k :: 0 <= k < |TurnsOf(s)| ==> Settled(TurnsOf(s)[k])
  {
    hide TurnsOf, PairedTurn, Settled, WellPaired;
    WellPairedByTurn(s);
    RunsAreResults(s);
    forall k | 0 <= k < |TurnsOf(s)| ensures PairedTurn(TurnsOf(s)[k]) <==> Settled(TurnsOf(s)[k]) {
      SettledIffPaired(TurnsOf(s)[k]);
    }
  }

  lemma RunsAreResults(s: seq<Item>)
    ensures forall k :: 0 <= k < |TurnsOf(s)| ==> AllResults(TurnsOf(s)[k].run)
  {
    SplitCanonical(None, s);
  }

  predicate Settled(t: Turn) {
    DedupRun(t) == t.run && StripRun(t) == t.run && BackfillRun(t, HISTORY_REPAIR) == t.run
  }

  lemma SettledIffPaired(t: Turn)
    requires AllResults(t.run)
    ensures PairedTurn(t) <==> Settled(t)
  {
    PairedTurnIsFixpoint(t, HISTORY_REPAIR);
  }

  lemma NothingToDo(s: seq<Item>)
    requires WellPaired(s)
    ensures Rewrite(s, DedupRun) == s && Rewrite(s, StripRun) == s && Rewrite(s, Backfilling(HISTORY_REPAIR)) == s
  {
    hide TurnsOf, Rewrite, DedupRun, StripRun, BackfillRun, WellPaired;
    PairedIffUnchanged(s);
    RewriteIdentity(s, DedupRun);
    RewriteIdentity(s, StripRun);
    RewriteIdentity(s, Backfilling(HISTORY_REPAIR));
  }

  lemma RunAfterShift(s: seq<Item>, n: nat, i: nat)
    requires n < i < |s|
    ensures RunAfter(s, i) == RunAfter(s[n + 1..], i - n - 1) && s[i] == s[n + 1..][i - n - 1]
  {
    assert s[n + 1..][i - n..] == s[i + 1..];
  }

  /** Each item that is not a result leads one turn, with the run right after it. */
  lemma {:induction false} LeaderToTurn(lead: Option<Item>, s: seq<Item>, i: nat) returns (k: nat)
    requires i < |s| && !s[i].ToolResult?
    ensures 1 <= k < |Split(lead, s)| && Split(lead, s)[k] == Turn(Some(s[i]), RunAfter(s, i))
    decreases |s|
  {
    hide Split, RunLength;
    SplitUnfold(lead, s);
    var n := RunLength(s);
    var rest := s[n + 1..];
    if i == n {
      k := 1;
      SplitUnfold(Some(s[n]), rest);
    } else {
      hide RunAfter;
      k := LeaderToTurn(Some(s[n]), rest, i - n - 1);
      RunAfterShift(s, n, i);
      k := k + 1;
    }
  }

  lemma {:induction false} TurnToLeader(lead: Option<Item>, s: seq<Item>, k: nat) returns (i: nat)
    requires 1 <= k < |Split(lead, s)|
    ensures i < |s| && !s[i].ToolResult? && Split(lead, s)[k] == Turn(Some(s[i]), RunAfter(s, i))
    decreases |s|
  {
    hide *;
    SplitUnfold(lead, s);
    var n := RunLength(s);
    var rest := s[n + 1..];
    SplitUnfold(Some(s[n]), rest);
    if k == 1 {
      i := n;
      RunAfterIs(s, n);
    } else {
      i := TurnToLeader(Some(s[n]), rest, k - 1);
      RunAfterShift(s, n, n + 1 + i);
      i := n + 1 + i;
    }
  }

  lemma RunAfterIs(s: seq<Item>, i: nat)
    requires i < |s|
    ensures RunAfter(s, i) == s[i + 1..][..RunLength(s[i + 1..])]
  {
  }

  lemma LeaderToTurnOf(s: seq<Item>, i: nat) returns (k: nat)
    requires i < |s| && !s[i].ToolResult?
    ensures 1 <= k < |TurnsOf(s)| && TurnsOf(s)[k] == Turn(Some(s[i]), RunAfter(s, i))
  {
    k := LeaderToTurn(None, s, i);
  }

  lemma TurnToLeaderOf(s: seq<Item>, k: nat) returns (i: nat)
    requires 1 <= k < |TurnsOf(s)|
    ensures i < |s| && !s[i].ToolResult? && TurnsOf(s)[k] == Turn(Some(s[i]), RunAfter(s, i))
  {
    i := TurnToLeader(None, s, k);
  }

  lemma FirstTurn(s: seq<Item>)
    ensures |TurnsOf(s)| > 0 && TurnsOf(s)[0].leader == None && NoDoubleUnanswered(TurnsOf(s)[0])
  {
  }

  /** No Assistant declares twice an id that its run leaves unanswered. */
  predicate NoDoubleUnansweredIn(s: seq<Item>) {
    forall i :: 0 <= i < |s| && s[i].Assistant? ==> NoDoubleUnanswered(Turn(Some(s[i]), RunAfter(s, i)))
  }

  lemma NoDoubleByTurn(s: seq<Item>)
    ensures NoDoubleUnansweredIn(s) <==> forall k :: 0 <= k < |TurnsOf(s)| ==> NoDoubleUnanswered(TurnsOf(s)[k])
  {
    hide TurnsOf, CallCount, Answers, RunAfter;
    if NoDoubleUnansweredIn(s) {
      assert NoDoubleUnanswered(TurnsOf(s)[0]) by { FirstTurn(s); }
      forall k | 1 <= k < |TurnsOf(s)| ensures NoDoubleUnanswered(TurnsOf(s)[k]) {
        var i := TurnToLeaderOf(s, k);
      }
    }
    if forall k :: 0 <= k < |TurnsOf(s)| ==> NoDoubleUnanswered(TurnsOf(s)[k]) {
      forall i | 0 <= i < |s| && s[i].Assistant? ensures NoDoubleUnanswered(Turn(Some(s[i]), RunAfter(s, i))) {
        var k := LeaderToTurnOf(s, i);
      }
    }
  }

  lemma RepairedTurns(s: seq<Item>)
    ensures |TurnsOf(Repaired(s))| == |TurnsOf(s)|
    ensures forall k :: 0 <= k < |TurnsOf(s)| ==>
              AllResults(TurnsOf(s)[k].run) && TurnsOf(Repaired(s))[k] == RepairTurn(TurnsOf(s)[k], HISTORY_REPAIR)
  {
    RepairingShape(HISTORY_REPAIR);
    TurnsOfRewrite(s, Repairing(HISTORY_REPAIR));
  }

  /** One repair yields a well-paired history exactly when no unanswered id is declared twice. */
  lemma RepairPairs(s: seq<Item>)
    ensures WellPaired(Repaired(s)) <==> NoDoubleUnansweredIn(s)
  {
    hide TurnsOf, Repaired, RepairTurn;
    RepairedTurns(s);
    WellPairedByTurn(Repaired(s));
    NoDoubleByTurn(s);
    forall k | 0 <= k < |TurnsOf(s)|
      ensures PairedTurn(TurnsOf(Repaired(s))[k]) <==> NoDoubleUnanswered(TurnsOf(s)[k])
    {
      RepairTurnPairs(TurnsOf(s)[k], HISTORY_REPAIR);
    }
  }

  /** Two repairs always yield a well-paired history. */
  lemma RepairTwicePairs(s: seq<Item>)
    ensures WellPaired(Repaired(Repaired(s)))
  {
    RepairedTurns(s);
    RepairPairs(Repaired(s));
    NoDoubleByTurn(Repaired(s));
    forall k | 0 <= k < |TurnsOf(s)| ensures NoDoubleUnanswered(TurnsOf(Repaired(s))[k]) {
      RepairedTurnIsAnswered(TurnsOf(s)[k], HISTORY_REPAIR);
    }
  }

  lemma WellPairedUntouched(s: seq<Item>)
    requires WellPaired(s)
    ensures Repaired(s) == s
  {
    hide Repaired, TurnsOf, RepairTurn, PairedTurn, Rewrite;
    WellPairedByTurn(s);
    RepairedTurns(s);
    forall k | 0 <= k < |TurnsOf(s)| ensures RepairTurn(TurnsOf(s)[k], HISTORY_REPAIR) == TurnsOf(s)[k] {
      PairedTurnUnchanged(TurnsOf(s)[k], HISTORY_REPAIR);
    }
    SameTurnsSame(s, Repaired(s));
  }

  lemma SameTurnsSame(a: seq<Item>, b: seq<Item>)
    requires TurnsOf(a) == TurnsOf(b)
    ensures a == b
  {
    SplitCanonical(None, a);
    SplitCanonical(None, b);
  }

  /** The repair is idempotent on `s` exactly when no unanswered id is declared twice;
      a third repair never changes what the second left. */
  lemma RepairIdempotence(s: seq<Item>)
    ensures Repaired(Repaired(s)) == Repaired(s) <==> NoDoubleUnansweredIn(s)
    ensures Repaired(Repaired(Repaired(s))) == Repaired(Repaired(s))
  {
    hide Repaired, WellPaired, NoDoubleUnansweredIn;
    RepairPairs(s);
    RepairTwicePairs(s);
    WellPairedUntouched(Repaired(Repaired(s)));
    if WellPaired(Repaired(s)) {
      WellPairedUntouched(Repaired(s));
    }
  }

  /** An Assistant that declares one id twice and is not answered. */
  const TWICE_DECLARED := [Assistant("", [ToolCall("c1", "run", "{}"), ToolCall("c1", "run", "{}")])]

  /** On it the second repair still changes something. */
  lemma RepairNotIdempotent()
    ensures !NoDoubleUnansweredIn(TWICE_DECLARED) && !WellPaired(Repaired(TWICE_DECLARED))
    ensures Repaired(Repaired(TWICE_DECLARED)) != Repaired(TWICE_DECLARED)
  {
    var s := TWICE_DECLARED;
    hide Repaired, AnswerCount, WellPaired;
    RepairIdempotence(s);
    RepairPairs(s);
    var t := Turn(Some(s[0]), RunAfter(s, 0));
    assert t.run == [];
    var calls := t.leader.value.toolCalls;
    assert calls[1..] == [calls[1]];
    assert CallCount([calls[1]], "c1") == 1;
    assert !NoDoubleUnanswered(t) by {
      assert calls[0].id == "c1";
      assert CallCount(calls, "c1") == 2;
    }
  }

  /** What the repair keeps: every item that is not a result, in order, and the
      last recorded result of each declared call; what it adds is stand-ins only. */
  lemma RepairPreserves(s: seq<Item>)
    ensures |TurnsOf(Repaired(s))| == |TurnsOf(s)|
    ensures forall k :: 0 <= k < |TurnsOf(s)| ==> Preserves(TurnsOf(s)[k], TurnsOf(Repaired(s))[k], HISTORY_REPAIR)
  {
    hide Repaired, TurnsOf, RepairTurn, Preserves;
    RepairedTurns(s);
    forall k | 0 <= k < |TurnsOf(s)|
      ensures Preserves(TurnsOf(s)[k], TurnsOf(Repaired(s))[k], HISTORY_REPAIR)
    {
      RepairTurnPreserves(TurnsOf(s)[k], HISTORY_REPAIR);
    }
  }
}
