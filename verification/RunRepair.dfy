/** What the three repair passes do to a single run of tool results. */
module RunRepair {
  import opened Options
  import opened Conversation
  import opened Turns
  import opened Pairing

  datatype DanglingReason = UserCancelled | HarnessHalted(reasonClass: string)

  function SyntheticText(name: string, reason: DanglingReason): string {
    match reason
    case UserCancelled =>
      "Tool execution was cancelled by the user (tool `" + name + "` was not executed)."
    case HarnessHalted(c) =>
      "Tool execution was halted by the harness (" + c + "); the tool `" + name + "` was not executed."
  }

  function SyntheticResult(call: ToolCall, reason: DanglingReason): Item {
    ToolResult(call.id, SyntheticText(call.name, reason), [])
  }

  /** `run` with only the last result of each call id. */
  function KeepLast(run: seq<Item>): seq<Item> {
    if run == [] then []
    else if run[0].ToolResult? && Answers(run[1..], run[0].callId) then KeepLast(run[1..])
    else [run[0]] + KeepLast(run[1..])
  }

  /** The last result of `run` for `id`. */
  function LastAnswer(run: seq<Item>, id: string): (r: Item)
    requires Answers(run, id)
    ensures r.ToolResult? && r.callId == id && r in run
  {
    if Answers(run[1..], id) then LastAnswer(run[1..], id)
    else
      assert run[0].ToolResult? && run[0].callId == id by {
        assert forall j :: 0 <= j < |run[1..]| ==> run[1..][j] == run[j + 1];
      }
      run[0]
  }

  /** The results of `run` whose call `lead` declares. */
  function OwnedBy(lead: Option<Item>, run: seq<Item>): seq<Item> {
    if run == [] then []
    else
      (if run[0].ToolResult? && !DeclaredBy(lead, run[0].callId) then [] else [run[0]])
      + OwnedBy(lead, run[1..])
  }

  /** Stand-ins, in call order, for the `calls` that `run` leaves unanswered. */
  function StandIns(calls: seq<ToolCall>, run: seq<Item>, reason: DanglingReason): seq<Item> {
    if calls == [] then []
    else
      (if Answers(run, calls[0].id) then [] else [SyntheticResult(calls[0], reason)])
      + StandIns(calls[1..], run, reason)
  }

  /** The `calls`, in order, that `run` leaves unanswered. */
  function Unanswered(calls: seq<ToolCall>, run: seq<Item>): seq<ToolCall> {
    if calls == [] then []
    else (if Answers(run, calls[0].id) then [] else [calls[0]]) + Unanswered(calls[1..], run)
  }

  predicate Calling(lead: Option<Item>) {
    lead.Some? && Caller(lead.value)
  }

  function DedupRun(t: Turn): seq<Item> {
    if Calling(t.leader) then KeepLast(t.run) else t.run
  }

  function StripRun(t: Turn): seq<Item> {
    OwnedBy(t.leader, t.run)
  }

  function BackfillRun(t: Turn, reason: DanglingReason): seq<Item> {
    if Calling(t.leader) then t.run + StandIns(t.leader.value.toolCalls, t.run, reason) else t.run
  }

  function StripOnly(t: Turn): Turn {
    Turn(t.leader, StripRun(Turn(t.leader, DedupRun(t))))
  }

  /** All three passes on one turn. */
  function RepairTurn(t: Turn, reason: DanglingReason): Turn {
    Turn(t.leader, BackfillRun(StripOnly(t), reason))
  }

  lemma {:induction false} KeepLastResults(run: seq<Item>)
    requires AllResults(run)
    ensures AllResults(KeepLast(run))
  {
    if run != [] {
      assert forall k :: 0 <= k < |run[1..]| ==> run[1..][k] == run[k + 1];
      KeepLastResults(run[1..]);
    }
  }

  lemma {:induction false} OwnedByResults(lead: Option<Item>, run: seq<Item>)
    requires AllResults(run)
    ensures AllResults(OwnedBy(lead, run))
    ensures forall k :: 0 <= k < |OwnedBy(lead, run)| ==> DeclaredBy(lead, OwnedBy(lead, run)[k].callId)
  {
    if run != [] {
      assert forall k :: 0 <= k < |run[1..]| ==> run[1..][k] == run[k + 1];
      OwnedByResults(lead, run[1..]);
    }
  }

  lemma {:induction false} StandInsResults(calls: seq<ToolCall>, run: seq<Item>, reason: DanglingReason)
    ensures AllResults(StandIns(calls, run, reason))
    ensures forall k :: 0 <= k < |StandIns(calls, run, reason)| ==>
              exists c :: 0 <= c < |calls| && calls[c].id == StandIns(calls, run, reason)[k].callId
  {
    if calls != [] {
      StandInsResults(calls[1..], run, reason);
      var tail := StandIns(calls[1..], run, reason);
      var all := StandIns(calls, run, reason);
      forall k | 0 <= k < |all|
        ensures exists c :: 0 <= c < |calls| && calls[c].id == all[k].callId
      {
        var off := |all| - |tail|;
        if k < off {
          assert calls[0].id == all[k].callId;
        } else {
          assert all[k] == tail[k - off];
          var c :| 0 <= c < |calls[1..]| && calls[1..][c].id == tail[k - off].callId;
          assert calls[c + 1].id == all[k].callId;
        }
      }
    }
  }

  lemma {:induction false} KeepLastCount(run: seq<Item>, id: string)
    ensures AnswerCount(KeepLast(run), id) == if Answers(run, id) then 1 else 0
  {
    AnswerCountPositive(run, id);
    if run != [] {
      KeepLastCount(run[1..], id);
      AnswerCountPositive(run[1..], id);
      assert ([run[0]] + KeepLast(run[1..]))[1..] == KeepLast(run[1..]);
    }
  }

  /** The result that survives is the last one recorded for its call. */
  lemma {:induction false} KeepLastKeepsLast(run: seq<Item>, id: string)
    requires Answers(run, id)
    ensures LastAnswer(run, id) in KeepLast(run)
  {
    if Answers(run[1..], id) {
      KeepLastKeepsLast(run[1..], id);
    }
  }

  lemma {:induction false} OwnedByCount(lead: Option<Item>, run: seq<Item>, id: string)
    ensures AnswerCount(OwnedBy(lead, run), id) == if DeclaredBy(lead, id) then AnswerCount(run, id) else 0
  {
    if run != [] {
      OwnedByCount(lead, run[1..], id);
      assert ([run[0]] + OwnedBy(lead, run[1..]))[1..] == OwnedBy(lead, run[1..]);
      assert [] + OwnedBy(lead, run[1..]) == OwnedBy(lead, run[1..]);
    }
  }

  lemma {:induction false} OwnedByMember(lead: Option<Item>, run: seq<Item>, r: Item)
    requires r in run && r.ToolResult? && DeclaredBy(lead, r.callId)
    ensures r in OwnedBy(lead, run)
  {
    if run[0] != r {
      OwnedByMember(lead, run[1..], r);
    }
  }

  lemma {:induction false} StandInsCount(calls: seq<ToolCall>, run: seq<Item>, reason: DanglingReason, id: string)
    ensures AnswerCount(StandIns(calls, run, reason), id) == if Answers(run, id) then 0 else CallCount(calls, id)
  {
    if calls != [] {
      StandInsCount(calls[1..], run, reason, id);
      var head := if Answers(run, calls[0].id) then [] else [SyntheticResult(calls[0], reason)];
      AnswerCountConcat(head, StandIns(calls[1..], run, reason), id);
      if head != [] {
        assert head[1..] == [];
        assert AnswerCount(head, id) == if calls[0].id == id then 1 else 0;
      }
    }
  }

  /** How often each call is answered once its turn has been repaired. */
  lemma RepairedCount(t: Turn, reason: DanglingReason, id: string)
    requires t.leader.Some? && t.leader.value.Assistant?
    ensures AnswerCount(RepairTurn(t, reason).run, id)
         == if !DeclaredBy(t.leader, id) then 0
            else if Answers(t.run, id) then 1
            else CallCount(t.leader.value.toolCalls, id)
  {
    var calls := t.leader.value.toolCalls;
    var deduped := DedupRun(t);
    var kept := OwnedBy(t.leader, deduped);
    OwnedByCount(t.leader, deduped, id);
    CallCountPositive(calls, id);
    AnswerCountPositive(kept, id);
    AnswerCountPositive(t.run, id);
    if Calling(t.leader) {
      KeepLastCount(t.run, id);
      StandInsCount(calls, kept, reason, id);
      AnswerCountConcat(kept, StandIns(calls, kept, reason), id);
    } else {
      assert !DeclaredBy(t.leader, id);
    }
  }

  /** No id that `t` leaves unanswered is declared twice. */
  predicate NoDoubleUnanswered(t: Turn) {
    t.leader.Some? && t.leader.value.Assistant? ==>
      forall k :: 0 <= k < |t.leader.value.toolCalls| ==>
        var id := t.leader.value.toolCalls[k].id;
        Answers(t.run, id) || CallCount(t.leader.value.toolCalls, id) == 1
  }

  lemma RepairTurnResults(t: Turn, reason: DanglingReason)
    requires AllResults(t.run)
    ensures AllResults(RepairTurn(t, reason).run)
    ensures forall k :: 0 <= k < |RepairTurn(t, reason).run| ==>
              DeclaredBy(t.leader, RepairTurn(t, reason).run[k].callId)
  {
    KeepLastResults(t.run);
    OwnedByResults(t.leader, DedupRun(t));
    if Calling(t.leader) {
      StandInsResults(t.leader.value.toolCalls, StripOnly(t).run, reason);
    }
  }

  /** One repair pairs the turn exactly when it declares no unanswered id twice. */
  lemma RepairTurnPairs(t: Turn, reason: DanglingReason)
    requires AllResults(t.run)
    ensures PairedTurn(RepairTurn(t, reason)) <==> NoDoubleUnanswered(t)
  {
    RepairTurnResults(t, reason);
    if t.leader.Some? && t.leader.value.Assistant? {
      var calls := t.leader.value.toolCalls;
      forall k | 0 <= k < |calls|
        ensures AnswerCount(RepairTurn(t, reason).run, calls[k].id) == 1
           <==> Answers(t.run, calls[k].id) || CallCount(calls, calls[k].id) == 1
      {
        RepairedCount(t, reason, calls[k].id);
        assert DeclaredBy(t.leader, calls[k].id);
      }
    }
  }

  /** After one repair every declared call has an answer, so the next repair pairs the turn. */
  lemma RepairedTurnIsAnswered(t: Turn, reason: DanglingReason)
    requires AllResults(t.run)
    ensures NoDoubleUnanswered(RepairTurn(t, reason))
  {
    if t.leader.Some? && t.leader.value.Assistant? {
      var calls := t.leader.value.toolCalls;
      forall k | 0 <= k < |calls| ensures Answers(RepairTurn(t, reason).run, calls[k].id) {
        RepairedCount(t, reason, calls[k].id);
        CallCountPositive(calls, calls[k].id);
        assert DeclaredBy(t.leader, calls[k].id);
        AnswerCountPositive(RepairTurn(t, reason).run, calls[k].id);
      }
    }
  }

  /** No call is answered twice in `run`. */
  ghost predicate AtMostOnce(run: seq<Item>) {
    forall id :: AnswerCount(run, id) <= 1
  }

  lemma {:induction false} KeepLastSize(run: seq<Item>)
    ensures |KeepLast(run)| <= |run|
    ensures |KeepLast(run)| == |run| ==> KeepLast(run) == run
    ensures KeepLast(run) == run <==> AtMostOnce(run)
  {
    if run != [] {
      KeepLastSize(run[1..]);
      if KeepLast(run[1..]) == run[1..] {
        assert [run[0]] + run[1..] == run;
      }
      if KeepLast(run) == run {
        forall id ensures AnswerCount(run, id) <= 1 { KeepLastCount(run, id); }
      }
      if AtMostOnce(run) {
        forall id ensures AnswerCount(run[1..], id) <= 1 {
          assert AnswerCount(run, id) <= 1;
        }
        assert KeepLast(run[1..]) == run[1..];
        if run[0].ToolResult? {
          AnswerCountPositive(run[1..], run[0].callId);
          assert AnswerCount(run, run[0].callId) <= 1;
          assert !Answers(run[1..], run[0].callId);
        }
        assert KeepLast(run) == run;
      }
    }
  }

  lemma {:induction false} OwnedBySize(lead: Option<Item>, run: seq<Item>)
    ensures |OwnedBy(lead, run)| <= |run|
    ensures |OwnedBy(lead, run)| == |run| ==> OwnedBy(lead, run) == run
    ensures OwnedBy(lead, run) == run
       <==> forall k :: 0 <= k < |run| && run[k].ToolResult? ==> DeclaredBy(lead, run[k].callId)
  {
    if run != [] {
      OwnedBySize(lead, run[1..]);
      assert forall k :: 0 <= k < |run[1..]| ==> run[1..][k] == run[k + 1];
      assert run == [run[0]] + run[1..];
    }
  }

  lemma {:induction false} StandInsEmpty(calls: seq<ToolCall>, run: seq<Item>, reason: DanglingReason)
    ensures StandIns(calls, run, reason) == []
       <==> forall k :: 0 <= k < |calls| ==> Answers(run, calls[k].id)
  {
    if calls != [] {
      StandInsEmpty(calls[1..], run, reason);
      assert forall k :: 0 <= k < |calls[1..]| ==> calls[1..][k] == calls[k + 1];
    }
  }

  /** A turn is paired exactly when no pass changes its run. */
  lemma PairedTurnIsFixpoint(t: Turn, reason: DanglingReason)
    requires AllResults(t.run)
    ensures PairedTurn(t) <==> DedupRun(t) == t.run && StripRun(t) == t.run && BackfillRun(t, reason) == t.run
  {
    OwnedBySize(t.leader, t.run);
    if t.leader.Some? && t.leader.value.Assistant? {
      var calls := t.leader.value.toolCalls;
      KeepLastSize(t.run);
      StandInsEmpty(calls, t.run, reason);
      assert BackfillRun(t, reason) == t.run <==> StandIns(calls, t.run, reason) == [];
      forall k | 0 <= k < |calls| ensures Answers(t.run, calls[k].id) <==> AnswerCount(t.run, calls[k].id) > 0 {
        AnswerCountPositive(t.run, calls[k].id);
      }
      if PairedTurn(t) {
        forall id ensures AnswerCount(t.run, id) <= 1 {
          AnswerCountPositive(t.run, id);
          if Answers(t.run, id) {
            assert DeclaredBy(t.leader, id);
          }
        }
      }
    }
  }

  lemma PairedTurnUnchanged(t: Turn, reason: DanglingReason)
    requires AllResults(t.run) && PairedTurn(t)
    ensures RepairTurn(t, reason) == t
  {
    PairedTurnIsFixpoint(t, reason);
  }

  /** The last recorded result of a declared call is still there after the repair. */
  lemma RepairKeepsLastAnswer(t: Turn, reason: DanglingReason, id: string)
    requires AllResults(t.run) && Answers(t.run, id) && DeclaredBy(t.leader, id)
    ensures LastAnswer(t.run, id) in RepairTurn(t, reason).run
  {
    KeepLastKeepsLast(t.run, id);
    OwnedByMember(t.leader, KeepLast(t.run), LastAnswer(t.run, id));
  }

  /** `r` stands in for a call of `t`'s leader that `t.run` leaves unanswered. */
  predicate IsStandIn(t: Turn, r: Item, reason: DanglingReason) {
    && Calling(t.leader)
    && var calls := t.leader.value.toolCalls;
       exists c :: 0 <= c < |calls| && r == SyntheticResult(calls[c], reason) && !Answers(t.run, calls[c].id)
  }

  lemma {:induction false} KeepLastMember(run: seq<Item>, r: Item)
    requires r in KeepLast(run)
    ensures r in run
  {
    if r != run[0] || (run[0].ToolResult? && Answers(run[1..], run[0].callId)) {
      KeepLastMember(run[1..], r);
    }
  }

  lemma {:induction false} OwnedByFrom(lead: Option<Item>, run: seq<Item>, r: Item)
    requires r in OwnedBy(lead, run)
    ensures r in run
  {
    if r != run[0] {
      OwnedByFrom(lead, run[1..], r);
    }
  }

  /** The stand-ins are those of the unanswered calls, one each and in their order. */
  lemma {:induction false} StandInsAre(calls: seq<ToolCall>, run: seq<Item>, reason: DanglingReason)
    ensures var u, r := Unanswered(calls, run), StandIns(calls, run, reason);
            |r| == |u| && forall k :: 0 <= k < |u| ==> r[k] == ToolResult(u[k].id, SyntheticText(u[k].name, reason), [])
  {
    if calls != [] {
      hide SyntheticText;
      StandInsAre(calls[1..], run, reason);
    }
  }

  /** Runs that answer the same of the `calls` leave the same of them unanswered. */
  lemma {:induction false} SameUnanswered(calls: seq<ToolCall>, a: seq<Item>, b: seq<Item>)
    requires forall k :: 0 <= k < |calls| ==> (Answers(a, calls[k].id) <==> Answers(b, calls[k].id))
    ensures Unanswered(calls, a) == Unanswered(calls, b)
  {
    if calls != [] {
      hide Answers;
      assert forall k :: 0 <= k < |calls[1..]| ==> calls[1..][k] == calls[k + 1];
      SameUnanswered(calls[1..], a, b);
    }
  }

  /** Deduplicating and stripping a run leaves the declared calls answered that were. */
  lemma StrippingAnswers(t: Turn, id: string)
    requires DeclaredBy(t.leader, id)
    ensures Answers(StripOnly(t).run, id) <==> Answers(t.run, id)
  {
    OwnedByCount(t.leader, DedupRun(t), id);
    AnswerCountPositive(StripOnly(t).run, id);
    AnswerCountPositive(t.run, id);
    if Calling(t.leader) { KeepLastCount(t.run, id); }
  }

  lemma CallsDeclared(t: Turn)
    requires Calling(t.leader)
    ensures var calls := t.leader.value.toolCalls; forall k :: 0 <= k < |calls| ==> DeclaredBy(t.leader, calls[k].id)
  {
  }

  lemma StrippingUnanswered(t: Turn)
    requires Calling(t.leader)
    ensures Unanswered(t.leader.value.toolCalls, StripOnly(t).run) == Unanswered(t.leader.value.toolCalls, t.run)
  {
    CallsDeclared(t);
    hide Unanswered, Answers, DeclaredBy, StripOnly;
    var calls := t.leader.value.toolCalls;
    forall k | 0 <= k < |calls| ensures Answers(StripOnly(t).run, calls[k].id) <==> Answers(t.run, calls[k].id) {
      StrippingAnswers(t, calls[k].id);
    }
    SameUnanswered(calls, StripOnly(t).run, t.run);
  }

  /** The results of a turn that stay: owned by the leader, and the last of their call. */
  function Staying(t: Turn): seq<bool>
    requires AllResults(t.run)
  {
    seq(|t.run|, k requires 0 <= k < |t.run| =>
      DeclaredBy(t.leader, t.run[k].callId) && !Answers(t.run[k + 1..], t.run[k].callId))
  }

  lemma StayingCons(lead: Option<Item>, x: Item, rest: seq<Item>)
    requires AllResults([x] + rest) && AllResults(rest) && x.ToolResult?
    ensures Staying(Turn(lead, [x] + rest))
         == [DeclaredBy(lead, x.callId) && !Answers(rest, x.callId)] + Staying(Turn(lead, rest))
  {
    hide DeclaredBy, Answers, Staying;
    var run := [x] + rest;
    var t, u := Turn(lead, run), Turn(lead, rest);
    StayingSize(t);
    StayingSize(u);
    StayingAt(t, 0);
    assert run[1..] == rest;
    forall k | 0 <= k < |rest| ensures Staying(t)[k + 1] == Staying(u)[k] {
      StayingAt(t, k + 1);
      StayingAt(u, k);
      assert run[k + 2..] == rest[k + 1..];
    }
  }

  lemma StayingAt(t: Turn, k: nat)
    requires AllResults(t.run) && k < |t.run|
    ensures |Staying(t)| == |t.run|
    ensures Staying(t)[k]
       <==> DeclaredBy(t.leader, t.run[k].callId) && !Answers(t.run[k + 1..], t.run[k].callId)
  {
    hide DeclaredBy, Answers;
  }

  lemma KeptHead(lead: Option<Item>, x: Item, rest: seq<Item>)
    requires x.ToolResult?
    ensures OwnedBy(lead, KeepLast([x] + rest))
         == (if DeclaredBy(lead, x.callId) && !Answers(rest, x.callId) then [x] else []) + OwnedBy(lead, KeepLast(rest))
  {
    hide DeclaredBy, Answers;
    assert ([x] + rest)[1..] == rest;
    assert ([x] + KeepLast(rest))[1..] == KeepLast(rest);
  }

  lemma {:induction false} StayingIs(lead: Option<Item>, run: seq<Item>)
    requires AllResults(run) && Calling(lead)
    ensures OwnedBy(lead, KeepLast(run)) == Pick(run, Staying(Turn(lead, run)))
  {
    if run == [] {
      PickNothing(run, Staying(Turn(lead, run)));
    } else {
      var x, rest := run[0], run[1..];
      assert run == [x] + rest && AllResults(rest);
      hide DeclaredBy, Answers, Pick, KeepLast, OwnedBy, Staying;
      StayingIs(lead, rest);
      StayingCons(lead, x, rest);
      KeptHead(lead, x, rest);
      var keep := DeclaredBy(lead, x.callId) && !Answers(rest, x.callId);
      StayingSize(Turn(lead, rest));
      PickConcat([x], rest, [keep], Staying(Turn(lead, rest)));
      PickOne(x, keep);
    }
  }

  lemma StayingSize(t: Turn)
    requires AllResults(t.run)
    ensures |Staying(t)| == |t.run|
  {
  }

  lemma PickOne<T>(x: T, keep: bool)
    ensures Pick([x], [keep]) == if keep then [x] else []
  {
  }

  lemma PickNothing<T>(s: seq<T>, mask: seq<bool>)
    requires s == [] && mask == []
    ensures Pick(s, mask) == []
  {
  }

  lemma {:induction false} NothingOwned(lead: Option<Item>, run: seq<Item>, mask: seq<bool>)
    requires AllResults(run) && |mask| == |run| && forall k :: 0 <= k < |run| ==> !mask[k]
    requires forall k :: 0 <= k < |run| ==> !DeclaredBy(lead, run[k].callId)
    ensures OwnedBy(lead, run) == [] == Pick(run, mask)
  {
    if run != [] {
      hide DeclaredBy, Pick;
      var rest := run[1..];
      assert forall k :: 0 <= k < |rest| ==> rest[k] == run[k + 1] && mask[1..][k] == mask[k + 1];
      NothingOwned(lead, rest, mask[1..]);
      PickConcat([run[0]], rest, [mask[0]], mask[1..]);
      PickOne(run[0], mask[0]);
      assert run == [run[0]] + rest && mask == [mask[0]] + mask[1..];
    } else {
      PickNothing(run, mask);
    }
  }

  /** A repaired run: of its results those that stay, in order, and behind them one stand-in
      for each call it leaves unanswered, in call order. */
  lemma RepairedRunIs(t: Turn, reason: DanglingReason)
    requires AllResults(t.run)
    ensures var kept, u := Pick(t.run, Staying(t)),
                           if Calling(t.leader) then Unanswered(t.leader.value.toolCalls, t.run) else [];
            var run := RepairTurn(t, reason).run;
            && |run| == |kept| + |u| && run[..|kept|] == kept
            && forall k :: 0 <= k < |u| ==> run[|kept| + k] == ToolResult(u[k].id, SyntheticText(u[k].name, reason), [])
  {
    hide Pick, Unanswered, SyntheticText, StandIns, KeepLast, OwnedBy, Answers;
    if Calling(t.leader) {
      StayingIs(t.leader, t.run);
      StrippingUnanswered(t);
      StandInsAre(t.leader.value.toolCalls, StripOnly(t).run, reason);
      assert t == Turn(t.leader, t.run);
    } else {
      assert forall k :: 0 <= k < |t.run| ==> !DeclaredBy(t.leader, t.run[k].callId);
      NothingOwned(t.leader, t.run, Staying(t));
    }
  }

  lemma {:induction false} StandInsMember(calls: seq<ToolCall>, run: seq<Item>, reason: DanglingReason, r: Item)
    requires r in StandIns(calls, run, reason)
    ensures exists c :: 0 <= c < |calls| && r == SyntheticResult(calls[c], reason) && !Answers(run, calls[c].id)
  {
    if r == SyntheticResult(calls[0], reason) && !Answers(run, calls[0].id) {
    } else {
      StandInsMember(calls[1..], run, reason, r);
      var c :| 0 <= c < |calls[1..]| && r == SyntheticResult(calls[1..][c], reason) && !Answers(run, calls[1..][c].id);
      assert calls[1..][c] == calls[c + 1];
    }
  }

  /** From `before` to `after` the leader stays, the last recorded result of each
      declared call stays, and nothing but stand-ins is added. */
  ghost predicate Preserves(before: Turn, after: Turn, reason: DanglingReason) {
    && after.leader == before.leader
    && (forall id :: Answers(before.run, id) && DeclaredBy(before.leader, id) ==>
          LastAnswer(before.run, id) in after.run)
    && (forall r :: r in after.run ==> r in before.run || IsStandIn(before, r, reason))
  }

  lemma RepairTurnPreserves(t: Turn, reason: DanglingReason)
    requires AllResults(t.run)
    ensures Preserves(t, RepairTurn(t, reason), reason)
  {
    hide Answers, DeclaredBy, IsStandIn, LastAnswer, BackfillRun;
    forall id | Answers(t.run, id) && DeclaredBy(t.leader, id)
      ensures LastAnswer(t.run, id) in RepairTurn(t, reason).run
    {
      RepairKeepsLastAnswer(t, reason, id);
    }
    forall r | r in RepairTurn(t, reason).run ensures r in t.run || IsStandIn(t, r, reason) {
      RepairAddsStandIns(t, r, reason);
    }
  }

  lemma RepairAddsStandIns(t: Turn, r: Item, reason: DanglingReason)
    requires AllResults(t.run) && r in RepairTurn(t, reason).run
    ensures r in t.run || IsStandIn(t, r, reason)
  {
    var deduped := DedupRun(t);
    var kept := OwnedBy(t.leader, deduped);
    if r in kept {
      OwnedByFrom(t.leader, deduped, r);
      if Calling(t.leader) {
        KeepLastMember(t.run, r);
      }
    } else {
      var calls := t.leader.value.toolCalls;
      StandInsMember(calls, kept, reason, r);
      var c :| 0 <= c < |calls| && r == SyntheticResult(calls[c], reason) && !Answers(kept, calls[c].id);
      var id := calls[c].id;
      assert DeclaredBy(t.leader, id);
      OwnedByCount(t.leader, deduped, id);
      KeepLastCount(t.run, id);
      AnswerCountPositive(kept, id);
    }
  }
}
