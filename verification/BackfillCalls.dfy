/** `repair_dangling_tool_calls`: a forward scan records, for each calling
    Assistant, the stand-ins its run lacks; a second phase splices them in from
    the back so that earlier positions stay valid. */
module BackfillCalls {
  import opened Options
  import opened Conversation
  import opened Turns
  import opened RunRepair
  import opened DedupResults

  function Backfilling(reason: DanglingReason): Turn -> seq<Item> {
    (t: Turn) => BackfillRun(t, reason)
  }

  lemma BackfillShape(reason: DanglingReason)
    ensures OnlyCallers(Backfilling(reason)) && YieldsResults(Backfilling(reason))
  {
    forall t: Turn | AllResults(t.run) ensures AllResults(Backfilling(reason)(t)) {
      if Calling(t.leader) {
        StandInsResults(t.leader.value.toolCalls, t.run, reason);
      }
    }
  }

  datatype Splice = Splice(at: nat, items: seq<Item>)

  ghost predicate InOrder(repairs: seq<Splice>, limit: nat) {
    forall k :: 0 <= k < |repairs| ==>
      repairs[k].at <= limit && forall j :: 0 <= j < k ==> repairs[j].at <= repairs[k].at
  }

  /** `conv` with every recorded splice inserted at its original position. */
  function Spliced(conv: seq<Item>, repairs: seq<Splice>): seq<Item>
    decreases |repairs|
  {
    if repairs == [] then conv
    else
      var last := repairs[|repairs| - 1];
      var at := if last.at <= |conv| then last.at else |conv|;
      Spliced(conv[..at], repairs[..|repairs| - 1]) + last.items + conv[at..]
  }

  lemma {:induction false} SplicedTail(a: seq<Item>, b: seq<Item>, repairs: seq<Splice>)
    requires InOrder(repairs, |a|)
    ensures Spliced(a + b, repairs) == Spliced(a, repairs) + b
  {
    if repairs != [] {
      var last := repairs[|repairs| - 1];
      assert (a + b)[..last.at] == a[..last.at];
      assert (a + b)[last.at..] == a[last.at..] + b;
    }
  }

  /** Inserting the last recorded splice first leaves the earlier ones in place. */
  lemma SplicedLast(conv: seq<Item>, repairs: seq<Splice>)
    requires repairs != [] && InOrder(repairs, |conv|)
    ensures var last := repairs[|repairs| - 1];
            var next := conv[..last.at] + last.items + conv[last.at..];
            Spliced(next, repairs[..|repairs| - 1]) == Spliced(conv, repairs)
            && InOrder(repairs[..|repairs| - 1], |next|)
  {
    var last := repairs[|repairs| - 1];
    var left := repairs[..|repairs| - 1];
    assert InOrder(left, last.at);
    SplicedTail(conv[..last.at], last.items + conv[last.at..], left);
    assert conv[..last.at] + (last.items + conv[last.at..]) == conv[..last.at] + last.items + conv[last.at..];
  }

  function TotalSpliced(repairs: seq<Splice>): nat {
    if repairs == [] then 0
    else TotalSpliced(repairs[..|repairs| - 1]) + |repairs[|repairs| - 1].items|
  }

  lemma TotalSnoc(repairs: seq<Splice>, last: Splice)
    ensures TotalSpliced(repairs + [last]) == TotalSpliced(repairs) + |last.items|
  {
    assert (repairs + [last])[..|repairs|] == repairs;
  }

  /** A scan standing at `i` with `repairs` recorded still computes `target`. */
  ghost predicate Recording(target: seq<Item>, f: Turn -> seq<Item>, conv: seq<Item>, i: nat, repairs: seq<Splice>) {
    && i <= |conv| && InOrder(repairs, i)
    && target == Spliced(conv[..i], repairs) + Rewrite(conv[i..], f)
  }

  lemma RecordingStart(f: Turn -> seq<Item>, conv: seq<Item>)
    requires OnlyCallers(f)
    ensures Recording(Rewrite(conv, f), f, conv, 0, [])
  {
    assert conv[..0] == [] && conv[0..] == conv;
  }

  lemma RecordingDone(target: seq<Item>, f: Turn -> seq<Item>, conv: seq<Item>, repairs: seq<Splice>)
    requires Recording(target, f, conv, |conv|, repairs) && OnlyCallers(f)
    ensures target == Spliced(conv, repairs) && InOrder(repairs, |conv|)
  {
    assert conv[..|conv|] == conv && conv[|conv|..] == [];
    assert f(Turn(None, [])) == [];
    assert Rewrite([], f) == [];
  }

  lemma RecordPlain(target: seq<Item>, f: Turn -> seq<Item>, conv: seq<Item>, i: nat, repairs: seq<Splice>)
    requires Recording(target, f, conv, i, repairs) && i < |conv| && !Caller(conv[i]) && OnlyCallers(f)
    ensures Recording(target, f, conv, i + 1, repairs)
  {
    hide Spliced, RewriteFrom;
    StepPlain(conv[i], conv[i + 1..], f);
    assert conv[i..] == [conv[i]] + conv[i + 1..];
    assert conv[..i + 1] == conv[..i] + [conv[i]];
    SplicedTail(conv[..i], [conv[i]], repairs);
    Reassociate(Spliced(conv[..i], repairs), [conv[i]], RewriteFrom(None, conv[i + 1..], f));
  }

  lemma Reassociate<T>(a: seq<T>, b: seq<T>, c: seq<T>)
    ensures a + (b + c) == (a + b) + c
  {
  }

  lemma RewriteAtRun(f: Turn -> seq<Item>, conv: seq<Item>, i: nat, end: nat, extra: seq<Item>)
    requires i < |conv| && Caller(conv[i]) && OnlyCallers(f)
    requires ResultsBetween(conv, i + 1, end) && (end < |conv| ==> !conv[end].ToolResult?)
    requires f(Turn(Some(conv[i]), conv[i + 1..end])) == conv[i + 1..end] + extra
    ensures Rewrite(conv[i..], f) == conv[i..end] + (extra + Rewrite(conv[end..], f))
  {
    hide RewriteFrom, RunLength;
    ResultsBetweenSlice(conv, i + 1, end);
    CutAtRun(conv, i, end);
    StepCaller(conv[i], conv[i + 1..end], conv[end..], f);
    Regroup([conv[i]], conv[i + 1..end], extra, Rewrite(conv[end..], f));
    assert conv[i..end] == [conv[i]] + conv[i + 1..end];
  }

  lemma Regroup<T>(a: seq<T>, b: seq<T>, c: seq<T>, d: seq<T>)
    ensures a + (b + c) + d == (a + b) + (c + d)
    ensures a + (b + (c + d)) == (a + b) + c + d
  {
  }

  /** Stepping over a calling Assistant and its run, with `extra` added behind the run. */
  lemma RecordRun(target: seq<Item>, f: Turn -> seq<Item>, conv: seq<Item>, i: nat, end: nat,
                  repairs: seq<Splice>, extra: seq<Item>)
    requires Recording(target, f, conv, i, repairs) && i < end <= |conv|
    requires Rewrite(conv[i..], f) == conv[i..end] + (extra + Rewrite(conv[end..], f))
    ensures Recording(target, f, conv, end, repairs + [Splice(end, extra)])
    ensures extra == [] ==> Recording(target, f, conv, end, repairs)
  {
    hide Spliced, RewriteFrom, Rewrite;
    SplicedTail(conv[..i], conv[i..end], repairs);
    assert conv[..end] == conv[..i] + conv[i..end];
    SplicedSnoc(conv[..end], repairs, extra);
    Regroup(Spliced(conv[..i], repairs), conv[i..end], extra, Rewrite(conv[end..], f));
    assert extra == [] ==> Spliced(conv[..end], repairs) + extra == Spliced(conv[..end], repairs);
  }

  lemma SplicedSnoc(conv: seq<Item>, repairs: seq<Splice>, extra: seq<Item>)
    ensures Spliced(conv, repairs + [Splice(|conv|, extra)]) == Spliced(conv, repairs) + extra
  {
    var more := repairs + [Splice(|conv|, extra)];
    assert more[..|more| - 1] == repairs;
    assert conv[..|conv|] == conv && conv[|conv|..] == [];
  }

  lemma StandInsStep(calls: seq<ToolCall>, c: nat, run: seq<Item>, reason: DanglingReason)
    requires c < |calls|
    ensures StandIns(calls[c..], run, reason)
         == (if Answers(run, calls[c].id) then [] else [SyntheticResult(calls[c], reason)])
            + StandIns(calls[c + 1..], run, reason)
  {
    assert calls[c..][1..] == calls[c + 1..];
  }

  method AnsweredIds(run: seq<Item>) returns (answered: set<string>)
    requires AllResults(run)
    ensures forall id :: id in answered <==> Answers(run, id)
  {
    answered := {};
    for j := 0 to |run|
      invariant forall id :: id in answered <==> exists k :: 0 <= k < j && run[k].callId == id
    {
      answered := answered + {run[j].callId};
    }
  }

  method UnansweredStandIns(calls: seq<ToolCall>, run: seq<Item>, reason: DanglingReason) returns (synthetic: seq<Item>)
    requires AllResults(run)
    ensures synthetic == StandIns(calls, run, reason)
  {
    var answered := AnsweredIds(run);
    hide StandIns, Answers, SyntheticResult;
    synthetic := [];
    assert calls[0..] == calls;
    for c := 0 to |calls|
      invariant synthetic + StandIns(calls[c..], run, reason) == StandIns(calls, run, reason)
    {
      StandInsStep(calls, c, run, reason);
      Reassociate(synthetic, [SyntheticResult(calls[c], reason)], StandIns(calls[c + 1..], run, reason));
      if calls[c].id !in answered {
        synthetic := synthetic + [SyntheticResult(calls[c], reason)];
      }
    }
    NoStandIns(calls[|calls|..], run, reason);
  }

  lemma NoStandIns(calls: seq<ToolCall>, run: seq<Item>, reason: DanglingReason)
    requires calls == []
    ensures StandIns(calls, run, reason) == []
  {
  }

  lemma RecordCaller(target: seq<Item>, conv: seq<Item>, i: nat, end: nat, repairs: seq<Splice>, reason: DanglingReason)
    requires Recording(target, Backfilling(reason), conv, i, repairs) && i < |conv| && Caller(conv[i])
    requires ResultsBetween(conv, i + 1, end) && (end < |conv| ==> !conv[end].ToolResult?)
    ensures var extra := StandIns(conv[i].toolCalls, conv[i + 1..end], reason);
            && Recording(target, Backfilling(reason), conv, end, repairs + [Splice(end, extra)])
            && (extra == [] ==> Recording(target, Backfilling(reason), conv, end, repairs))
  {
    var extra := StandIns(conv[i].toolCalls, conv[i + 1..end], reason);
    BackfillShape(reason);
    RewriteAtRun(Backfilling(reason), conv, i, end, extra);
    RecordRun(target, Backfilling(reason), conv, i, end, repairs, extra);
  }

  method RepairDanglingToolCalls(items: seq<Item>, reason: DanglingReason)
    returns (conv: seq<Item>, inserted: nat)
    ensures conv == Rewrite(items, Backfilling(reason))
    ensures |conv| == |items| + inserted
  {
    var repairs: seq<Splice> := [];
    var i := 0;
    inserted := 0;
    ghost var f := Backfilling(reason);
    ghost var target := Rewrite(items, f);
    BackfillShape(reason);
    RecordingStart(f, items);
    hide Recording, Rewrite, Backfilling, StandIns, TotalSpliced, OnlyCallers, AllResults;
    while i < |items|
      invariant Recording(target, f, items, i, repairs)
      invariant inserted == TotalSpliced(repairs)
    {
      if Caller(items[i]) {
        var end := RunEnd(items, i + 1);
        ResultsBetweenSlice(items, i + 1, end);
        var synthetic := UnansweredStandIns(items[i].toolCalls, items[i + 1..end], reason);
        RecordCaller(target, items, i, end, repairs, reason);
        if synthetic != [] {
          TotalSnoc(repairs, Splice(end, synthetic));
          repairs := repairs + [Splice(end, synthetic)];
          inserted := inserted + |synthetic|;
        }
        i := end;
      } else {
        RecordPlain(target, f, items, i, repairs);
        i := i + 1;
      }
    }
    RecordingDone(target, f, items, repairs);
    conv := ApplySplices(items, repairs);
  }

  /** Phase 2: splices go in from the last to the first. */
  method ApplySplices(items: seq<Item>, all: seq<Splice>) returns (conv: seq<Item>)
    requires InOrder(all, |items|)
    ensures conv == Spliced(items, all) && |conv| == |items| + TotalSpliced(all)
  {
    conv := items;
    var repairs := all;
    while repairs != []
      invariant InOrder(repairs, |conv|) && Spliced(conv, repairs) == Spliced(items, all)
      invariant |conv| + TotalSpliced(repairs) == |items| + TotalSpliced(all)
      decreases |repairs|
    {
      var last := repairs[|repairs| - 1];
      SplicedLast(conv, repairs);
      conv := conv[..last.at] + last.items + conv[last.at..];
      repairs := repairs[..|repairs| - 1];
    }
  }
}
