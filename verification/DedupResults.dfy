/** `dedup_duplicate_tool_results`: an index scan that, at each calling
    Assistant, removes all but the last result of each call from its run. */
module DedupResults {
  import opened Options
  import opened Conversation
  import opened Turns
  import opened RunRepair

  lemma DedupRunShape()
    ensures OnlyCallers(DedupRun) && YieldsResults(DedupRun)
  {
    forall t: Turn | AllResults(t.run) ensures AllResults(DedupRun(t)) {
      KeepLastResults(t.run);
    }
  }

  predicate ResultsBetween(conv: seq<Item>, start: nat, end: nat) {
    start <= end <= |conv| && forall k :: start <= k < end ==> conv[k].ToolResult?
  }

  lemma ResultsBetweenSlice(conv: seq<Item>, start: nat, end: nat)
    requires ResultsBetween(conv, start, end)
    ensures AllResults(conv[start..end])
  {
    assert forall k :: 0 <= k < end - start ==> conv[start..end][k] == conv[start + k];
  }

  /** The result at `idx` is followed, before `end`, by another for the same call. */
  predicate Superseded(conv: seq<Item>, idx: int, end: nat)
    requires end <= |conv|
  {
    0 <= idx < end && conv[idx].ToolResult?
    && exists j :: idx < j < end && conv[j].ToolResult? && conv[j].callId == conv[idx].callId
  }

  lemma KeepLastStep(conv: seq<Item>, idx: nat, end: nat)
    requires idx < end <= |conv| && conv[idx].ToolResult?
    ensures KeepLast(conv[idx..end])
         == (if Superseded(conv, idx, end) then [] else [conv[idx]]) + KeepLast(conv[idx + 1..end])
  {
    var run := conv[idx..end];
    assert run[1..] == conv[idx + 1..end];
    if Superseded(conv, idx, end) {
      var j :| idx < j < end && conv[j].ToolResult? && conv[j].callId == conv[idx].callId;
      assert run[1..][j - idx - 1] == conv[j];
    } else {
      assert forall k :: 0 <= k < |run[1..]| ==> run[1..][k] == conv[idx + 1 + k];
    }
  }

  /** Some position is superseded exactly when deduplication shortens the run. */
  lemma {:induction false} SupersededShrinks(conv: seq<Item>, start: nat, end: nat)
    requires ResultsBetween(conv, start, end)
    ensures (forall idx: nat :: start <= idx < end ==> !Superseded(conv, idx, end))
       <==> KeepLast(conv[start..end]) == conv[start..end]
    decreases end - start
  {
    if start < end {
      hide KeepLast, Superseded;
      KeepLastStep(conv, start, end);
      KeepLastSize(conv[start + 1..end]);
      SupersededShrinks(conv, start + 1, end);
      assert conv[start..end] == [conv[start]] + conv[start + 1..end];
    }
  }

  method FindDuplicates(conv: seq<Item>, start: nat, end: nat) returns (toRemove: set<nat>)
    requires ResultsBetween(conv, start, end)
    ensures forall idx: nat :: idx in toRemove <==> start <= idx < end && Superseded(conv, idx, end)
  {
    var seen: map<string, nat> := map[];
    toRemove := {};
    for idx := start to end
      invariant forall id :: id in seen ==> start <= seen[id] < idx && conv[seen[id]].callId == id
      invariant forall j: nat :: start <= j < idx ==> conv[j].callId in seen && j <= seen[conv[j].callId]
      invariant forall j: nat :: j in toRemove <==> start <= j < idx && Superseded(conv, j, idx)
    {
      var id := conv[idx].callId;
      if id in seen {
        toRemove := toRemove + {seen[id]};
        assert Superseded(conv, seen[id], idx + 1);
      }
      seen := seen[id := idx];
    }
  }

  /** Position `idx` of `conv`, behind which `kept` has replaced a stretch. */
  lemma Around(conv: seq<Item>, idx: nat, kept: seq<Item>, rest: seq<Item>)
    requires idx < |conv|
    ensures var out := conv[..idx + 1] + kept + rest;
            out[..idx] + out[idx + 1..] == conv[..idx] + ([] + kept) + rest
            && out == conv[..idx] + ([conv[idx]] + kept) + rest
  {
    var out := conv[..idx + 1] + kept + rest;
    assert conv[..idx + 1] == conv[..idx] + [conv[idx]];
    assert out[..idx] == conv[..idx] && out[idx + 1..] == kept + rest;
  }

  method RemoveAll(conv: seq<Item>, start: nat, end: nat, toRemove: set<nat>) returns (out: seq<Item>)
    requires ResultsBetween(conv, start, end)
    requires forall idx: nat :: idx in toRemove <==> start <= idx < end && Superseded(conv, idx, end)
    ensures out == conv[..start] + KeepLast(conv[start..end]) + conv[end..]
  {
    out := conv;
    assert conv == conv[..end] + KeepLast(conv[end..end]) + conv[end..];
    hide KeepLast, Superseded;
    for idx := end downto start
      invariant out == conv[..idx] + KeepLast(conv[idx..end]) + conv[end..]
    {
      KeepLastStep(conv, idx, end);
      Around(conv, idx, KeepLast(conv[idx + 1..end]), conv[end..]);
      if idx in toRemove {
        out := out[..idx] + out[idx + 1..];
      }
    }
  }

  method RunEnd(conv: seq<Item>, start: nat) returns (end: nat)
    requires start <= |conv|
    ensures ResultsBetween(conv, start, end)
    ensures end < |conv| ==> !conv[end].ToolResult?
  {
    end := start;
    while end < |conv|
      invariant ResultsBetween(conv, start, end)
    {
      if conv[end].ToolResult? {
        end := end + 1;
      } else {
        break;
      }
    }
  }

  lemma {:induction false} KeepLastTwice(run: seq<Item>)
    ensures KeepLast(KeepLast(run)) == KeepLast(run)
  {
    forall id ensures AnswerCount(KeepLast(run), id) <= 1 {
      KeepLastCount(run, id);
    }
    KeepLastSize(KeepLast(run));
  }

  /** Rescanning from the same Assistant after removing its duplicates gives the same outcome. */
  lemma RescanAfterRemoval(x: Item, run: seq<Item>, rest: seq<Item>)
    requires Caller(x) && AllResults(run) && (rest == [] || !rest[0].ToolResult?)
    ensures Rewrite([x] + KeepLast(run) + rest, DedupRun) == Rewrite([x] + run + rest, DedupRun)
    ensures Rewrite([x] + run + rest, DedupRun) == [x] + KeepLast(run) + Rewrite(rest, DedupRun)
  {
    DedupRunShape();
    KeepLastResults(run);
    KeepLastTwice(run);
    StepCaller(x, run, rest, DedupRun);
    StepCaller(x, KeepLast(run), rest, DedupRun);
  }

  /** A left-to-right scan of `conv` that stands at `i` still computes `target`. */
  ghost predicate Scanning(target: seq<Item>, f: Turn -> seq<Item>, conv: seq<Item>, i: nat) {
    i <= |conv| && target == conv[..i] + Rewrite(conv[i..], f)
  }

  lemma ScanOverPlain(target: seq<Item>, f: Turn -> seq<Item>, conv: seq<Item>, i: nat)
    requires Scanning(target, f, conv, i) && i < |conv| && !Caller(conv[i]) && OnlyCallers(f)
    ensures Scanning(target, f, conv, i + 1)
  {
    hide RewriteFrom, RunLength, Caller, OnlyCallers;
    StepPlain(conv[i], conv[i + 1..], f);
    assert conv[i..] == [conv[i]] + conv[i + 1..];
    assert conv[..i + 1] == conv[..i] + [conv[i]];
  }

  lemma CutAtRun(conv: seq<Item>, i: nat, end: nat)
    requires i < end <= |conv|
    ensures conv[i..] == [conv[i]] + conv[i + 1..end] + conv[end..]
    ensures conv[..end] == conv[..i] + [conv[i]] + conv[i + 1..end]
  {
  }

  lemma ScanOverRun(target: seq<Item>, conv: seq<Item>, i: nat, end: nat)
    requires Scanning(target, DedupRun, conv, i) && i < |conv| && Caller(conv[i])
    requires ResultsBetween(conv, i + 1, end) && (end < |conv| ==> !conv[end].ToolResult?)
    ensures var kept := KeepLast(conv[i + 1..end]);
            target == conv[..i] + ([conv[i]] + kept + Rewrite(conv[end..], DedupRun))
            && Rewrite([conv[i]] + kept + conv[end..], DedupRun) == [conv[i]] + kept + Rewrite(conv[end..], DedupRun)
  {
    ResultsBetweenSlice(conv, i + 1, end);
    RescanAfterRemoval(conv[i], conv[i + 1..end], conv[end..]);
    CutAtRun(conv, i, end);
  }

  lemma ScanSkip(target: seq<Item>, conv: seq<Item>, i: nat, end: nat)
    requires i < end <= |conv|
    requires target == conv[..i] + ([conv[i]] + conv[i + 1..end] + Rewrite(conv[end..], DedupRun))
    ensures Scanning(target, DedupRun, conv, end)
  {
    CutAtRun(conv, i, end);
  }

  lemma ScanRemoved(target: seq<Item>, done: seq<Item>, x: Item, kept: seq<Item>, rest: seq<Item>, out: seq<Item>)
    requires target == done + ([x] + kept + Rewrite(rest, DedupRun))
    requires Rewrite([x] + kept + rest, DedupRun) == [x] + kept + Rewrite(rest, DedupRun)
    requires out == done + [x] + kept + rest
    ensures Scanning(target, DedupRun, out, |done|)
  {
    assert out[..|done|] == done && out[|done|..] == [x] + kept + rest;
  }

  lemma ScanEnds(target: seq<Item>, f: Turn -> seq<Item>, conv: seq<Item>)
    requires OnlyCallers(f)
    ensures Scanning(Rewrite(conv, f), f, conv, 0)
    ensures Scanning(target, f, conv, |conv|) ==> conv == target
  {
    assert conv[0..] == conv && conv[|conv|..] == [] && conv[..|conv|] == conv;
    assert f(Turn(None, [])) == [];
  }

  /** Nothing to remove means a run already deduplicated, and otherwise it shrinks. */
  lemma RemovalShrinks(conv: seq<Item>, start: nat, end: nat, toRemove: set<nat>)
    requires ResultsBetween(conv, start, end)
    requires forall idx: nat :: idx in toRemove <==> start <= idx < end && Superseded(conv, idx, end)
    ensures toRemove == {} ==> KeepLast(conv[start..end]) == conv[start..end]
    ensures toRemove != {} ==> |KeepLast(conv[start..end])| < end - start
  {
    hide KeepLast, Superseded;
    SupersededShrinks(conv, start, end);
    KeepLastSize(conv[start..end]);
    if toRemove != {} {
      var idx :| idx in toRemove;
      assert Superseded(conv, idx, end);
    }
  }

  lemma ResultsBetweenBounds(conv: seq<Item>, start: nat, end: nat)
    requires ResultsBetween(conv, start, end)
    ensures start <= end <= |conv|
  {
  }

  lemma ScanInside(target: seq<Item>, f: Turn -> seq<Item>, conv: seq<Item>, i: nat)
    requires Scanning(target, f, conv, i)
    ensures i <= |conv|
  {
  }

  method DedupDuplicateToolResults(items: seq<Item>) returns (conv: seq<Item>, removed: nat)
    ensures conv == Rewrite(items, DedupRun)
    ensures removed + |conv| == |items|
  {
    hide *;
    conv, removed := items, 0;
    var i := 0;
    ghost var target := Rewrite(items, DedupRun);
    DedupRunShape();
    ScanEnds(target, DedupRun, items);
    while i < |conv|
      invariant removed + |conv| == |items|
      invariant Scanning(target, DedupRun, conv, i)
      decreases |conv|, |conv| - i
    {
      if Caller(conv[i]) {
        var end := RunEnd(conv, i + 1);
        ResultsBetweenBounds(conv, i + 1, end);
        ScanOverRun(target, conv, i, end);
        var toRemove := FindDuplicates(conv, i + 1, end);
        RemovalShrinks(conv, i + 1, end, toRemove);
        if toRemove != {} {
          var out := RemoveAll(conv, i + 1, end, toRemove);
          assert conv[..i + 1] == conv[..i] + [conv[i]];
          ScanRemoved(target, conv[..i], conv[i], KeepLast(conv[i + 1..end]), conv[end..], out);
          removed := removed + (|conv| - |out|);
          conv := out;
        } else {
          ScanSkip(target, conv, i, end);
          i := end;
        }
      } else {
        ScanOverPlain(target, DedupRun, conv, i);
        i := i + 1;
      }
    }
    ScanInside(target, DedupRun, conv, i);
    ScanEnds(target, DedupRun, conv);
  }
}
