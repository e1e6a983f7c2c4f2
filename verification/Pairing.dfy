/** The two tool-pairing rules: the strict one (a result sits in the run of the
    Assistant that declares its call) and the lax one (such an Assistant comes
    somewhere before), and what filtering by each leaves behind. */
module Pairing {
  import opened Options
  import opened Conversation
  import opened Turns

  /** The nearest item before position `i` of `s` that is not a result; `lead` if there is none. */
  function Nearest(lead: Option<Item>, s: seq<Item>, i: nat): Option<Item>
    requires i <= |s|
  {
    if i == 0 then lead
    else if s[i - 1].ToolResult? then Nearest(lead, s, i - 1)
    else Some(s[i - 1])
  }

  predicate DeclaredBy(lead: Option<Item>, id: string) {
    lead.Some? && Declares(lead.value, id)
  }

  /** Strict rule at one position. */
  predicate InOwnRun(lead: Option<Item>, s: seq<Item>, i: nat)
    requires i < |s|
  {
    s[i].ToolResult? ==> DeclaredBy(Nearest(lead, s, i), s[i].callId)
  }

  /** Lax rule at one position. */
  predicate DeclaredEarlier(s: seq<Item>, i: nat)
    requires i < |s|
  {
    s[i].ToolResult? ==> exists j :: 0 <= j < i && Declares(s[j], s[i].callId)
  }

  predicate StrictlyPaired(s: seq<Item>) {
    forall i :: 0 <= i < |s| ==> InOwnRun(None, s, i)
  }

  predicate LaxlyPaired(s: seq<Item>) {
    forall i :: 0 <= i < |s| ==> DeclaredEarlier(s, i)
  }

  /** The contiguous results right after position `i`. */
  function RunAfter(s: seq<Item>, i: nat): seq<Item>
    requires i < |s|
  {
    s[i + 1..][..RunLength(s[i + 1..])]
  }

  /** Every call of `item` has exactly one answer in `run`. */
  predicate AnswersEachOnce(item: Item, run: seq<Item>) {
    item.Assistant? ==>
      forall k :: 0 <= k < |item.toolCalls| ==> AnswerCount(run, item.toolCalls[k].id) == 1
  }

  predicate PairedAt(lead: Option<Item>, s: seq<Item>, i: nat)
    requires i < |s|
  {
    InOwnRun(lead, s, i) && AnswersEachOnce(s[i], RunAfter(s, i))
  }

  /** What a provider accepts: no result outside the run of its caller, and each
      call answered exactly once in that run. */
  predicate WellPaired(s: seq<Item>) {
    forall i :: 0 <= i < |s| ==> PairedAt(None, s, i)
  }

  /** The same, turn by turn. */
  predicate PairedTurn(t: Turn) {
    && (forall k :: 0 <= k < |t.run| && t.run[k].ToolResult? ==> DeclaredBy(t.leader, t.run[k].callId))
    && (t.leader.Some? ==> AnswersEachOnce(t.leader.value, t.run))
  }

  lemma {:induction false} NearestShift(lead: Option<Item>, s: seq<Item>, n: nat, i: nat)
    requires n < i <= |s| && !s[n].ToolResult?
    ensures Nearest(lead, s, i) == Nearest(Some(s[n]), s[n + 1..], i - n - 1)
  {
    if i > n + 1 {
      assert s[n + 1..][i - n - 2] == s[i - 1];
      NearestShift(lead, s, n, i - 1);
    }
  }

  lemma {:induction false} NearestInRun(lead: Option<Item>, s: seq<Item>, i: nat)
    requires i <= |s| && AllResults(s[..i])
    ensures Nearest(lead, s, i) == lead
  {
    if i > 0 {
      assert s[..i][i - 1] == s[i - 1];
      assert AllResults(s[..i - 1]) by {
        assert forall k :: 0 <= k < i - 1 ==> s[..i - 1][k] == s[..i][k];
      }
      NearestInRun(lead, s, i - 1);
    }
  }

  /** Position by position, for items that follow `lead`. */
  predicate WellPairedAfter(lead: Option<Item>, s: seq<Item>) {
    && (forall i :: 0 <= i < |s| ==> PairedAt(lead, s, i))
    && (lead.Some? ==> AnswersEachOnce(lead.value, s[..RunLength(s)]))
  }

  predicate PairedTurns(ts: seq<Turn>) {
    forall k :: 0 <= k < |ts| ==> PairedTurn(ts[k])
  }

  lemma FirstRunPaired(lead: Option<Item>, s: seq<Item>, n: nat)
    requires n == RunLength(s)
    ensures PairedTurn(Turn(lead, s[..n])) <==>
              && (forall i :: 0 <= i < n ==> InOwnRun(lead, s, i))
              && (lead.Some? ==> AnswersEachOnce(lead.value, s[..n]))
  {
    var run := s[..n];
    assert forall i :: 0 <= i < n ==> run[i] == s[i];
    forall i | 0 <= i < n ensures InOwnRun(lead, s, i) <==> DeclaredBy(lead, run[i].callId) {
      assert AllResults(s[..i]) by { assert forall k :: 0 <= k < i ==> s[..i][k] == run[k]; }
      NearestInRun(lead, s, i);
    }
  }

  lemma PairedAtShift(lead: Option<Item>, s: seq<Item>, n: nat, j: nat)
    requires n < |s| && !s[n].ToolResult? && j < |s| - n - 1
    ensures PairedAt(lead, s, n + 1 + j) <==> PairedAt(Some(s[n]), s[n + 1..], j)
  {
    var rest := s[n + 1..];
    var i := n + 1 + j;
    NearestShift(lead, s, n, i);
    assert s[i] == rest[j] && s[i + 1..] == rest[j + 1..];
  }

  lemma LaterTurnsPaired(lead: Option<Item>, s: seq<Item>, n: nat)
    requires n < |s| && !s[n].ToolResult?
    ensures WellPairedAfter(Some(s[n]), s[n + 1..]) <==> forall i :: n <= i < |s| ==> PairedAt(lead, s, i)
  {
    var rest := s[n + 1..];
    assert PairedAt(lead, s, n) <==> AnswersEachOnce(s[n], rest[..RunLength(rest)]);
    forall j | 0 <= j < |rest|
      ensures PairedAt(lead, s, n + 1 + j) <==> PairedAt(Some(s[n]), rest, j)
    {
      PairedAtShift(lead, s, n, j);
    }
    if forall j :: 0 <= j < |rest| ==> PairedAt(Some(s[n]), rest, j) {
      forall i | n < i < |s| ensures PairedAt(lead, s, i) {
        assert PairedAt(Some(s[n]), rest, i - n - 1);
      }
    }
  }

  lemma PairedInRun(lead: Option<Item>, s: seq<Item>, i: nat)
    requires i < RunLength(s)
    ensures PairedAt(lead, s, i) <==> InOwnRun(lead, s, i)
  {
    assert s[i] == s[..RunLength(s)][i];
  }

  lemma {:induction false} WellPairedAfterSplit(lead: Option<Item>, s: seq<Item>)
    ensures WellPairedAfter(lead, s) <==> PairedTurns(Split(lead, s))
    decreases |s|
  {
    hide RunLength, Split, PairedAt, InOwnRun, AnswersEachOnce, PairedTurn;
    var n := RunLength(s);
    FirstRunPaired(lead, s, n);
    SplitUnfold(lead, s);
    forall i | 0 <= i < n ensures PairedAt(lead, s, i) <==> InOwnRun(lead, s, i) {
      PairedInRun(lead, s, i);
    }
    var first := Turn(lead, s[..n]);
    if n < |s| {
      LaterTurnsPaired(lead, s, n);
      WellPairedAfterSplit(Some(s[n]), s[n + 1..]);
      PairedTurnsCons(first, Split(Some(s[n]), s[n + 1..]));
    } else {
      PairedTurnsCons(first, []);
    }
  }

  lemma PairedTurnsCons(t: Turn, ts: seq<Turn>)
    ensures PairedTurns([t] + ts) <==> PairedTurn(t) && PairedTurns(ts)
  {
    var all := [t] + ts;
    assert all[0] == t;
    assert forall k :: 0 <= k < |ts| ==> all[k + 1] == ts[k];
  }

  lemma WellPairedByTurn(s: seq<Item>)
    ensures WellPaired(s) <==> PairedTurns(TurnsOf(s))
  {
    WellPairedAfterSplit(None, s);
  }

  /** The elements of `s` whose position `mask` selects, in order. */
  function Pick<T>(s: seq<T>, mask: seq<bool>): seq<T>
    requires |s| == |mask|
  {
    if s == [] then []
    else
      var n := |s| - 1;
      Pick(s[..n], mask[..n]) + (if mask[n] then [s[n]] else [])
  }

  function Inverted(mask: seq<bool>): seq<bool> {
    seq(|mask|, i requires 0 <= i < |mask| => !mask[i])
  }

  function CallIds(s: seq<Item>): seq<string> {
    seq(|s|, i requires 0 <= i < |s| => if s[i].ToolResult? then s[i].callId else "")
  }

  function StrictMask(s: seq<Item>): seq<bool> {
    seq(|s|, i requires 0 <= i < |s| => InOwnRun(None, s, i))
  }

  function LaxMask(s: seq<Item>): seq<bool> {
    seq(|s|, i requires 0 <= i < |s| => DeclaredEarlier(s, i))
  }

  lemma PickStep<T>(s: seq<T>, mask: seq<bool>, i: nat)
    requires |s| == |mask| && i < |s|
    ensures Pick(s[..i + 1], mask[..i + 1]) == Pick(s[..i], mask[..i]) + (if mask[i] then [s[i]] else [])
  {
    assert s[..i + 1][..i] == s[..i] && mask[..i + 1][..i] == mask[..i];
  }

  lemma {:induction false} PickConcat<T>(a: seq<T>, b: seq<T>, ma: seq<bool>, mb: seq<bool>)
    requires |a| == |ma| && |b| == |mb|
    ensures Pick(a + b, ma + mb) == Pick(a, ma) + Pick(b, mb)
  {
    if b == [] {
      assert a + b == a && ma + mb == ma;
    } else {
      var n := |b| - 1;
      assert (a + b)[..|a| + n] == a + b[..n] && (ma + mb)[..|a| + n] == ma + mb[..n];
      PickConcat(a, b[..n], ma, mb[..n]);
    }
  }

  /** Positions in ascending order, all below `limit`. */
  predicate Ascending(at: seq<nat>, limit: nat) {
    (forall k :: 0 <= k < |at| ==> at[k] < limit) && forall j, k :: 0 <= j < k < |at| ==> at[j] < at[k]
  }

  ghost predicate PickedAt<T>(s: seq<T>, mask: seq<bool>, picked: seq<T>, at: seq<nat>)
    requires |s| == |mask|
  {
    && Ascending(at, |s|) && |picked| == |at|
    && (forall k :: 0 <= k < |at| ==> mask[at[k]] && picked[k] == s[at[k]])
    && (forall i: nat :: i < |s| && mask[i] ==> i in at)
  }

  lemma PickedSnoc<T>(s: seq<T>, mask: seq<bool>, picked: seq<T>, at: seq<nat>, x: T, keep: bool)
    requires |s| == |mask| && PickedAt(s, mask, picked, at)
    ensures if keep then PickedAt(s + [x], mask + [true], picked + [x], at + [|s|])
            else PickedAt(s + [x], mask + [false], picked, at)
  {
    var n, all, more := |s|, s + [x], mask + [keep];
    var later := at + [n];
    if keep {
      forall i: nat | i < |all| && more[i] ensures i in later {
        if i < n { assert mask[i] && i in at; } else { assert later[|at|] == i; }
      }
      assert forall k :: 0 <= k < |at| ==> later[k] == at[k] && all[at[k]] == s[at[k]] && more[at[k]];
    } else {
      assert forall k :: 0 <= k < |at| ==> all[at[k]] == s[at[k]] && more[at[k]];
      assert forall i: nat :: i < |all| && more[i] ==> i < n && mask[i];
    }
  }

  /** What is picked: the elements at the selected positions, all of them, in their order. */
  lemma PickedAre<T>(s: seq<T>, mask: seq<bool>) returns (at: seq<nat>)
    requires |s| == |mask|
    ensures Ascending(at, |s|) && |Pick(s, mask)| == |at|
    ensures forall k :: 0 <= k < |at| ==> mask[at[k]] && Pick(s, mask)[k] == s[at[k]]
    ensures forall i: nat :: i < |s| && mask[i] ==> i in at
  {
    at := PickedFrom(s, mask);
  }

  lemma {:induction false} PickedFrom<T>(s: seq<T>, mask: seq<bool>) returns (at: seq<nat>)
    requires |s| == |mask|
    ensures PickedAt(s, mask, Pick(s, mask), at)
  {
    if s == [] {
      at := [];
    } else {
      hide Pick, PickedAt;
      var n := |s| - 1;
      PickLast(s, mask);
      at := PickedFrom(s[..n], mask[..n]);
      PickedSnoc(s[..n], mask[..n], Pick(s[..n], mask[..n]), at, s[n], mask[n]);
      assert s == s[..n] + [s[n]] && mask == mask[..n] + [mask[n]];
      if mask[n] { at := at + [n]; }
    }
  }

  lemma PickLast<T>(s: seq<T>, mask: seq<bool>)
    requires |s| == |mask| > 0
    ensures var n := |s| - 1;
            Pick(s, mask) == Pick(s[..n], mask[..n]) + (if mask[n] then [s[n]] else [])
  {
  }

  lemma {:induction false} PickAll<T>(s: seq<T>, mask: seq<bool>)
    requires |s| == |mask|
    ensures |Pick(s, mask)| <= |s|
    ensures Pick(s, mask) == s <==> AllTrue(mask)
    ensures |Pick(s, mask)| == |s| ==> Pick(s, mask) == s
  {
    if s != [] {
      hide Pick, AllTrue;
      var n := |s| - 1;
      PickLast(s, mask);
      AllTrueLast(mask);
      PickAll(s[..n], mask[..n]);
      assert s == s[..n] + [s[n]];
    }
  }

  lemma AllTrueLast(mask: seq<bool>)
    requires mask != []
    ensures AllTrue(mask) <==> AllTrue(mask[..|mask| - 1]) && mask[|mask| - 1]
  {
    assert forall i :: 0 <= i < |mask| - 1 ==> mask[..|mask| - 1][i] == mask[i];
  }

  lemma {:induction false} PickNone<T>(s: seq<T>, mask: seq<bool>)
    requires |s| == |mask|
    ensures Pick(s, Inverted(mask)) == [] <==> AllTrue(mask)
  {
    if s != [] {
      hide Pick, AllTrue;
      var n := |s| - 1;
      PickLast(s, Inverted(mask));
      AllTrueLast(mask);
      PickNone(s[..n], mask[..n]);
      assert Inverted(mask)[..n] == Inverted(mask[..n]);
    }
  }

  predicate AllTrue(mask: seq<bool>) {
    forall i :: 0 <= i < |mask| ==> mask[i]
  }

  /** Strict filtering keeps a subset of what lax filtering keeps. */
  lemma {:induction false} StrictImpliesLax(s: seq<Item>, i: nat)
    requires i < |s| && InOwnRun(None, s, i)
    ensures DeclaredEarlier(s, i)
  {
    if s[i].ToolResult? {
      NearestIsEarlier(s, i);
    }
  }

  lemma {:induction false} NearestIsEarlier(s: seq<Item>, i: nat)
    requires i <= |s| && Nearest(None, s, i).Some?
    ensures exists j :: 0 <= j < i && s[j] == Nearest(None, s, i).value
  {
    if s[i - 1].ToolResult? {
      NearestIsEarlier(s, i - 1);
    }
  }

  /** Dropping results only never hides a declaration. */
  lemma {:induction false} DeclarationsSurvive(s: seq<Item>, mask: seq<bool>, id: string)
    requires |s| == |mask| && forall i :: 0 <= i < |s| && !s[i].ToolResult? ==> mask[i]
    requires exists j :: 0 <= j < |s| && Declares(s[j], id)
    ensures exists j :: 0 <= j < |Pick(s, mask)| && Declares(Pick(s, mask)[j], id)
  {
    var n := |s| - 1;
    if Declares(s[n], id) {
      assert Pick(s, mask)[|Pick(s, mask)| - 1] == s[n];
    } else {
      var j :| 0 <= j < |s| && Declares(s[j], id);
      assert s[..n][j] == s[j];
      DeclarationsSurvive(s[..n], mask[..n], id);
      var k :| 0 <= k < |Pick(s[..n], mask[..n])| && Declares(Pick(s[..n], mask[..n])[k], id);
      assert Pick(s, mask)[k] == Pick(s[..n], mask[..n])[k];
    }
  }

  /** What lax filtering keeps obeys the lax rule. */
  lemma {:induction false} LaxFilterIsLaxlyPaired(s: seq<Item>)
    ensures LaxlyPaired(Pick(s, LaxMask(s)))
  {
    if s != [] {
      var n := |s| - 1;
      var kept := Pick(s[..n], LaxMask(s[..n]));
      assert LaxMask(s)[..n] == LaxMask(s[..n]);
      LaxFilterIsLaxlyPaired(s[..n]);
      var all := Pick(s, LaxMask(s));
      assert forall i :: 0 <= i < |kept| ==> all[i] == kept[i];
      forall i | 0 <= i < |kept| ensures DeclaredEarlier(all, i) {
        assert DeclaredEarlier(kept, i);
      }
      if s[n].ToolResult? && DeclaredEarlier(s, n) {
        var j :| 0 <= j < n && Declares(s[j], s[n].callId);
        assert s[..n][j] == s[j];
        DeclarationsSurvive(s[..n], LaxMask(s[..n]), s[n].callId);
      }
    }
  }
}
