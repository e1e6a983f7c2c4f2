/** `validate_compacted_history` and `sanitize_compacted_history`: the lax rule,
    checked and enforced by left-to-right scans over a growing set of ids. */
module SanitizeHistory {
  import opened Options
  import opened Conversation
  import opened Pairing

  /** The call ids of the results that break the lax rule, in order. */
  function InvalidIds(items: seq<Item>): seq<string> {
    Pick(CallIds(items), Inverted(LaxMask(items)))
  }

  function Sanitized(items: seq<Item>): seq<Item> {
    Pick(items, LaxMask(items))
  }

  /** `seen` holds exactly the ids declared before position `i`. */
  ghost predicate SeenBefore(items: seq<Item>, i: nat, seen: set<string>)
    requires i <= |items|
  {
    forall id :: id in seen <==> exists j :: 0 <= j < i && Declares(items[j], id)
  }

  lemma SeenStep(items: seq<Item>, i: nat, seen: set<string>, ids: set<string>)
    requires i < |items| && SeenBefore(items, i, seen)
    requires forall id :: id in ids <==> Declares(items[i], id)
    ensures SeenBefore(items, i + 1, seen + ids)
  {
    forall id | id in seen ensures exists j :: 0 <= j < i + 1 && Declares(items[j], id) {
      var j :| 0 <= j < i && Declares(items[j], id);
    }
  }

  method ValidateCompactedHistory(items: seq<Item>) returns (invalid: seq<string>)
    ensures invalid == InvalidIds(items)
  {
    var seen: set<string> := {};
    invalid := [];
    ghost var ids, bad := CallIds(items), Inverted(LaxMask(items));
    for i := 0 to |items|
      invariant SeenBefore(items, i, seen)
      invariant invalid == Pick(ids[..i], bad[..i])
    {
      PickStep(ids, bad, i);
      SeenStep(items, i, seen, DeclaredIds(items[i]));
      match items[i]
      case Assistant(_, _) => seen := seen + DeclaredIds(items[i]);
      case ToolResult(id, _, _) =>
        if id !in seen {
          invalid := invalid + [id];
        }
      case _ =>
    }
    assert ids[..|items|] == ids && bad[..|items|] == bad;
  }

  method SanitizeCompactedHistory(items: seq<Item>) returns (kept: seq<Item>, stripped: seq<string>)
    ensures kept == Sanitized(items)
    ensures stripped == InvalidIds(items)
  {
    var seen: set<string> := {};
    kept, stripped := [], [];
    ghost var mask, ids, bad := LaxMask(items), CallIds(items), Inverted(LaxMask(items));
    for i := 0 to |items|
      invariant SeenBefore(items, i, seen)
      invariant kept == Pick(items[..i], mask[..i])
      invariant stripped == Pick(ids[..i], bad[..i])
    {
      PickStep(items, mask, i);
      PickStep(ids, bad, i);
      SeenStep(items, i, seen, DeclaredIds(items[i]));
      match items[i]
      case Assistant(_, _) =>
        seen := seen + DeclaredIds(items[i]);
        kept := kept + [items[i]];
      case ToolResult(id, _, _) =>
        if id in seen {
          kept := kept + [items[i]];
        } else {
          stripped := stripped + [id];
        }
      case _ =>
        kept := kept + [items[i]];
    }
    assert items[..|items|] == items && mask[..|items|] == mask;
    assert ids[..|items|] == ids && bad[..|items|] == bad;
  }

  /** Validation reports nothing exactly when every result has an earlier declaration. */
  lemma ValidIffLaxlyPaired(items: seq<Item>)
    ensures InvalidIds(items) == [] <==> LaxlyPaired(items)
    ensures LaxlyPaired(items) ==> Sanitized(items) == items
  {
    PickNone(CallIds(items), LaxMask(items));
    PickAll(items, LaxMask(items));
    if AllTrue(LaxMask(items)) {
      assert forall i :: 0 <= i < |items| ==> LaxMask(items)[i] == DeclaredEarlier(items, i);
    }
  }

  /** The result at `i` has no Assistant before it that declares its call. */
  predicate Orphaned(items: seq<Item>, i: nat)
    requires i < |items|
  {
    items[i].ToolResult? && forall j :: 0 <= j < i ==> !Declares(items[j], items[i].callId)
  }

  /** What is reported: the call ids of the orphaned results, all of them, in their order. */
  lemma ReportedAre(items: seq<Item>) returns (at: seq<nat>)
    ensures Ascending(at, |items|) && forall i :: 0 <= i < |items| ==> (i in at <==> Orphaned(items, i))
    ensures |InvalidIds(items)| == |at|
    ensures forall k :: 0 <= k < |at| ==> items[at[k]].ToolResult? && InvalidIds(items)[k] == items[at[k]].callId
  {
    at := PickedAre(CallIds(items), Inverted(LaxMask(items)));
    forall i | 0 <= i < |items| ensures i in at <==> Orphaned(items, i) {
      assert Inverted(LaxMask(items))[i] == !DeclaredEarlier(items, i);
    }
  }

  /** What is kept: everything else, in its order. */
  lemma KeptAre(items: seq<Item>) returns (at: seq<nat>)
    ensures Ascending(at, |items|) && forall i :: 0 <= i < |items| ==> (i in at <==> !Orphaned(items, i))
    ensures |Sanitized(items)| == |at| && forall k :: 0 <= k < |at| ==> Sanitized(items)[k] == items[at[k]]
  {
    at := PickedAre(items, LaxMask(items));
    forall i | 0 <= i < |items| ensures i in at <==> !Orphaned(items, i) {
      assert LaxMask(items)[i] == DeclaredEarlier(items, i);
    }
  }

  /** Sanitized output always validates, so sanitizing again removes nothing. */
  lemma SanitizedIsValid(items: seq<Item>)
    ensures InvalidIds(Sanitized(items)) == []
    ensures Sanitized(Sanitized(items)) == Sanitized(items)
  {
    LaxFilterIsLaxlyPaired(items);
    ValidIffLaxlyPaired(Sanitized(items));
  }

  /** The strict filter keeps no position the lax filter drops, and what it keeps validates. */
  lemma StrictKeepsSubset(items: seq<Item>)
    ensures forall i :: 0 <= i < |items| ==> StrictMask(items)[i] ==> LaxMask(items)[i]
    ensures StrictlyPaired(items) ==> InvalidIds(items) == []
  {
    forall i | 0 <= i < |items| && StrictMask(items)[i] ensures LaxMask(items)[i] {
      StrictImpliesLax(items, i);
    }
    ValidIffLaxlyPaired(items);
    if StrictlyPaired(items) {
      forall i | 0 <= i < |items| ensures DeclaredEarlier(items, i) {
        StrictImpliesLax(items, i);
      }
    }
  }

  /** A pair split by a user item. */
  const SPLIT_PAIR := [Assistant("", [ToolCall("d", "run", "{}")]), User([], None), ToolResult("d", "late", [])]

  /** The lax rule keeps its result and the strict rule drops it. */
  lemma LaxKeepsDisplaced()
    ensures LaxlyPaired(SPLIT_PAIR) && !StrictlyPaired(SPLIT_PAIR)
    ensures LaxMask(SPLIT_PAIR)[2] && !StrictMask(SPLIT_PAIR)[2]
  {
    var items := SPLIT_PAIR;
    assert Declares(items[0], "d") by { assert items[0].toolCalls[0].id == "d"; }
    assert DeclaredEarlier(items, 2);
    assert Nearest(None, items, 2) == Some(items[1]);
    assert !InOwnRun(None, items, 2);
    assert LaxlyPaired(items);
  }
}
