/** `render_segment_md`: the turns that fit the byte budget, the notice for the
    rest, and how close to the cap the document really stays. */
module SegmentBudget {
  import opened Options
  import opened Text
  import opened TextCut
  import opened Utf8

  const SEGMENT_MAX_BYTES: nat := 512 * 1024
  const NOTICE_HEAD := "\n\n[... TRUNCATED at 524288 bytes, "
  const NOTICE_TAIL := " turns omitted ...]\n"
  /** Byte length of the notice before its two substitutions. */
  const NOTICE_TEMPLATE_BYTES: nat := 64
  const PER_TURN_OVERHEAD_BYTES: nat := 64

  function Notice(omitted: nat): string {
    NOTICE_HEAD + Decimal(omitted) + NOTICE_TAIL
  }

  function Budget(preamble: string): nat {
    SaturatingSub(SEGMENT_MAX_BYTES, ByteLen(preamble) + NOTICE_TEMPLATE_BYTES + PER_TURN_OVERHEAD_BYTES)
  }

  /** Bytes of the blocks together, join newlines not counted. */
  function Total(blocks: seq<string>): nat {
    if blocks == [] then 0 else Total(blocks[..|blocks| - 1]) + ByteLen(blocks[|blocks| - 1])
  }

  /** `n` is the number of turns a greedy scan shows within `budget`. */
  predicate Shows(turns: seq<string>, budget: nat, n: nat) {
    n <= |turns| && Total(turns[..n]) <= budget && (n < |turns| ==> Total(turns[..n + 1]) > budget)
  }

  /** The greedy scan, when `k` turns have been shown. */
  function ShownFrom(turns: seq<string>, budget: nat, k: nat): (n: nat)
    requires k <= |turns| && Total(turns[..k]) <= budget
    ensures Shows(turns, budget, n)
    decreases |turns| - k
  {
    if k == |turns| || Total(turns[..k + 1]) > budget then k else ShownFrom(turns, budget, k + 1)
  }

  function Shown(turns: seq<string>, budget: nat): (n: nat)
    ensures Shows(turns, budget, n)
  {
    ShownFrom(turns, budget, 0)
  }

  function Document(preamble: string, turns: seq<string>, n: nat): string
    requires n <= |turns|
  {
    var shown := JoinLines(turns[..n]);
    preamble + if n < |turns| then shown + Notice(|turns| - n) else shown
  }

  /** The budget loop over the rendered turns. */
  method RenderSegmentMd(preamble: string, turns: seq<string>) returns (doc: string)
    ensures doc == Document(preamble, turns, Shown(turns, Budget(preamble)))
  {
    hide *;
    var budget := Budget(preamble);
    var blocks: seq<string> := [];
    var used := 0;
    var truncatedAt: Option<nat> := None;
    var i := 0;
    TotalSteps(turns);
    while i < |turns| && truncatedAt.None?
      invariant i <= |turns| && blocks == turns[..i] && used == Total(turns[..i]) <= budget
      invariant truncatedAt.Some? ==> truncatedAt.value == i < |turns| && Total(turns[..i + 1]) > budget
      decreases |turns| - i, truncatedAt.None?
    {
      var block := turns[i];
      if used + ByteLen(block) > budget {
        truncatedAt := Some(i);
      } else {
        used := used + ByteLen(block);
        blocks := blocks + [block];
        i := i + 1;
      }
    }
    ghost var n := i;
    var body := JoinLines(blocks);
    if truncatedAt.Some? {
      body := body + Notice(|turns| - truncatedAt.value);
    }
    doc := preamble + body;
    ShowsIs(turns, budget, n);
    ShowsOnly(turns, budget, n);
    DocumentIs(preamble, turns, n);
  }

  lemma TotalSteps(turns: seq<string>)
    ensures Total(turns[..0]) == 0
    ensures forall i :: 0 <= i < |turns| ==> turns[..i + 1] == turns[..i] + [turns[i]]
    ensures forall i :: 0 <= i < |turns| ==> Total(turns[..i + 1]) == Total(turns[..i]) + ByteLen(turns[i])
  {
    hide ByteLen;
    forall i | 0 <= i < |turns| ensures Total(turns[..i + 1]) == Total(turns[..i]) + ByteLen(turns[i]) {
      assert turns[..i + 1][..i] == turns[..i];
    }
  }

  lemma ShowsIs(turns: seq<string>, budget: nat, n: nat)
    ensures Shows(turns, budget, n) <==>
              n <= |turns| && Total(turns[..n]) <= budget && (n < |turns| ==> Total(turns[..n + 1]) > budget)
  {
  }

  lemma DocumentIs(preamble: string, turns: seq<string>, n: nat)
    requires n <= |turns|
    ensures n < |turns| ==> Document(preamble, turns, n) == preamble + (JoinLines(turns[..n]) + Notice(|turns| - n))
    ensures n == |turns| ==> Document(preamble, turns, n) == preamble + JoinLines(turns[..n])
  {
    hide JoinLines, Notice;
  }

  // ---- the scan shows the longest prefix that fits ----

  lemma {:induction false} TotalMonotonic(turns: seq<string>, a: nat, b: nat)
    requires a <= b <= |turns|
    ensures Total(turns[..a]) <= Total(turns[..b])
    decreases b - a
  {
    if a < b {
      hide *;
      TotalSteps(turns);
      TotalMonotonic(turns, a, b - 1);
      var last := b - 1;
      assert Total(turns[..last + 1]) == Total(turns[..last]) + ByteLen(turns[last]);
    }
  }

  /** Rendered and omitted turns make up all of them, and one more turn would not fit. */
  lemma ShowsLongest(turns: seq<string>, budget: nat, n: nat, k: nat)
    requires Shows(turns, budget, n) && k <= |turns|
    ensures k <= n <==> Total(turns[..k]) <= budget
  {
    hide Total;
    if k <= n { TotalMonotonic(turns, k, n); } else { TotalMonotonic(turns, n + 1, k); }
  }

  /** So only one number of turns can be shown. */
  lemma ShowsOnly(turns: seq<string>, budget: nat, n: nat)
    requires Shows(turns, budget, n)
    ensures n == Shown(turns, budget)
  {
    hide Total, ShownFrom;
    var m := Shown(turns, budget);
    ShowsLongest(turns, budget, n, m);
    ShowsLongest(turns, budget, m, n);
  }

  /** How many turns are shown: as many of the first ones as fit, with the preamble and 128 bytes to
      spare, into 512 KiB. */
  lemma ShownWithin(preamble: string, turns: seq<string>, k: nat)
    requires k <= |turns| && ByteLen(preamble) + 128 <= 524288
    ensures k <= Shown(turns, Budget(preamble)) <==> ByteLen(preamble) + 128 + Total(turns[..k]) <= 524288
  {
    hide Total, Shown, ByteLen;
    ShowsLongest(turns, Budget(preamble), Shown(turns, Budget(preamble)), k);
  }

  /** The document, text by text: the preamble, the turns shown, and the notice that counts the rest. */
  lemma DocumentText(preamble: string, turns: seq<string>, n: nat)
    requires n <= |turns|
    ensures Document(preamble, turns, n)
         == preamble + JoinLines(turns[..n])
            + (if n == |turns| then ""
               else "\n\n[... TRUNCATED at 524288 bytes, " + Decimal(|turns| - n) + " turns omitted ...]\n")
  {
    hide JoinLines, Decimal;
    var shown := JoinLines(turns[..n]);
    if n < |turns| {
      NoticeText(|turns| - n);
      hide Notice;
      assert preamble + (shown + Notice(|turns| - n)) == preamble + shown + Notice(|turns| - n);
    } else {
      assert preamble + shown + "" == preamble + shown;
    }
  }

  lemma NoticeText(omitted: nat)
    ensures Notice(omitted) == "\n\n[... TRUNCATED at 524288 bytes, " + Decimal(omitted) + " turns omitted ...]\n"
  {
    hide Decimal;
  }

  // ---- how long the document gets ----

  lemma {:induction false} JoinBytes(blocks: seq<string>)
    ensures ByteLen(JoinLines(blocks)) == Total(blocks) + if blocks == [] then 0 else |blocks| - 1
  {
    if blocks == [] {
      assert JoinLines(blocks) == "";
    } else if |blocks| == 1 {
      assert blocks[..0] == [];
    } else {
      var before, last := blocks[..|blocks| - 1], blocks[|blocks| - 1];
      JoinBytes(before);
      ByteLenConcat(JoinLines(before) + "\n", last);
      ByteLenConcat(JoinLines(before), "\n");
      AsciiLength("\n");
    }
  }

  lemma NoticeBytes(omitted: nat)
    ensures ByteLen(Notice(omitted)) == 54 + |Decimal(omitted)|
  {
    hide Decimal, Encode;
    AsciiLength(NOTICE_HEAD);
    AsciiLength(NOTICE_TAIL);
    DecimalBytes(omitted);
    ByteLenConcat(NOTICE_HEAD + Decimal(omitted), NOTICE_TAIL);
    ByteLenConcat(NOTICE_HEAD, Decimal(omitted));
  }

  lemma DocumentBytes(preamble: string, turns: seq<string>, n: nat)
    requires n <= |turns|
    ensures ByteLen(Document(preamble, turns, n))
         == ByteLen(preamble) + Total(turns[..n]) + (if n == 0 then 0 else n - 1)
            + (if n < |turns| then 54 + |Decimal(|turns| - n)| else 0)
  {
    hide *;
    var body := JoinLines(turns[..n]);
    JoinBytes(turns[..n]);
    DocumentIs(preamble, turns, n);
    if n < |turns| {
      NoticeBytes(|turns| - n);
      ByteLenConcat(body, Notice(|turns| - n));
      ByteLenConcat(preamble, body + Notice(|turns| - n));
    } else {
      ByteLenConcat(preamble, body);
    }
  }

  /** The preamble leaves room for the notice and its slack. */
  predicate PreambleFits(preamble: string) {
    ByteLen(preamble) + NOTICE_TEMPLATE_BYTES + PER_TURN_OVERHEAD_BYTES <= SEGMENT_MAX_BYTES
  }

  /** How far a document can exceed the cap, or a preamble that leaves no room: the join newlines
      are not charged. */
  lemma DocumentBound(preamble: string, turns: seq<string>, n: nat)
    requires Shows(turns, Budget(preamble), n)
    ensures var bytes, room := ByteLen(Document(preamble, turns, n)), Max(SEGMENT_MAX_BYTES, ByteLen(preamble) + 128);
            if n < |turns| then bytes <= room + Max(n, 1) - 75 + |Decimal(|turns| - n)|
            else bytes <= room + Max(n, 1) - 129
  {
    hide Total, Document, Decimal, ByteLen;
    DocumentBytes(preamble, turns, n);
  }

  /** With fewer than 10^20 turns, at most 55 rendered ones keep the document under the cap. */
  lemma SmallDocumentFits(preamble: string, turns: seq<string>, n: nat)
    requires PreambleFits(preamble) && Shows(turns, Budget(preamble), n) && |turns| < Pow10(20)
    ensures ByteLen(Document(preamble, turns, n)) <= SEGMENT_MAX_BYTES + Max(n, 1) - 55
    ensures n <= 55 ==> ByteLen(Document(preamble, turns, n)) <= SEGMENT_MAX_BYTES
  {
    hide Total, Document, Decimal, ByteLen, Budget, Pow10;
    DocumentBound(preamble, turns, n);
    if n < |turns| {
      DecimalAtMost(|turns| - n, 20);
    }
  }

  // ---- exactly when the cap holds ----

  const ROLES := ["System", "Human", "Assistant", "Function"]
  const TURN_LEAD := "### Turn "

  /** A rendered turn: its header, what the detail level shows, a newline. */
  function Rendered(index: nat, role: string, rest: string): string {
    TURN_LEAD + Decimal(index) + " (" + role + ")" + rest + "\n"
  }

  /** The shape that all three renderers give a turn. */
  ghost predicate RenderedAs(block: string, index: nat) {
    exists role, rest :: role in ROLES && (rest == "" || rest[0] in {'\n', ' '}) && block == Rendered(index, role, rest)
  }

  ghost predicate AllRendered(turns: seq<string>) {
    forall k :: 0 <= k < |turns| ==> RenderedAs(turns[k], k)
  }

  /** Every document with `n` rendered and `omitted` omitted turns, behind a preamble of at
      least `floor` bytes that leaves room for the notice, stays under the cap. */
  ghost predicate CapHolds(n: nat, omitted: nat, floor: nat) {
    forall preamble, turns ::
      ByteLen(preamble) >= floor && PreambleFits(preamble)
      && |turns| == n + omitted && AllRendered(turns) && Shows(turns, Budget(preamble), n)
      ==> ByteLen(Document(preamble, turns, n)) <= SEGMENT_MAX_BYTES
  }

  /** Bytes of the `n` shortest turns there can be. */
  function LeastTotal(n: nat): nat {
    if n == 0 then 0 else LeastTotal(n - 1) + 18 + |Decimal(n - 1)|
  }

  lemma RenderedBytes(index: nat, role: string, rest: string)
    requires role in ROLES
    ensures ByteLen(Rendered(index, role, rest)) == 13 + |Decimal(index)| + |role| + ByteLen(rest)
    ensures |role| >= 5
  {
    hide *;
    HeaderLiterals();
    RoleBytes(role);
    DecimalBytes(index);
    RenderedIs(index, role, rest);
    var a := TURN_LEAD + Decimal(index);
    ByteLenConcat(TURN_LEAD, Decimal(index));
    ByteLenConcat(a, " (");
    ByteLenConcat(a + " (", role);
    ByteLenConcat(a + " (" + role, ")");
    ByteLenConcat(a + " (" + role + ")", rest);
    ByteLenConcat(a + " (" + role + ")" + rest, "\n");
  }

  lemma RenderedIs(index: nat, role: string, rest: string)
    ensures Rendered(index, role, rest) == TURN_LEAD + Decimal(index) + " (" + role + ")" + rest + "\n"
  {
  }

  lemma HeaderLiterals()
    ensures ByteLen(TURN_LEAD) == 9 && ByteLen(" (") == 2 && ByteLen(")") == 1 && ByteLen("\n") == 1
  {
    AsciiLength(TURN_LEAD);
    AsciiLength(" (");
    AsciiLength(")");
    AsciiLength("\n");
  }

  lemma RoleBytes(role: string)
    requires role in ROLES
    ensures ByteLen(role) == |role| >= 5
  {
    RoleChars(role);
    hide *;
    AsciiLength(role);
  }

  lemma RoleChars(role: string)
    requires role in ROLES
    ensures |role| >= 5 && forall k :: 0 <= k < |role| ==> role[k] as int < 0x80
  {
  }

  lemma {:induction false} TotalAtLeast(turns: seq<string>, n: nat)
    requires AllRendered(turns) && n <= |turns|
    ensures Total(turns[..n]) >= LeastTotal(n)
  {
    TotalSteps(turns);
    if n > 0 {
      hide Total, Rendered, Decimal, ByteLen;
      var last := n - 1;
      var role, rest :| role in ROLES && (rest == "" || rest[0] in {'\n', ' '})
                        && turns[last] == Rendered(last, role, rest);
      RenderedBytes(last, role, rest);
      TotalAtLeast(turns, last);
      assert Total(turns[..last + 1]) == Total(turns[..last]) + ByteLen(turns[last]);
    }
  }

  /** The shortest turns there can be: human ones that say nothing. */
  function Shortest(n: nat): (turns: seq<string>)
    ensures |turns| == n && forall k :: 0 <= k < n ==> turns[k] == Rendered(k, "Human", "")
  {
    seq(n, k requires 0 <= k < n => Rendered(k, "Human", ""))
  }

  lemma ShortestRendered(n: nat)
    ensures AllRendered(Shortest(n))
  {
    hide Rendered, Shortest;
    assert "Human" in ROLES;
    forall k | 0 <= k < n ensures RenderedAs(Shortest(n)[k], k) {
      assert Shortest(n)[k] == Rendered(k, "Human", "");
    }
  }

  lemma {:induction false} ShortestTotal(n: nat, k: nat)
    requires k <= n
    ensures Total(Shortest(n)[..k]) == LeastTotal(k)
    decreases k
  {
    var w := Shortest(n);
    TotalSteps(w);
    if k > 0 {
      AsciiLength("");
      hide Total, Rendered, Decimal, ByteLen, Shortest;
      var last := k - 1;
      assert "Human" in ROLES && |"Human"| == 5;
      RenderedBytes(last, "Human", "");
      ShortestTotal(n, last);
      assert Total(w[..last + 1]) == Total(w[..last]) + ByteLen(w[last]);
    }
  }

  function Filler(n: nat): (s: string)
    ensures |s| == n && forall k :: 0 <= k < n ==> s[k] == 'x'
  {
    seq(n, _ => 'x')
  }

  lemma FillerFits(budget: nat) returns (preamble: string)
    requires budget + 128 <= SEGMENT_MAX_BYTES
    ensures PreambleFits(preamble) && Budget(preamble) == budget
    ensures ByteLen(preamble) == SEGMENT_MAX_BYTES - 128 - budget
  {
    preamble := Filler(SEGMENT_MAX_BYTES - 128 - budget);
    hide ByteLen, Filler;
    AsciiLength(preamble);
  }

  /** The worst document overruns the cap as soon as the bound allows it. */
  lemma WorstDocument(n: nat, omitted: nat) returns (preamble: string, turns: seq<string>)
    requires LeastTotal(n) + 128 <= SEGMENT_MAX_BYTES
    ensures PreambleFits(preamble) && ByteLen(preamble) == SEGMENT_MAX_BYTES - 128 - LeastTotal(n)
    ensures |turns| == n + omitted && AllRendered(turns) && Shows(turns, Budget(preamble), n)
    ensures ByteLen(Document(preamble, turns, n))
         == SEGMENT_MAX_BYTES + Max(n, 1) - if omitted > 0 then 75 - |Decimal(omitted)| else 129
  {
    hide *;
    preamble := FillerFits(LeastTotal(n));
    turns := Shortest(n + omitted);
    ShortestRendered(n + omitted);
    ShortestTotal(n + omitted, n);
    if omitted > 0 { ShortestTotal(n + omitted, n + 1); }
    LeastTotalGrows(n);
    ShowsIs(turns, LeastTotal(n), n);
    DocumentBytes(preamble, turns, n);
    assert n + omitted - n == omitted;
    MaxOne(n);
  }

  lemma LeastTotalGrows(n: nat)
    ensures LeastTotal(n + 1) > LeastTotal(n)
  {
  }

  lemma MaxOne(n: nat)
    ensures Max(n, 1) == if n == 0 then 1 else n
  {
  }

  /** The cap is kept by every document with `n` rendered turns exactly when `n` and the digits
      of the omitted count leave the notice its slack, or when there is no such document because
      its turns cannot be that short. */
  lemma CapHoldsIff(n: nat, omitted: nat, floor: nat)
    ensures CapHolds(n, omitted, floor)
       <==> LeastTotal(n) + floor + 128 > SEGMENT_MAX_BYTES
            || (if omitted > 0 then Max(n, 1) + |Decimal(omitted)| <= 75 else n <= 129)
  {
    hide Total, Document, Decimal, ByteLen, Shows, AllRendered, LeastTotal;
    forall p, t | ByteLen(p) >= floor && PreambleFits(p) && |t| == n + omitted && AllRendered(t)
                  && Shows(t, Budget(p), n)
      ensures ByteLen(Document(p, t, n))
           <= SEGMENT_MAX_BYTES + Max(n, 1) - if omitted > 0 then 75 - |Decimal(omitted)| else 129
      ensures LeastTotal(n) + floor + 128 <= SEGMENT_MAX_BYTES
    {
      DocumentBound(p, t, n);
      TotalAtLeast(t, n);
      ShowsIs(t, Budget(p), n);
      assert n + omitted - n == omitted;
    }
    if LeastTotal(n) + floor + 128 <= SEGMENT_MAX_BYTES {
      var preamble, turns := WorstDocument(n, omitted);
      assert ByteLen(preamble) >= floor;
    }
  }
}
