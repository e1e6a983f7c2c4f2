/** Substring search, replacement and trimming on strings, as the standard
    library operations the sources call behave. */
module Text {
  import opened Options

  /** `t` occurs in `s` at position `i`. */
  predicate At(s: string, i: int, t: string) {
    0 <= i && i + |t| <= |s| && s[i..i + |t|] == t
  }

  predicate Contains(s: string, t: string) {
    exists i :: 0 <= i <= |s| && At(s, i, t)
  }

  function FindFrom(s: string, t: string, i: nat): (r: Option<nat>)
    requires i <= |s|
    ensures r.Some? ==> i <= r.value && At(s, r.value, t) && forall j :: i <= j < r.value ==> !At(s, j, t)
    ensures r.None? ==> forall j :: i <= j ==> !At(s, j, t)
    decreases |s| - i
  {
    if At(s, i, t) then Some(i)
    else if i == |s| then None
    else FindFrom(s, t, i + 1)
  }

  /** The first occurrence of `t` in `s`. */
  function Find(s: string, t: string): (r: Option<nat>)
    ensures r.Some? ==> At(s, r.value, t) && forall j :: 0 <= j < r.value ==> !At(s, j, t)
    ensures r.None? <==> !Contains(s, t)
  {
    FindFrom(s, t, 0)
  }

  lemma FindIs(s: string, t: string, i: nat)
    requires At(s, i, t) && forall j :: 0 <= j < i ==> !At(s, j, t)
    ensures Find(s, t) == Some(i)
  {
    assert Contains(s, t);
    var r := Find(s, t).value;
    assert At(s, r, t);
  }

  function FindBack(s: string, t: string, i: nat): (r: Option<nat>)
    requires i <= |s|
    ensures r.Some? ==> r.value <= i && At(s, r.value, t) && forall j :: r.value < j <= i ==> !At(s, j, t)
    ensures r.None? ==> forall j :: j <= i ==> !At(s, j, t)
  {
    if At(s, i, t) then Some(i)
    else if i == 0 then None
    else FindBack(s, t, i - 1)
  }

  /** The last occurrence of `t` in `s`. */
  function FindLast(s: string, t: string): (r: Option<nat>)
    ensures r.Some? ==> At(s, r.value, t) && forall j :: r.value < j ==> !At(s, j, t)
    ensures r.None? <==> !Contains(s, t)
  {
    FindBack(s, t, |s|)
  }

  /** Every occurrence of `t` in `s` replaced by `r`, scanning left to right. */
  function ReplaceAll(s: string, t: string, r: string): string
    requires t != ""
    decreases |s|
  {
    if s == "" then ""
    else if At(s, 0, t) then r + ReplaceAll(s[|t|..], t, r)
    else [s[0]] + ReplaceAll(s[1..], t, r)
  }

  lemma AtSlice(s: string, a: nat, b: nat, i: int, t: string)
    requires a <= b <= |s|
    ensures At(s[a..b], i, t) <==> 0 <= i && a + i + |t| <= b && At(s, a + i, t)
  {
    if 0 <= i && a + i + |t| <= b {
      SliceOfSlice(s, a, b, i, i + |t|);
    }
  }

  lemma SliceOfSlice<T>(s: seq<T>, a: nat, b: nat, i: nat, j: nat)
    requires a <= b <= |s| && i <= j <= b - a
    ensures s[a..b][i..j] == s[a + i..a + j]
  {
    var inner, outer := s[a..b][i..j], s[a + i..a + j];
    assert forall k :: 0 <= k < j - i ==> inner[k] == outer[k];
  }

  lemma SliceContains(s: string, a: nat, b: nat, t: string)
    requires a <= b <= |s| && Contains(s[a..b], t)
    ensures Contains(s, t)
  {
    var i :| At(s[a..b], i, t);
    AtSlice(s, a, b, i, t);
  }

  lemma AtConcat(a: string, b: string, i: int, t: string)
    ensures i + |t| <= |a| ==> (At(a + b, i, t) <==> At(a, i, t))
    ensures |a| <= i ==> (At(a + b, i, t) <==> At(b, i - |a|, t))
  {
    if 0 <= i && i + |t| <= |a| {
      assert (a + b)[i..i + |t|] == a[i..i + |t|];
    }
    if |a| <= i && i - |a| + |t| <= |b| {
      assert (a + b)[i..i + |t|] == b[i - |a|..i - |a| + |t|];
    }
  }

  /** The pieces of `a + t + b`. */
  lemma Pieces(a: string, t: string, b: string)
    ensures At(a + t + b, |a|, t)
    ensures (a + t + b)[..|a|] == a && (a + t + b)[|a| + |t|..] == b
    ensures forall k :: 0 <= k < |a| ==> (a + t + b)[k] == a[k]
  {
    assert (a + t + b)[|a|..|a| + |t|] == t;
  }

  /** Two texts with the same head and tails that agree for `n - 1` agree for `n`. */
  lemma ConsPrefix(s: string, w: string, v: string, n: nat)
    requires s != "" && w == [s[0]] + v && 1 <= n <= |s| && n - 1 <= |v|
    requires s[1..][..n - 1] == v[..n - 1]
    ensures s[..n] == w[..n]
  {
    assert s[..n] == [s[0]] + s[1..][..n - 1];
    assert w[..n] == [s[0]] + v[..n - 1];
  }

  lemma AtSamePrefix(s: string, w: string, t: string)
    requires At(w, 0, t) && |t| <= |s| && s[..|t|] == w[..|t|]
    ensures Contains(s, t) && At(s, 0, t)
  {
    assert s[0..|t|] == s[..|t|] && w[0..|t|] == w[..|t|];
    assert At(s, 0, t);
  }

  /** A tag: `<` and then no further `<`. */
  predicate TagShaped(t: string) {
    |t| >= 2 && t[0] == '<' && forall k :: 1 <= k < |t| ==> t[k] != '<'
  }

  lemma AtInside(s: string, i: int, t: string)
    requires At(s, i, t)
    ensures 0 <= i && i + |t| <= |s|
  {
  }

  lemma AtChars(s: string, i: int, t: string)
    requires At(s, i, t)
    ensures forall k :: i <= k < i + |t| ==> s[k] == t[k - i]
  {
    assert forall k :: i <= k < i + |t| ==> s[k] == s[i..i + |t|][k - i];
  }

  /** Two tags never overlap. */
  lemma TagsApart(s: string, i: int, t: string, j: int, u: string)
    requires At(s, i, t) && At(s, j, u) && TagShaped(t) && TagShaped(u) && i < j
    ensures i + |t| <= j
  {
    AtChars(s, i, t);
    AtChars(s, j, u);
    assert s[j] == '<';
  }

  lemma Occurs(s: string, i: int, t: string)
    requires At(s, i, t)
    ensures Contains(s, t)
  {
  }

  lemma LastIs(s: string, t: string, i: nat)
    requires At(s, i, t) && forall j :: j > i ==> !At(s, j, t)
    ensures FindLast(s, t) == Some(i) && i + |t| <= |s|
  {
    Occurs(s, i, t);
  }

  /** The first occurrence of a tag behind a text that holds none. */
  lemma FirstIn(a: string, t: string, b: string)
    requires TagShaped(t) && !Contains(a, t)
    ensures Find(a + t + b, t) == Some(|a|)
  {
    hide Find, TagShaped, Contains;
    var s := a + t + b;
    Pieces(a, t, b);
    forall j | 0 <= j < |a| ensures !At(s, j, t) {
      if At(s, j, t) {
        TagsApart(s, j, t, |a|, t);
        assert s[0..|a|] == a;
        AtSlice(s, 0, |a|, j, t);
        Occurs(a, j, t);
      }
    }
    FindIs(s, t, |a|);
  }

  /** The last occurrence of a tag before a text that holds none. */
  lemma LastIn(a: string, t: string, b: string)
    requires TagShaped(t) && !Contains(b, t)
    ensures FindLast(a + t + b, t) == Some(|a|)
  {
    hide FindLast, TagShaped, Contains;
    var s := a + t + b;
    Pieces(a, t, b);
    forall j: int | j > |a| ensures !At(s, j, t) {
      if At(s, j, t) {
        TagsApart(s, |a|, t, j, t);
        assert s[|a| + |t|..|s|] == b;
        AtSlice(s, |a| + |t|, |s|, j - |a| - |t|, t);
        Occurs(b, j - |a| - |t|, t);
      }
    }
    LastIs(s, t, |a|);
  }

  /** The pieces, joined by newlines. */
  function JoinLines(blocks: seq<string>): string {
    if blocks == [] then ""
    else if |blocks| == 1 then blocks[0]
    else JoinLines(blocks[..|blocks| - 1]) + "\n" + blocks[|blocks| - 1]
  }

  /** The pieces stand in their order, a newline between any two. */
  lemma {:induction false} JoinLinesCons(first: string, rest: seq<string>)
    ensures JoinLines([first] + rest) == if rest == [] then first else first + "\n" + JoinLines(rest)
  {
    var all := [first] + rest;
    if rest == [] {
      assert all == [first];
    } else {
      var n := |rest| - 1;
      assert all[..|all| - 1] == [first] + rest[..n];
      JoinLinesCons(first, rest[..n]);
      if n > 0 {
        assert first + "\n" + JoinLines(rest[..n]) + "\n" + rest[n]
            == first + "\n" + (JoinLines(rest[..n]) + "\n" + rest[n]);
      } else {
        assert rest[..n] == [] && rest == [rest[0]];
      }
    }
  }

  // ---- trimming ----

  predicate AllMatch(s: string, p: char -> bool) {
    forall k :: 0 <= k < |s| ==> p(s[k])
  }

  function TrimStartBy(s: string, p: char -> bool): (r: string)
    ensures |r| <= |s| && r == s[|s| - |r|..]
    ensures forall k :: 0 <= k < |s| - |r| ==> p(s[k])
    ensures r == "" || !p(r[0])
  {
    if s == "" || !p(s[0]) then s
    else
      assert forall k :: 1 <= k < |s| ==> s[k] == s[1..][k - 1];
      TrimStartBy(s[1..], p)
  }

  function TrimEndBy(s: string, p: char -> bool): (r: string)
    ensures |r| <= |s| && r == s[..|r|]
    ensures forall k :: |r| <= k < |s| ==> p(s[k])
    ensures r == "" || !p(r[|r| - 1])
  {
    if s == "" || !p(s[|s| - 1]) then s
    else
      assert forall k :: 0 <= k < |s| - 1 ==> s[k] == s[..|s| - 1][k];
      TrimEndBy(s[..|s| - 1], p)
  }

  function TrimBy(s: string, p: char -> bool): string {
    TrimEndBy(TrimStartBy(s, p), p)
  }

  predicate TrimmedBy(s: string, p: char -> bool) {
    s == "" || (!p(s[0]) && !p(s[|s| - 1]))
  }

  /** Trimming yields a trimmed middle of its input. */
  lemma TrimParts(s: string, p: char -> bool) returns (a: nat, b: nat)
    ensures a <= b <= |s| && TrimBy(s, p) == s[a..b] && TrimmedBy(s[a..b], p)
    ensures forall k :: 0 <= k < a || b <= k < |s| ==> p(s[k])
  {
    hide TrimStartBy, TrimEndBy;
    var t := TrimStartBy(s, p);
    var r := TrimEndBy(t, p);
    a := |s| - |t|;
    b := a + |r|;
    assert forall k :: a <= k < |s| ==> s[k] == t[k - a];
    assert s[a..b] == r;
    assert r != "" ==> r[0] == t[0];
  }

  /** Trimming is the only way to write `s` as padding, a trimmed middle, padding. */
  lemma TrimIs(a: string, m: string, b: string, p: char -> bool)
    requires AllMatch(a, p) && AllMatch(b, p) && TrimmedBy(m, p)
    ensures TrimBy(a + m + b, p) == m
  {
    hide TrimBy;
    var s := a + m + b;
    var i, j := TrimParts(s, p);
    assert forall k :: 0 <= k < |a| ==> s[k] == a[k];
    assert forall k :: |a| <= k < |a| + |m| ==> s[k] == m[k - |a|];
    assert forall k :: |a| + |m| <= k < |s| ==> s[k] == b[k - |a| - |m|];
    if m != "" {
      assert s[|a|] == m[0] && s[|a| + |m| - 1] == m[|m| - 1];
      assert i <= |a| < |a| + |m| <= j;
      assert s[i..j][0] == s[i] && s[i..j][j - i - 1] == s[j - 1];
      assert i == |a| && j == |a| + |m|;
    }
  }

  lemma TrimmedIsFixed(s: string, p: char -> bool)
    ensures TrimBy(s, p) == s <==> TrimmedBy(s, p)
    ensures TrimmedBy(TrimBy(s, p), p)
  {
    hide TrimBy;
    var a, b := TrimParts(s, p);
    if TrimmedBy(s, p) {
      TrimIs("", s, "", p);
      assert "" + s + "" == s;
    }
  }

  /** The characters the Unicode White_Space property holds for. */
  predicate IsWhitespace(c: char) {
    var n := c as int;
    9 <= n <= 13 || n == 0x20 || n == 0x85 || n == 0xA0 || n == 0x1680 || 0x2000 <= n <= 0x200A
    || n == 0x2028 || n == 0x2029 || n == 0x202F || n == 0x205F || n == 0x3000
  }

  function Trim(s: string): string {
    TrimBy(s, IsWhitespace)
  }

  predicate IsSlash(c: char) { c == '/' }

  predicate Trimmed(s: string) {
    TrimmedBy(s, IsWhitespace)
  }
}
