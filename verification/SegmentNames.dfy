/** Segment file names: printing, parsing, and recognising them in a path. */
module SegmentNames {
  import opened Options
  import opened Text
  import opened Utf8

  const COMPACTION_DIR := "compaction"
  const INDEX_FILE := "INDEX.md"
  const SEGMENT_PREFIX := "segment_"
  const SUFFIX := ".md"
  const U64_LIMIT: nat := 0x1_0000_0000_0000_0000

  function SegmentLabel(index: nat): string {
    var digits := Decimal(index);
    Zeros(if |digits| < 3 then 3 - |digits| else 0) + digits
  }

  function Zeros(n: nat): (s: string)
    ensures |s| == n && forall k :: 0 <= k < n ==> s[k] == '0'
  {
    seq(n, _ => '0')
  }

  function SegmentFilename(index: nat): string {
    SEGMENT_PREFIX + SegmentLabel(index) + SUFFIX
  }

  predicate AllDigits(s: string) {
    forall k :: 0 <= k < |s| ==> '0' <= s[k] <= '9'
  }

  function DecimalValue(s: string): nat
    requires AllDigits(s)
  {
    if s == "" then 0
    else DecimalValue(s[..|s| - 1]) * 10 + (s[|s| - 1] - '0') as int
  }

  /** `u64::from_str`: an optional plus sign, then digits, in range. */
  function ParseU64(s: string): Option<nat> {
    var digits := if s != "" && s[0] == '+' then s[1..] else s;
    if digits == "" || !AllDigits(digits) || DecimalValue(digits) >= U64_LIMIT then None
    else Some(DecimalValue(digits))
  }

  function ParseSegmentIndex(filename: string): Option<nat> {
    if !At(filename, 0, SEGMENT_PREFIX) then None
    else
      var rest := filename[|SEGMENT_PREFIX|..];
      if !At(rest, |rest| - |SUFFIX|, SUFFIX) then None
      else ParseU64(rest[..|rest| - |SUFFIX|])
  }

  datatype CompactionArtifact = Segment(index: nat) | Index | Dir

  function ClassifyCompactionPath(path: string): Option<CompactionArtifact> {
    var trimmed := TrimEndBy(path, IsSlash);
    var cut := |trimmed| - |COMPACTION_DIR|;
    if trimmed == COMPACTION_DIR
       || (At(trimmed, cut, COMPACTION_DIR) && cut > 0 && trimmed[cut - 1] == '/')
    then Some(Dir)
    else
      var at := FindLast(path, COMPACTION_DIR);
      if at.None? then None
      else
        var after := path[at.value + |COMPACTION_DIR|..];
        if after == "" || after[0] != '/' then None
        else
          var rest := after[1..];
          var index := ParseSegmentIndex(rest);
          if index.Some? then Some(Segment(index.value))
          else if rest == INDEX_FILE then Some(Index)
          else None
  }

  // ---- printing and parsing ----

  lemma {:induction false} DecimalRoundTrip(n: nat)
    ensures AllDigits(Decimal(n)) && DecimalValue(Decimal(n)) == n
  {
    var s := Decimal(n);
    if n >= 10 {
      DecimalRoundTrip(n / 10);
      assert s[..|s| - 1] == Decimal(n / 10);
    }
    assert (s[|s| - 1] - '0') as int == n % 10;
  }

  lemma {:induction false} LeadingZeros(n: nat, s: string)
    requires AllDigits(s)
    ensures AllDigits(Zeros(n) + s) && DecimalValue(Zeros(n) + s) == DecimalValue(s)
  {
    var all := Zeros(n) + s;
    if s != "" {
      assert all[..|all| - 1] == Zeros(n) + s[..|s| - 1];
      LeadingZeros(n, s[..|s| - 1]);
    } else if n > 0 {
      assert all[..n - 1] == Zeros(n - 1) + s;
      LeadingZeros(n - 1, s);
    }
  }

  /** Every index names a file that parses back to it. */
  lemma SegmentRoundTrip(index: nat)
    ensures ParseSegmentIndex(SegmentFilename(index)) == if index < U64_LIMIT then Some(index) else None
  {
    hide Decimal, DecimalValue, At;
    var padded := SegmentLabel(index);
    var digits := Decimal(index);
    DecimalRoundTrip(index);
    LeadingZeros(if |digits| < 3 then 3 - |digits| else 0, digits);
    assert padded[0] != '+';
    var name := SegmentFilename(index);
    Pieces("", SEGMENT_PREFIX, padded + SUFFIX);
    Pieces(padded, SUFFIX, "");
    assert "" + SEGMENT_PREFIX + (padded + SUFFIX) == name;
    assert padded + SUFFIX + "" == padded + SUFFIX;
    assert name[|SEGMENT_PREFIX|..] == padded + SUFFIX;
  }

  // ---- recognising a path ----

  /** What the classifier takes for a segment's file name holds no `c`. */
  lemma SegmentNameChars(name: string)
    requires ParseSegmentIndex(name).Some?
    ensures |name| > |SUFFIX| && forall k :: 0 <= k < |name| ==> name[k] != 'c'
    ensures name[|name| - 1] == 'd'
  {
    hide DecimalValue;
    var rest := name[|SEGMENT_PREFIX|..];
    var n := |rest| - |SUFFIX|;
    var number := rest[..n];
    var digits := if number[0] == '+' then number[1..] else number;
    assert forall k :: 0 <= k < |number| ==> number[k] != 'c' by {
      assert forall k :: 1 <= k < |number| ==> number[k] == number[1..][k - 1];
    }
    AtChars(name, 0, SEGMENT_PREFIX);
    AtChars(rest, n, SUFFIX);
    forall k | 0 <= k < |name| ensures name[k] != 'c' {
      if k >= |SEGMENT_PREFIX| {
        assert name[k] == rest[k - |SEGMENT_PREFIX|];
        if k - |SEGMENT_PREFIX| < n { assert rest[k - |SEGMENT_PREFIX|] == number[k - |SEGMENT_PREFIX|]; }
      }
    }
    assert name[|name| - 1] == rest[|rest| - 1] == SUFFIX[2];
  }

  /** The rightmost `compaction` is the directory's when no `c` follows it. */
  lemma RightmostDir(p: string, name: string)
    requires name != "" && forall k :: 0 <= k < |name| ==> name[k] != 'c'
    ensures FindLast(p + COMPACTION_DIR + "/" + name, COMPACTION_DIR) == Some(|p|)
  {
    hide FindLast;
    var path := p + COMPACTION_DIR + "/" + name;
    Pieces(p, COMPACTION_DIR, "/" + name);
    assert path == p + COMPACTION_DIR + ("/" + name);
    forall j: int | j > |p| ensures !At(path, j, COMPACTION_DIR) {
      if At(path, j, COMPACTION_DIR) { LaterDir(p, name, j); }
    }
    LastIs(path, COMPACTION_DIR, |p|);
  }

  lemma LaterDir(p: string, name: string, j: int)
    requires j > |p| && At(p + COMPACTION_DIR + "/" + name, j, COMPACTION_DIR)
    ensures 'c' in name
  {
    var path := p + COMPACTION_DIR + "/" + name;
    assert path[j] == COMPACTION_DIR[0] && path[j + 1] == COMPACTION_DIR[1] by { AtChars(path, j, COMPACTION_DIR); }
    if j < |p| + 11 {
      assert forall k :: 0 <= k < 10 ==> path[|p| + k] == COMPACTION_DIR[k];
      assert path[|p| + 10] == '/';
    } else {
      assert path[j] == name[j - |p| - 11];
    }
  }

  lemma NotTheDir(p: string, name: string)
    requires name != "" && name[|name| - 1] == 'd'
    ensures var path := p + COMPACTION_DIR + "/" + name; var trimmed := TrimEndBy(path, IsSlash);
            trimmed == path && trimmed != COMPACTION_DIR && !At(trimmed, |trimmed| - |COMPACTION_DIR|, COMPACTION_DIR)
  {
    var path := p + COMPACTION_DIR + "/" + name;
    var cut := |path| - |COMPACTION_DIR|;
    assert path[|path| - 1] == 'd';
    if At(path, cut, COMPACTION_DIR) {
      AtChars(path, cut, COMPACTION_DIR);
    }
  }

  lemma ClassifyUnfold(p: string, name: string)
    requires var path := p + COMPACTION_DIR + "/" + name; var trimmed := TrimEndBy(path, IsSlash);
             trimmed == path && trimmed != COMPACTION_DIR && !At(trimmed, |trimmed| - |COMPACTION_DIR|, COMPACTION_DIR)
             && FindLast(path, COMPACTION_DIR) == Some(|p|)
    ensures ClassifyCompactionPath(p + COMPACTION_DIR + "/" + name)
         == if ParseSegmentIndex(name).Some? then Some(Segment(ParseSegmentIndex(name).value))
            else if name == INDEX_FILE then Some(Index) else None
  {
    hide ParseSegmentIndex, TrimEndBy, FindLast, At;
    var path := p + COMPACTION_DIR + "/" + name;
    assert path[|p| + |COMPACTION_DIR|..] == "/" + name;
    assert ("/" + name)[1..] == name;
  }

  lemma Recognised(p: string, name: string)
    requires ParseSegmentIndex(name).Some? || name == INDEX_FILE
    ensures ClassifyCompactionPath(p + COMPACTION_DIR + "/" + name)
         == Some(if ParseSegmentIndex(name).Some? then Segment(ParseSegmentIndex(name).value) else Index)
  {
    if ParseSegmentIndex(name).Some? { SegmentNameChars(name); }
    hide *;
    IndexNameChars();
    RightmostDir(p, name);
    NotTheDir(p, name);
    ClassifyUnfold(p, name);
  }

  lemma IndexNameChars()
    ensures INDEX_FILE != "" && INDEX_FILE[|INDEX_FILE| - 1] == 'd'
    ensures forall k :: 0 <= k < |INDEX_FILE| ==> INDEX_FILE[k] != 'c'
    ensures |SUFFIX| > 0
  {
  }

  /** A path split at its last `compaction/`. */
  predicate InDir(path: string, p: string, name: string) {
    path == p + COMPACTION_DIR + "/" + name
  }

  /** A path is read as a segment exactly when it ends in `compaction/` and a parsable name,
      whatever stands before, further occurrences of `compaction` included. */
  lemma SegmentPathIff(path: string, index: nat)
    ensures ClassifyCompactionPath(path) == Some(Segment(index))
       <==> exists p, name :: InDir(path, p, name) && ParseSegmentIndex(name) == Some(index)
  {
    hide ParseSegmentIndex, TrimEndBy, FindLast, ClassifyCompactionPath;
    if ClassifyCompactionPath(path) == Some(Segment(index)) {
      var p, name := SegmentParts(path, index);
    }
    if p, name :| InDir(path, p, name) && ParseSegmentIndex(name) == Some(index) {
      assert path == p + COMPACTION_DIR + "/" + name;
      Recognised(p, name);
    }
  }

  lemma SegmentParts(path: string, index: nat) returns (p: string, name: string)
    requires ClassifyCompactionPath(path) == Some(Segment(index))
    ensures InDir(path, p, name) && ParseSegmentIndex(name) == Some(index)
  {
    hide ParseSegmentIndex, TrimEndBy, FindLast, COMPACTION_DIR;
    var at := FindLast(path, COMPACTION_DIR).value;
    var after := path[at + |COMPACTION_DIR|..];
    p, name := path[..at], after[1..];
    PathParts(path, at);
    assert after == "/" + name;
  }

  lemma PathParts(path: string, at: nat)
    requires At(path, at, COMPACTION_DIR)
    ensures path == path[..at] + COMPACTION_DIR + path[at + |COMPACTION_DIR|..]
  {
    hide COMPACTION_DIR;
  }

  /** Every segment file is recognised under every directory prefix. */
  lemma SegmentFileRecognised(p: string, index: nat)
    requires index < U64_LIMIT
    ensures ClassifyCompactionPath(p + COMPACTION_DIR + "/" + SegmentFilename(index)) == Some(Segment(index))
  {
    hide *;
    SegmentRoundTrip(index);
    Recognised(p, SegmentFilename(index));
  }

  // ---- names and directories, character by character ----

  lemma {:induction false} DecimalStart(n: nat)
    ensures n > 0 ==> Decimal(n)[0] != '0'
    ensures n >= 1000 ==> |Decimal(n)| > 3
    ensures n < 1000 ==> |Decimal(n)| <= 3
  {
    DecimalLength(n);
    if n >= 10 {
      DecimalStart(n / 10);
      assert Decimal(n)[0] == Decimal(n / 10)[0];
    }
    if n >= 1000 {
      assert |Decimal(n)| == |Decimal(n / 10 / 10 / 10)| + 3;
    } else {
      DecimalAtMost(n, 3);
    }
  }

  /** A segment's file is named by its index in digits, at least three of them, and only as many as
      it takes. */
  lemma SegmentFilenameIs(index: nat)
    ensures SegmentFilename(index) == "segment_" + SegmentLabel(index) + ".md"
    ensures AllDigits(SegmentLabel(index)) && DecimalValue(SegmentLabel(index)) == index
    ensures if index < 1000 then |SegmentLabel(index)| == 3 else SegmentLabel(index)[0] != '0'
  {
    hide Decimal, DecimalValue;
    var digits := Decimal(index);
    DecimalRoundTrip(index);
    DecimalStart(index);
    NoZeros(digits);
    LeadingZeros(if |digits| < 3 then 3 - |digits| else 0, digits);
    SegmentText(index);
  }

  lemma NoZeros(digits: string)
    ensures Zeros(0) + digits == digits
  {
  }

  lemma SegmentText(index: nat)
    ensures SegmentFilename(index) == "segment_" + SegmentLabel(index) + ".md"
  {
    hide SegmentLabel;
  }

  /** A name of the parsed kind, in its pieces. */
  predicate IsSegmentName(name: string, sign: string, digits: string) {
    name == "segment_" + sign + digits + ".md" && (sign == "" || sign == "+") && digits != "" && AllDigits(digits)
  }

  /** A name is parsed exactly when digits, behind a sign if any, stand between prefix and suffix and
      their value is a 64-bit number. */
  lemma ParseSegmentIndexIff(name: string, index: nat)
    ensures ParseSegmentIndex(name) == Some(index)
       <==> index < 0x1_0000_0000_0000_0000
            && exists sign, digits :: IsSegmentName(name, sign, digits) && DecimalValue(digits) == index
  {
    hide ParseSegmentIndex, DecimalValue, AllDigits;
    if ParseSegmentIndex(name) == Some(index) {
      var sign, digits := ParsedParts(name, index);
    }
    if index < U64_LIMIT {
      if sign, digits :| IsSegmentName(name, sign, digits) && DecimalValue(digits) == index {
        PartsParsed(name, sign, digits, index);
      }
    }
  }

  lemma ParsedParts(name: string, index: nat) returns (sign: string, digits: string)
    requires ParseSegmentIndex(name) == Some(index)
    ensures index < U64_LIMIT && IsSegmentName(name, sign, digits) && DecimalValue(digits) == index
  {
    hide DecimalValue, AllDigits, ParseU64;
    var rest := name[|SEGMENT_PREFIX|..];
    var number := rest[..|rest| - |SUFFIX|];
    sign, digits := NumberParsed(number, index);
    NameParts(name);
    assert "segment_" + (sign + digits) + ".md" == "segment_" + sign + digits + ".md";
  }

  lemma NumberParsed(number: string, index: nat) returns (sign: string, digits: string)
    requires ParseU64(number) == Some(index)
    ensures number == sign + digits && (sign == "" || sign == "+") && digits != "" && AllDigits(digits)
    ensures DecimalValue(digits) == index < U64_LIMIT
  {
    hide DecimalValue, AllDigits;
    sign := if number != "" && number[0] == '+' then "+" else "";
    digits := number[|sign|..];
  }

  lemma PartsParsed(name: string, sign: string, digits: string, index: nat)
    requires IsSegmentName(name, sign, digits) && DecimalValue(digits) == index < U64_LIMIT
    ensures ParseSegmentIndex(name) == Some(index)
  {
    hide DecimalValue, At, ParseU64, AllDigits;
    assert "segment_" + sign + digits + ".md" == "segment_" + (sign + digits) + ".md";
    PartsName(name, sign + digits);
    ParsedNumber(sign, digits);
    assert |sign + digits + SUFFIX| - |SUFFIX| == |sign + digits|;
  }

  lemma ParsedNumber(sign: string, digits: string)
    requires (sign == "" || sign == "+") && digits != "" && AllDigits(digits) && DecimalValue(digits) < U64_LIMIT
    ensures ParseU64(sign + digits) == Some(DecimalValue(digits))
  {
    hide DecimalValue;
    assert digits[0] != '+';
    assert (sign + digits)[|sign|..] == digits;
  }

  lemma NameParts(name: string)
    requires At(name, 0, SEGMENT_PREFIX)
    requires var rest := name[|SEGMENT_PREFIX|..]; At(rest, |rest| - |SUFFIX|, SUFFIX)
    ensures var rest := name[|SEGMENT_PREFIX|..]; name == "segment_" + rest[..|rest| - |SUFFIX|] + ".md"
  {
    var rest := name[|SEGMENT_PREFIX|..];
    assert name == name[0..|SEGMENT_PREFIX|] + rest;
    assert rest == rest[..|rest| - |SUFFIX|] + SUFFIX;
  }

  lemma PartsName(name: string, number: string)
    requires name == "segment_" + number + ".md"
    ensures At(name, 0, SEGMENT_PREFIX) && name[|SEGMENT_PREFIX|..] == number + SUFFIX
    ensures At(number + SUFFIX, |number|, SUFFIX) && (number + SUFFIX)[..|number|] == number
  {
    Pieces("", SEGMENT_PREFIX, number + SUFFIX);
    Pieces(number, SUFFIX, "");
    assert "" + SEGMENT_PREFIX + (number + SUFFIX) == name && number + SUFFIX + "" == number + SUFFIX;
  }

  /** A path to the directory itself, in its pieces. */
  predicate IsDirPath(path: string, p: string, slashes: string) {
    && path == p + "compaction" + slashes && (p == "" || p[|p| - 1] == '/')
    && forall k :: 0 <= k < |slashes| ==> slashes[k] == '/'
  }

  /** A path is read as the directory exactly when it ends in a component `compaction`, slashes
      behind it or none. */
  lemma DirPathIff(path: string)
    ensures ClassifyCompactionPath(path) == Some(Dir) <==> exists p, slashes :: IsDirPath(path, p, slashes)
  {
    hide FindLast, TrimEndBy, ParseSegmentIndex;
    var trimmed := TrimEndBy(path, IsSlash);
    var cut := |trimmed| - |COMPACTION_DIR|;
    var slashes := path[|trimmed|..];
    assert forall k :: 0 <= k < |slashes| ==> slashes[k] == path[|trimmed| + k];
    if trimmed == COMPACTION_DIR {
      assert IsDirPath(path, "", slashes);
    } else if At(trimmed, cut, COMPACTION_DIR) && cut > 0 && trimmed[cut - 1] == '/' {
      var p := trimmed[..cut];
      assert trimmed == p + COMPACTION_DIR && path == trimmed + slashes;
      assert p[|p| - 1] == '/';
      assert IsDirPath(path, p, slashes);
    }
    if p, s :| IsDirPath(path, p, s) {
      TrimmedDir(path, p, s);
    }
  }

  lemma TrimmedDir(path: string, p: string, slashes: string)
    requires IsDirPath(path, p, slashes)
    ensures var trimmed := TrimEndBy(path, IsSlash);
            && trimmed == p + COMPACTION_DIR && |trimmed| - |COMPACTION_DIR| == |p|
            && At(trimmed, |p|, COMPACTION_DIR) && (p == "" ==> trimmed == COMPACTION_DIR)
            && (p != "" ==> trimmed[|p| - 1] == '/')
  {
    hide TrimEndBy;
    var trimmed, whole := TrimEndBy(path, IsSlash), p + COMPACTION_DIR;
    Pieces(p, COMPACTION_DIR, "");
    assert p + COMPACTION_DIR + "" == whole;
    assert path[|whole| - 1] == COMPACTION_DIR[9] == 'n';
    assert |trimmed| >= |whole|;
    assert forall k :: |whole| <= k < |path| ==> path[k] == slashes[k - |whole|] == '/';
    assert path[..|whole|] == whole;
  }

  /** A path is read as the index exactly when it ends in `compaction/INDEX.md`. */
  lemma IndexPathIff(path: string)
    ensures ClassifyCompactionPath(path) == Some(Index) <==> exists p :: InDir(path, p, INDEX_FILE)
  {
    hide ParseSegmentIndex, TrimEndBy, FindLast;
    if ClassifyCompactionPath(path) == Some(Index) {
      var at := FindLast(path, COMPACTION_DIR).value;
      var p := path[..at];
      assert path == p + COMPACTION_DIR + "/" + INDEX_FILE;
      assert InDir(path, p, INDEX_FILE);
    }
    if p :| InDir(path, p, INDEX_FILE) {
      Recognised(p, INDEX_FILE);
      IndexIsNoSegment();
    }
  }

  lemma IndexIsNoSegment()
    ensures ParseSegmentIndex(INDEX_FILE).None? && INDEX_FILE == "INDEX.md"
  {
    if At(INDEX_FILE, 0, SEGMENT_PREFIX) { AtChars(INDEX_FILE, 0, SEGMENT_PREFIX); }
  }
}
