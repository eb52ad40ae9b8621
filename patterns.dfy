/** The three line patterns of the extractor, each as a match anchored at a
    position (`...At`) and a leftmost search over the line (`Match...`), as
    re.search performs it:
      identifier   `ID:\s*(0x[0-9A-Fa-f]+)`
      byte vector  `Data Bytes:\s*(.*)`
      measurement  `(\w+):\s*(.*)`                                        */
module Patterns {
  import opened Wrappers
  import opened Chars
  import opened Scan

  predicate IsHexDigit(c: char) { IsDigit(c, 16) }

  /** Every character of `s[i..j]` is whitespace. */
  predicate AllSpace(s: string, i: nat, j: nat)
    requires i <= j <= |s|
  {
    forall k :: i <= k < j ==> IsSpace(s[k])
  }

  /** A `0x` literal with at least one hexadecimal digit and nothing else. */
  predicate IsHexLiteral(t: string) {
    |t| >= 3 && t[0] == '0' && t[1] == 'x' && forall k :: 2 <= k < |t| ==> IsHexDigit(t[k])
  }

  /** The identifier pattern anchored at `i`; the captured literal. */
  function IdAt(s: string, i: nat): (r: Option<string>)
    ensures r.Some? ==> OccursAt(s, i, "ID:") && IsHexLiteral(r.value)
    ensures r.Some? ==>
      exists j :: i + 3 <= j <= |s| && AllSpace(s, i + 3, j) && OccursAt(s, j, r.value) &&
        (j + |r.value| == |s| || !IsHexDigit(s[j + |r.value|]))
    ensures OccursAt(s, i, "ID:") &&
      (exists j :: i + 3 <= j <= |s| - 3 && AllSpace(s, i + 3, j) && OccursAt(s, j, "0x") && IsHexDigit(s[j + 2]))
      ==> r.Some?
  {
    if OccursAt(s, i, "ID:") then
      var j := RunEnd(s, i + 3, IsSpace);
      SpacesBeforeLiteral(s, i + 3, j);
      if OccursAt(s, j, "0x") && j + 2 < |s| && IsHexDigit(s[j + 2]) then
        var e := RunEnd(s, j + 2, IsHexDigit);
        HexLiteralAt(s, j, e);
        Some(s[j..e])
      else None
    else None
  }

  /** The greedy run of spaces is the only place a `0x` can follow spaces. */
  lemma {:induction false} SpacesBeforeLiteral(s: string, a: nat, j: nat)
    requires a <= |s| && j == RunEnd(s, a, IsSpace)
    ensures AllSpace(s, a, j)
    ensures forall j' :: a <= j' <= |s| - 3 && AllSpace(s, a, j') && OccursAt(s, j', "0x") ==> j' == j
  {
    forall j' | a <= j' <= |s| - 3 && AllSpace(s, a, j') && OccursAt(s, j', "0x") ensures j' == j {
      assert s[j'] == s[j'..j' + 2][0] == '0';
      RunEndIs(s, a, j', IsSpace);
    }
  }

  /** `0x` and a maximal run of hexadecimal digits form a literal found
      verbatim at `j`. */
  lemma {:induction false} HexLiteralAt(s: string, j: nat, e: nat)
    requires OccursAt(s, j, "0x") && j + 2 < |s| && IsHexDigit(s[j + 2]) && e == RunEnd(s, j + 2, IsHexDigit)
    ensures IsHexLiteral(s[j..e]) && OccursAt(s, j, s[j..e])
    ensures e == |s| || !IsHexDigit(s[e])
  {
    var lit := s[j..e];
    assert |lit| == e - j;
    assert lit[0] == s[j..j + 2][0] && lit[1] == s[j..j + 2][1];
    assert forall k :: 2 <= k < |lit| ==> lit[k] == s[j + k];
  }

  /** re.search for the identifier pattern: the literal captured at the
      leftmost position where the pattern matches. */
  function MatchId(line: string): (r: Option<string>)
    ensures r.None? ==> forall p: nat :: p <= |line| ==> IdAt(line, p).None?
    ensures r.Some? ==> IsHexLiteral(r.value)
    ensures r.Some? ==>
      exists p: nat :: p <= |line| && IdAt(line, p) == r && forall q: nat :: q < p ==> IdAt(line, q).None?
  {
    var at := (k: nat) => IdAt(line, k);
    var m := FirstMatch(at, 0, |line|);
    assert forall k: nat {:trigger IdAt(line, k)} :: at(k) == IdAt(line, k);
    match m
    case None => None
    case Some(p) => IdAt(line, p)
  }

  /** The byte-vector pattern anchored at `i`; the captured rest of the line. */
  function DataBytesAt(s: string, i: nat): (r: Option<string>)
    ensures r.Some? <==> OccursAt(s, i, "Data Bytes:")
    ensures r.Some? ==> forall k :: 0 <= k < |r.value| ==> r.value[k] != '\n'
    ensures r.Some? ==> r.value == [] || !IsSpace(r.value[0])
    ensures r.Some? ==>
      exists j :: i + 11 <= j <= |s| && AllSpace(s, i + 11, j) && (j == |s| || !IsSpace(s[j])) &&
        OccursAt(s, j, r.value) && (j + |r.value| == |s| || s[j + |r.value|] == '\n')
  {
    if OccursAt(s, i, "Data Bytes:") then
      var j := RunEnd(s, i + 11, IsSpace);
      var rest := RestOfLine(s, j);
      assert rest != [] ==> rest[0] == s[j];
      assert AllSpace(s, i + 11, j);
      Some(rest)
    else None
  }

  /** re.search for the byte-vector pattern. */
  function MatchDataBytes(line: string): (r: Option<string>)
    ensures r.None? ==> forall p: nat :: p <= |line| ==> DataBytesAt(line, p).None?
    ensures r.Some? ==>
      exists p: nat :: p <= |line| && DataBytesAt(line, p) == r && forall q: nat :: q < p ==> DataBytesAt(line, q).None?
  {
    var at := (k: nat) => DataBytesAt(line, k);
    var m := FirstMatch(at, 0, |line|);
    assert forall k: nat {:trigger DataBytesAt(line, k)} :: at(k) == DataBytesAt(line, k);
    match m
    case None => None
    case Some(p) => DataBytesAt(line, p)
  }

  /** `s[i..e]` is a non-empty run of word characters followed by a colon. */
  predicate WordColonAt(s: string, i: nat, e: nat) {
    i < e < |s| && s[e] == ':' && forall k :: i <= k < e ==> IsWordChar(s[k])
  }

  /** The measurement pattern anchored at `i`: the key and the captured rest
      of the line. */
  function MeasurementAt(s: string, i: nat): (r: Option<(string, string)>)
    ensures r.Some? <==> exists e :: WordColonAt(s, i, e)
    ensures r.Some? ==> WordColonAt(s, i, i + |r.value.0|) && OccursAt(s, i, r.value.0)
    ensures r.Some? ==> forall k :: 0 <= k < |r.value.1| ==> r.value.1[k] != '\n'
    ensures r.Some? ==>
      var a := i + |r.value.0| + 1;
      exists j :: a <= j <= |s| && AllSpace(s, a, j) && (j == |s| || !IsSpace(s[j])) &&
        OccursAt(s, j, r.value.1) && (j + |r.value.1| == |s| || s[j + |r.value.1|] == '\n')
  {
    if i < |s| && IsWordChar(s[i]) then
      var e := RunEnd(s, i, IsWordChar);
      assert forall e' :: WordColonAt(s, i, e') ==> e' == e by {
        forall e' | WordColonAt(s, i, e') ensures e' == e {
          RunEndIs(s, i, e', IsWordChar);
        }
      }
      if e < |s| && s[e] == ':' then
        assert WordColonAt(s, i, e);
        var j := RunEnd(s, e + 1, IsSpace);
        assert AllSpace(s, e + 1, j);
        Some((s[i..e], RestOfLine(s, j)))
      else None
    else
      assert forall e' :: !WordColonAt(s, i, e');
      None
  }

  /** re.search for the measurement pattern. */
  function MatchMeasurement(line: string): (r: Option<(string, string)>)
    ensures r.None? ==> forall p: nat :: p <= |line| ==> MeasurementAt(line, p).None?
    ensures r.Some? ==>
      exists p: nat :: p <= |line| && MeasurementAt(line, p) == r && forall q: nat :: q < p ==> MeasurementAt(line, q).None?
  {
    var at := (k: nat) => MeasurementAt(line, k);
    var m := FirstMatch(at, 0, |line|);
    assert forall k: nat {:trigger MeasurementAt(line, k)} :: at(k) == MeasurementAt(line, k);
    match m
    case None => None
    case Some(p) => MeasurementAt(line, p)
  }

  /** Which of the three patterns a line falls under, tried in the fixed
      order identifier, byte vector, measurement. */
  datatype LineKind =
    | IdLine(id: string)
    | BytesLine(payload: string)
    | MeasureLine(key: string, text: string)
    | Other

  function Classify(line: string): LineKind {
    match MatchId(line)
    case Some(id) => IdLine(id)
    case None =>
      match MatchDataBytes(line)
      case Some(payload) => BytesLine(payload)
      case None =>
        match MatchMeasurement(line)
        case Some(kv) => MeasureLine(kv.0, kv.1)
        case None => Other
  }

  /** A non-empty run of word characters: what `\w+` matches. */
  predicate IsWord(t: string) {
    t != [] && forall k :: 0 <= k < |t| ==> IsWordChar(t[k])
  }

  /** What a classified line carries: an identifier line a `0x` literal, a
      measurement line a key made of word characters. */
  lemma {:induction false} ClassifyShape(line: string)
    ensures Classify(line).IdLine? ==> MatchId(line) == Some(Classify(line).id) && IsHexLiteral(Classify(line).id)
    ensures Classify(line).MeasureLine? ==> IsWord(Classify(line).key)
  {
    if Classify(line).MeasureLine? {
      var p: nat :| p <= |line| && MeasurementAt(line, p) == MatchMeasurement(line) &&
        forall q: nat :: q < p ==> MeasurementAt(line, q).None?;
      AnchoredKeyIsWord(line, p);
    }
  }

  lemma {:induction false} AnchoredKeyIsWord(line: string, p: nat)
    requires MeasurementAt(line, p).Some?
    ensures IsWord(MeasurementAt(line, p).value.0)
  {
    var key := MeasurementAt(line, p).value.0;
    assert WordColonAt(line, p, p + |key|) && line[p..p + |key|] == key;
    forall k | 0 <= k < |key| ensures IsWordChar(key[k]) {
      assert key[k] == line[p..p + |key|][k] == line[p + k];
    }
  }
}
