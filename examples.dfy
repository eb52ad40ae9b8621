/** Worked inputs that pin down how the extractor treats typical and
    unusual lines. */
module Examples {
  import opened Wrappers
  import opened Chars
  import opened Scan
  import opened Numbers
  import opened Patterns
  import opened Values
  import opened Extract

  /** The payload `0A 1B FF` converts to the list [10, 27, 255]. */
  lemma {:induction false} ByteListExample()
    ensures ParseByteList("0A 1B FF") == Success([10, 27, 255])
  {
    ExampleTokens();
    ExampleTokenValues();
  }

  /** `Data Bytes: 0A 1B FF` is a byte line with that payload. */
  lemma {:induction false} ByteLineExample()
    ensures Classify("Data Bytes: 0A 1B FF") == BytesLine("0A 1B FF")
  {
    var s := "Data Bytes: 0A 1B FF";
    NoIdIn(s);
    BytesPayload(s, "0A 1B FF");
  }

  /** Under any identifier, that line stores the converted list in the
      `Data Bytes` channel. */
  lemma {:induction false} ByteListStored(id: string)
    ensures Run([IdLine(id), BytesLine("0A 1B FF")]).log == [Record(id, DATA_BYTES, Bytes([10, 27, 255]))]
  {
    ByteListExample();
    BytesUnderId(id, "0A 1B FF", [10, 27, 255]);
  }

  /** An identifier line followed by a byte line stores the converted list. */
  lemma {:induction false} BytesUnderId(id: string, payload: string, bytes: seq<int>)
    requires ParseByteList(payload) == Success(bytes)
    ensures Run([IdLine(id), BytesLine(payload)]).log == [Record(id, DATA_BYTES, Bytes(bytes))]
  {
    var first := [IdLine(id)];
    var both := [IdLine(id), BytesLine(payload)];
    assert first[..0] == [];
    assert Run(first[..0]) == Pass(None, [], None);
    var p := Run(first);
    assert p == Step(Pass(None, [], None), IdLine(id));
    assert both[..1] == first;
    assert Run(both) == Step(p, BytesLine(payload));
  }

  /** A carriage return left by a CRLF line ending is whitespace: the payload
      splits as without it. */
  lemma {:induction false} CarriageReturnPayload()
    ensures SplitWhitespace("0A 1B FF\r") == ["0A", "1B", "FF"]
  {
    ExampleTokens();
    SplitAround("0A 1B FF", "\r", []);
    assert "0A 1B FF" + "\r" + [] == "0A 1B FF\r";
    assert SplitWhitespace([]) == [];
  }

  /** A line without an `I` holds no identifier. */
  lemma {:induction false} NoIdIn(s: string)
    requires 'I' !in s
    ensures MatchId(s).None?
  {
    NoIdPrefix(s);
    forall p: nat | p <= |s| ensures IdAt(s, p).None? {
      assert !OccursAt(s, p, "ID:");
    }
  }

  lemma {:induction false} NoIdPrefix(s: string)
    requires 'I' !in s
    ensures forall p: nat :: p <= |s| ==> !OccursAt(s, p, "ID:")
  {
    forall p: nat | p <= |s| ensures !OccursAt(s, p, "ID:") {
      if p + 3 <= |s| {
        assert s[p..p + 3][0] == s[p];
      }
    }
  }

  lemma {:induction false} ExampleTokens()
    ensures SplitWhitespace("0A 1B FF") == ["0A", "1B", "FF"]
  {
    var tokens := ["0A", "1B", "FF"];
    assert JoinSpaced(tokens[1..][1..]) == "FF";
    assert JoinSpaced(tokens[1..]) == "1B FF";
    assert JoinSpaced(tokens) == "0A 1B FF";
    assert IsToken(tokens[0]) && IsToken(tokens[1]) && IsToken(tokens[2]);
    SplitJoinRoundTrip(tokens);
  }

  lemma {:induction false} ExampleTokenValues()
    ensures ParseTokens(["0A", "1B", "FF"]) == Success([10, 27, 255])
  {
    assert DigitValue('0', 16) == 0 && DigitValue('A', 16) == 10;
    HexTokenValue("0A", 10);
    TwoTokenValues();
    ParseTokensCons("0A", ["1B", "FF"], 10, [27, 255]);
    assert ["0A"] + ["1B", "FF"] == ["0A", "1B", "FF"] && [10] + [27, 255] == [10, 27, 255];
  }

  lemma {:induction false} TwoTokenValues()
    ensures ParseTokens(["1B", "FF"]) == Success([27, 255])
  {
    assert DigitValue('1', 16) == 1 && DigitValue('B', 16) == 11;
    HexTokenValue("1B", 27);
    OneTokenValue();
    ParseTokensCons("1B", ["FF"], 27, [255]);
    assert ["1B"] + ["FF"] == ["1B", "FF"] && [27] + [255] == [27, 255];
  }

  lemma {:induction false} OneTokenValue()
    ensures ParseTokens(["FF"]) == Success([255])
  {
    assert DigitValue('F', 16) == 15;
    HexTokenValue("FF", 255);
    ParseTokensCons("FF", [], 255, []);
    assert ["FF"] + [] == ["FF"] && [255] + [] == [255];
  }

  /** Converting a token in front of a converted list. */
  lemma {:induction false} ParseTokensCons(t: string, rest: seq<string>, v: int, vs: seq<int>)
    requires ParseInt16(t) == Some(v) && ParseTokens(rest) == Success(vs)
    ensures ParseTokens([t] + rest) == Success([v] + vs)
  {
    var ts := [t] + rest;
    assert ts[0] == t && ts[1..] == rest;
  }

  /** A two-digit hexadecimal token and its value. */
  lemma {:induction false} HexTokenValue(t: string, v: nat)
    requires |t| == 2 && IsDigit(t[0], 16) && IsDigit(t[1], 16)
    requires v == DigitValue(t[0], 16) * 16 + DigitValue(t[1], 16)
    ensures ParseInt16(t) == Some(v)
  {
    PlainHexToken(t);
    var head := t[..1];
    assert head[..0] == [] && head[0] == t[0];
    assert DigitsValue(head, 16) == DigitValue(t[0], 16);
    assert DigitsValue(t, 16) == DigitsValue(head, 16) * 16 + DigitValue(t[1], 16);
  }

  /** A byte token is not limited to one byte: `1FF` is stored as 511. */
  lemma {:induction false} WideByteToken()
    ensures ParseInt16("1FF") == Some(511)
  {
    PlainHexToken("1FF");
    Value1FF();
  }

  lemma {:induction false} Value1FF()
    ensures DigitsValue("1FF", 16) == 511
  {
    assert "1FF"[..2] == "1F" && "1F"[..1] == "1" && "1"[..0] == [];
    assert DigitValue('1', 16) == 1 && DigitValue('F', 16) == 15;
  }

  /** A pattern whose first character does not occur is not removed. */
  lemma {:induction false} RemoveAbsent(s: string, pat: string)
    requires pat != [] && pat[0] !in s
    ensures RemoveAll(s, pat) == s
  {
    forall i | 0 <= i < |s| ensures !OccursAt(s, i, pat) {
      if i + |pat| <= |s| {
        assert s[i..i + |pat|][0] == s[i];
      }
    }
  }

  /** RemoveAll at the front of the text: an occurrence is cut, any other
      character kept. */
  lemma {:induction false} RemoveFront(s: string, pat: string)
    requires pat != [] && s != []
    ensures OccursAt(s, 0, pat) ==> RemoveAll(s, pat) == RemoveAll(s[|pat|..], pat)
    ensures !OccursAt(s, 0, pat) ==> RemoveAll(s, pat) == [s[0]] + RemoveAll(s[1..], pat)
  {
  }

  /** Unit stripping is not idempotent: removing `rpm` from `rrpmpm` joins
      the text around it into a new `rpm`, which a second pass would remove. */
  lemma {:induction false} StripUnitsNotIdempotent()
    ensures StripUnits("rrpmpm") == "rpm"
    ensures StripUnits("rpm") == ""
  {
    RemoveAbsent("rrpmpm", "A");
    RemoveAbsent("rpm", "A");
    RemoveRpm();
    RemoveAbsent("rpm", "deg");
    RemoveAbsent("rpm", "Nm");
    assert RemoveAll([], "deg") == [] && RemoveAll([], "Nm") == [];
  }

  lemma {:induction false} RemoveRpm()
    ensures RemoveAll("rrpmpm", "rpm") == "rpm"
    ensures RemoveAll("rpm", "rpm") == []
  {
    var s := "rrpmpm";
    assert s[0..3] == "rrp";
    RemoveFront(s, "rpm");
    assert s[1..] == "rpmpm";
    var t := "rpmpm";
    assert t[0..3] == "rpm";
    RemoveFront(t, "rpm");
    assert t[3..] == "pm";
    RemoveAbsent("pm", "rpm");
    RemoveFront("rpm", "rpm");
    assert "rpm"[0..3] == "rpm" && "rpm"[3..] == [];
    assert [s[0]] + "pm" == "rpm";
  }

  /** `120rpm` is stored as the number 120. */
  lemma {:induction false} UnitNumberExample()
    ensures Convert("120rpm") == Num(Finite(120 as real))
  {
    Strip120Rpm();
    Float120();
    ConvertNumber("120rpm", Finite(120 as real));
  }

  /** A measurement value whose stripped text float() reads is stored as that number. */
  lemma {:induction false} ConvertNumber(text: string, x: Number)
    requires ParseFloat(StripUnits(text)) == Some(x)
    ensures Convert(text) == Num(x)
  {
  }

  lemma {:induction false} Float120()
    ensures ParseFloat("120") == Some(Finite(120 as real))
  {
    WholeNumber("120");
    Value120();
  }

  lemma {:induction false} Strip120Rpm()
    ensures StripUnits("120rpm") == "120"
  {
    RemoveAbsent("120rpm", "A");
    Remove120Rpm();
    RemoveAbsent("120", "deg");
    RemoveAbsent("120", "Nm");
  }

  lemma {:induction false} Value120()
    ensures DigitsValue("120", 10) == 120
  {
    assert "120"[..2] == "12" && "12"[..1] == "1" && "1"[..0] == [];
  }

  lemma {:induction false} Remove120Rpm()
    ensures RemoveAll("120rpm", "rpm") == "120"
  {
    assert "rpm"[0..3] == "rpm" && "rpm"[3..] == [];
    RemoveFront("rpm", "rpm");
    assert "0rpm"[1..] == "rpm";
    KeepFront("0rpm", "rpm", []);
    assert "20rpm"[1..] == "0rpm";
    KeepFront("20rpm", "rpm", "0");
    assert "120rpm"[1..] == "20rpm";
    KeepFront("120rpm", "rpm", "20");
  }

  /** A first character that does not start the pattern is kept. */
  lemma {:induction false} KeepFront(s: string, pat: string, r: string)
    requires s != [] && pat != [] && s[0] != pat[0] && RemoveAll(s[1..], pat) == r
    ensures RemoveAll(s, pat) == [s[0]] + r
  {
    FrontKept(s, pat);
  }

  /** A text of decimal digits is read by float() as its value. */
  lemma {:induction false} WholeNumber(u: string)
    requires u != [] && forall k :: 0 <= k < |u| ==> IsDigit(u[k], 10)
    ensures ParseFloat(u) == Some(Finite(DigitsValue(u, 10) as real))
  {
    TrimNoSpace(u);
    LowerDigits(u);
    NotSpecialWord(u);
    WholeDecimal(u);
    FloatOfDecimal(u, DigitsValue(u, 10) as real);
  }

  /** float() of an unsigned decimal literal without surrounding whitespace. */
  lemma {:induction false} FloatOfDecimal(u: string, x: real)
    requires Trim(u) == u && u != [] && u[0] != '+' && u[0] != '-'
    requires LowerAscii(u) != "inf" && LowerAscii(u) != "infinity" && LowerAscii(u) != "nan"
    requires ParseDecimal(u) == Some(x)
    ensures ParseFloat(u) == Some(Finite(x))
  {
    assert SignLength(u) == 0 && !IsNegative(u) && u[0..] == u;
  }

  /** A word that does not start with `i` or `n` is none of float()'s special words. */
  lemma {:induction false} NotSpecialWord(w: string)
    requires w != [] && w[0] != 'i' && w[0] != 'n'
    ensures w != "inf" && w != "infinity" && w != "nan"
  {
    assert "inf"[0] == 'i' && "infinity"[0] == 'i' && "nan"[0] == 'n';
  }

  lemma {:induction false} TrimNoSpace(u: string)
    requires u != [] && !IsFloatSpace(u[0]) && !IsFloatSpace(u[|u| - 1])
    ensures Trim(u) == u
  {
  }

  lemma {:induction false} LowerDigits(u: string)
    requires forall k :: 0 <= k < |u| ==> IsDigit(u[k], 10)
    ensures LowerAscii(u) == u
  {
    if u != [] {
      LowerDigits(u[1..]);
    }
  }

  lemma {:induction false} WholeDecimal(u: string)
    requires u != [] && forall k :: 0 <= k < |u| ==> IsDigit(u[k], 10)
    ensures ParseDecimal(u) == Some(DigitsValue(u, 10) as real)
  {
    var j := GroupEnd(u, 0, 10);
    assert j == |u|;
    assert u[0..|u|] == u;
    DigitsOfDigitString(u, 10);
    assert GroupValue(u, 0, |u|, 10) == DigitsValue(u, 10);
    assert u[|u|..|u|] == [];
    assert Digits([]) == [];
  }

  /** A text that starts with a letter float() cannot begin with stays text,
      and is stored as written, units included. `STATUS_OK` is one. */
  lemma {:induction false} LetterFirstStaysText(v: string)
    requires v != [] && ('A' <= v[0] <= 'Z' || 'a' <= v[0] <= 'z') && v[0] !in "AiInNrd"
    ensures Convert(v) == Text(v)
  {
    StripKeepsFront(v);
    var t := StripUnits(v);
    TrimKeepsFront(t);
    LetterFirstNotFloat(t);
  }

  /** float() rejects a text whose trimmed form starts with a letter other
      than the first letters of `inf`, `infinity` and `nan`. */
  lemma {:induction false} LetterFirstNotFloat(s: string)
    requires var u := Trim(s); u != [] && ('A' <= u[0] <= 'Z' || 'a' <= u[0] <= 'z') && u[0] !in "iInN"
    ensures ParseFloat(s).None?
  {
    var u := Trim(s);
    assert SignLength(u) == 0 && u[0..] == u;
    LowerFront(u);
    NotSpecialWord(LowerAscii(u));
    NoDigitNoDecimal(u);
  }

  lemma {:induction false} LowerFront(u: string)
    requires u != [] && u[0] !in "iInN"
    ensures LowerAscii(u) != [] && LowerAscii(u)[0] != 'i' && LowerAscii(u)[0] != 'n'
  {
    assert LowerAscii(u) == [LowerAscii(u)[0]] + LowerAscii(u[1..]);
  }

  /** A decimal literal starts with a digit or a point. */
  lemma {:induction false} NoDigitNoDecimal(u: string)
    requires u != [] && !IsDigit(u[0], 10) && u[0] != '.'
    ensures ParseDecimal(u).None?
  {
  }

  /** A separator character U+001C to U+001F after a number is whitespace to
      `\s*(.*)`, so the value keeps it, but float() does not strip it: the
      value is stored as text. */
  lemma {:induction false} SeparatorStaysText()
    ensures Convert("5\U{1F}") == Text("5\U{1F}")
  {
    DigitSeparatorText('5', '\U{1F}');
    assert ['5', '\U{1F}'] == "5\U{1F}";
  }

  lemma {:induction false} DigitSeparatorText(d: char, c: char)
    requires IsDigit(d, 10) && 0x1C <= c as int <= 0x1F
    ensures Convert([d, c]) == Text([d, c])
  {
    var v := [d, c];
    forall i | 0 <= i < |v|
      ensures !OccursAt(v, i, "A") && !OccursAt(v, i, "rpm") && !OccursAt(v, i, "deg") && !OccursAt(v, i, "Nm")
    {
      assert v[i..][0] == v[i];
    }
    assert StripUnits(v) == v;
    DigitSeparatorNotFloat(d, c);
  }

  /** float() rejects a digit followed by a separator character. */
  lemma {:induction false} DigitSeparatorNotFloat(d: char, c: char)
    requires IsDigit(d, 10) && 0x1C <= c as int <= 0x1F
    ensures ParseFloat([d, c]).None?
  {
    var u := [d, c];
    TrimNoSpace(u);
    assert SignLength(u) == 0 && u[0..] == u;
    assert |LowerAscii(u)| == 2;
    assert GroupEnd(u, 0, 10) == 1;
    assert ParseDecimal(u).None?;
  }

  lemma {:induction false} StatusTextExample()
    ensures Convert("STATUS_OK") == Text("STATUS_OK")
  {
    LetterFirstStaysText("STATUS_OK");
  }

  /** The units are removed after the first character when it starts none of them. */
  lemma {:induction false} StripKeepsFront(v: string)
    requires v != [] && v[0] !in "ArdN"
    ensures StripUnits(v) != [] && StripUnits(v)[0] == v[0]
  {
    FrontKept(v, "A");
    var a := RemoveAll(v, "A");
    FrontKept(a, "rpm");
    var b := RemoveAll(a, "rpm");
    FrontKept(b, "deg");
    var c := RemoveAll(b, "deg");
    FrontKept(c, "Nm");
  }

  lemma {:induction false} FrontKept(s: string, pat: string)
    requires s != [] && pat != [] && s[0] != pat[0]
    ensures RemoveAll(s, pat) != [] && RemoveAll(s, pat)[0] == s[0]
  {
    RemoveFront(s, pat);
  }

  /** Trimming keeps a first character that is not whitespace. */
  lemma {:induction false} TrimKeepsFront(t: string)
    requires t != [] && !IsFloatSpace(t[0])
    ensures Trim(t) != [] && Trim(t)[0] == t[0]
    decreases |t|
  {
    if IsFloatSpace(t[|t| - 1]) {
      TrimKeepsFront(t[..|t| - 1]);
    }
  }

  /** A `Data Bytes:` line also matches the measurement pattern, as the key
      `Bytes`: only the order of the tests sends it to the byte channel. */
  lemma {:induction false} ByteLineAlsoMeasurement()
    ensures MatchDataBytes("Data Bytes: 01") == Some("01")
    ensures MatchMeasurement("Data Bytes: 01") == Some(("Bytes", "01"))
  {
    ByteLineMatchesBoth("Data Bytes: 01");
  }

  lemma {:induction false} ByteLineMatchesBoth(s: string)
    requires s == "Data Bytes: 01"
    ensures MatchDataBytes(s) == Some("01")
    ensures MatchMeasurement(s) == Some(("Bytes", "01"))
  {
    MeasurementPositions(s);
    LeftmostMeasurement(s, 5, ("Bytes", "01"));
    BytesPayload(s, "01");
  }

  /** The search returns the match at the first position that matches. */
  lemma {:induction false} LeftmostMeasurement(s: string, p: nat, kv: (string, string))
    requires p <= |s| && MeasurementAt(s, p) == Some(kv)
    requires forall q: nat :: q < p ==> MeasurementAt(s, q).None?
    ensures MatchMeasurement(s) == Some(kv)
  {
    var r := MatchMeasurement(s);
    var p': nat :| p' <= |s| && MeasurementAt(s, p') == r && forall q: nat :: q < p' ==> MeasurementAt(s, q).None?;
    assert p' == p;
  }

  lemma {:induction false} MeasurementPositions(s: string)
    requires s == "Data Bytes: 01"
    ensures forall q: nat :: q < 5 ==> MeasurementAt(s, q).None?
    ensures MeasurementAt(s, 5) == Some(("Bytes", "01"))
  {
    NoKeyBeforeSpace(s);
    KeyBytes(s);
  }

  /** `Data` is followed by a space, not a colon. */
  lemma {:induction false} NoKeyBeforeSpace(s: string)
    requires s == "Data Bytes: 01"
    ensures forall q: nat :: q < 5 ==> MeasurementAt(s, q).None?
  {
    forall q: nat | q < 4 ensures MeasurementAt(s, q).None? {
      RunEndIs(s, q, 4, IsWordChar);
    }
  }

  lemma {:induction false} KeyBytes(s: string)
    requires s == "Data Bytes: 01"
    ensures MeasurementAt(s, 5) == Some(("Bytes", "01"))
  {
    RunEndIs(s, 5, 10, IsWordChar);
    RunEndIs(s, 11, 12, IsSpace);
    RunEndIs(s, 12, 14, NotNewline);
    assert s[5..10] == "Bytes" && s[12..14] == "01";
  }

  /** The byte pattern captures the payload after `Data Bytes: `. */
  lemma {:induction false} BytesPayload(s: string, payload: string)
    requires s == "Data Bytes: " + payload
    requires payload != [] && !IsSpace(payload[0]) && '\n' !in payload
    ensures MatchDataBytes(s) == Some(payload)
  {
    assert OccursAt(s, 0, "Data Bytes:") by {
      assert s[0..11] == "Data Bytes:";
    }
    assert s[12] == payload[0];
    RunEndIs(s, 11, 12, IsSpace);
    assert forall k :: 12 <= k < |s| ==> s[k] == payload[k - 12];
    assert forall k :: 12 <= k < |s| ==> s[k] in payload;
    RunEndIs(s, 12, |s|, NotNewline);
    assert s[12..] == payload;
    assert RestOfLine(s, 12) == payload;
    assert DataBytesAt(s, 0) == Some(payload);
  }

  /** `12.5A` is stored as the number 12.5. */
  lemma {:induction false} AmpereExample()
    ensures Convert("12.5A") == Num(Finite(12.5))
  {
    Strip125A();
    Float125();
  }

  lemma {:induction false} Strip125A()
    ensures StripUnits("12.5A") == "12.5"
  {
    RemoveA125();
    RemoveAbsent("12.5", "rpm");
    RemoveAbsent("12.5", "deg");
    RemoveAbsent("12.5", "Nm");
  }

  lemma {:induction false} RemoveA125()
    ensures RemoveAll("12.5A", "A") == "12.5"
  {
    assert "A"[0..1] == "A" && "A"[1..] == [];
    RemoveFront("A", "A");
    assert "5A"[1..] == "A";
    KeepFront("5A", "A", []);
    assert ".5A"[1..] == "5A";
    KeepFront(".5A", "A", "5");
    assert "2.5A"[1..] == ".5A";
    KeepFront("2.5A", "A", ".5");
    assert "12.5A"[1..] == "2.5A";
    KeepFront("12.5A", "A", "2.5");
  }

  lemma {:induction false} Float125()
    ensures ParseFloat("12.5") == Some(Finite(12.5))
  {
    var u := "12.5";
    TrimNoSpace(u);
    LowerFront(u);
    NotSpecialWord(LowerAscii(u));
    Decimal125();
    FloatOfDecimal(u, 12.5);
  }

  lemma {:induction false} Decimal125()
    ensures ParseDecimal("12.5") == Some(12.5)
  {
    var u := "12.5";
    assert GroupEnd(u, 1, 10) == 2;
    assert GroupEnd(u, 0, 10) == 2;
    assert GroupEnd(u, 3, 10) == 4;
    assert u[0..2] == "12" && u[3..4] == "5";
    assert Digits("12") == "12" by {
      assert "12"[1..] == "2" && "2"[1..] == [];
    }
    assert Digits("5") == "5" by {
      assert "5"[1..] == [];
    }
    assert DigitsValue("12", 10) == 12 by {
      assert "12"[..1] == "1" && "1"[..0] == [];
    }
    assert DigitsValue("5", 10) == 5 by {
      assert "5"[..0] == [];
    }
    assert GroupValue(u, 0, 2, 10) == 12;
    assert GroupValue(u, 3, 4, 10) == 5;
    assert Scale(125, -1) == 12.5;
  }

  /** Identifiers are kept as written: `0xAB` and `0xab` are two keys. */
  lemma {:induction false} IdCaseKept()
    ensures MatchId("ID: 0xAB") == Some("0xAB")
    ensures MatchId("ID: 0xab") == Some("0xab")
  {
    IdAtFront("ID: 0xAB");
    IdAtFront("ID: 0xab");
  }

  lemma {:induction false} IdAtFront(s: string)
    requires |s| == 8 && s[..5] == "ID: 0" && s[5] == 'x' && IsHexDigit(s[6]) && IsHexDigit(s[7])
    ensures MatchId(s) == Some(s[4..])
  {
    assert OccursAt(s, 0, "ID:") by {
      assert s[0..3] == s[..5][0..3];
    }
    RunEndIs(s, 3, 4, IsSpace);
    assert OccursAt(s, 4, "0x") by {
      assert s[4..6] == [s[4], s[5]];
    }
    RunEndIs(s, 6, 8, IsHexDigit);
    assert IdAt(s, 0) == Some(s[4..8]);
    assert s[4..8] == s[4..];
  }
}
