/** What a data line contributes: the byte list of a `Data Bytes:` line, or
    the number or text of a measurement line. */
module Values {
  import opened Wrappers
  import opened Scan
  import opened Numbers

  /** One entry of a channel. Python stores a list of ints, a float or a str. */
  datatype Value = Bytes(bytes: seq<int>) | Num(number: Number) | Text(text: string)

  /** None of the four unit spellings occurs in `v`. */
  predicate NoUnitIn(v: string) {
    forall i :: 0 <= i < |v| ==>
      !OccursAt(v, i, "A") && !OccursAt(v, i, "rpm") && !OccursAt(v, i, "deg") && !OccursAt(v, i, "Nm")
  }

  /** The unit-stripping chain: every `A`, then every `rpm`, `deg` and `Nm`
      removed, in that order. */
  function StripUnits(v: string): (r: string)
    ensures |r| <= |v|
    ensures 'A' !in r
    ensures NoUnitIn(v) ==> r == v
  {
    RemoveAll(RemoveAll(RemoveAll(RemoveAll(v, "A"), "rpm"), "deg"), "Nm")
  }

  /** The value stored for a measurement text: the number float() reads from
      the stripped text, or the original text when it raises. */
  function Convert(text: string): (v: Value)
    ensures !v.Bytes?
    ensures v.Num? <==> ParseFloat(StripUnits(text)).Some?
    ensures v.Num? ==> ParseFloat(StripUnits(text)) == Some(v.number)
    ensures v.Text? ==> v.text == text
  {
    match ParseFloat(StripUnits(text))
    case Some(x) => Num(x)
    case None => Text(text)
  }

  /** `[int(b, 16) for b in tokens]`: the values in order, or the first token
      that int() rejects. */
  function ParseTokens(tokens: seq<string>): (r: Result<seq<int>, string>)
    ensures r.Success? ==>
      |r.value| == |tokens| && forall k :: 0 <= k < |tokens| ==> ParseInt16(tokens[k]) == Some(r.value[k])
    ensures r.Failure? ==>
      exists k :: 0 <= k < |tokens| && tokens[k] == r.error && ParseInt16(tokens[k]).None? &&
        forall j :: 0 <= j < k ==> ParseInt16(tokens[j]).Some?
  {
    if tokens == [] then Success([])
    else
      match ParseInt16(tokens[0])
      case None => Failure(tokens[0])
      case Some(b) =>
        match ParseTokens(tokens[1..])
        case Failure(t) =>
          assert forall k :: 1 <= k < |tokens| ==> tokens[k] == tokens[1..][k - 1];
          Failure(t)
        case Success(bs) => Success([b] + bs)
  }

  /** The byte list of a `Data Bytes:` payload: its whitespace-separated
      tokens read as base-16 integers. */
  function ParseByteList(payload: string): Result<seq<int>, string> {
    ParseTokens(SplitWhitespace(payload))
  }
}
