/** The log extractor: one left-to-right pass over the lines that carries the
    current identifier and appends to a two-level table identifier ->
    measurement name -> list of values.

    Every line is first classified (`Kinds`); the pass is specified by `Run`,
    a fold over the line kinds whose state is the current identifier, the
    sequence of appends made so far and the failure that stopped the pass, if
    any. The table is a view of that sequence of
    appends (IdsOf, KeysOf, SeriesOf). `Dataset` is the table as the code
    builds it, in place, and `ExtractData` is the loop that builds it. */
module Extract {
  import opened Wrappers
  import opened Scan
  import opened Patterns
  import opened Values

  /** The reserved channel that byte vectors go to. */
  const DATA_BYTES := "Data Bytes"

  /** One append: `data[id][key].append(value)`. */
  datatype Record = Record(id: string, key: string, value: Value)

  /** Why a pass ended early: the upload was not UTF-8, or int(b, 16) raised. */
  datatype Error = DecodeError | BadHexToken(token: string)

  /** The state of the pass: the current identifier, the appends so far, and
      the failure that ended the pass. */
  datatype Pass = Pass(current: Option<string>, log: seq<Record>, failure: Option<Error>)

  /** What one line does to a pass that has not failed. A data line before
      any identifier line does nothing; the byte tokens are only converted
      when there is a current identifier. */
  function Step(p: Pass, kind: LineKind): Pass
    requires p.failure.None?
  {
    match kind
    case IdLine(id) => p.(current := Some(id))
    case BytesLine(payload) =>
      if p.current.None? then p
      else (
        match ParseByteList(payload)
        case Failure(token) => p.(failure := Some(BadHexToken(token)))
        case Success(bytes) => p.(log := p.log + [Record(p.current.value, DATA_BYTES, Bytes(bytes))]))
    case MeasureLine(key, text) =>
      if p.current.None? then p
      else p.(log := p.log + [Record(p.current.value, key, Convert(text))])
    case Other => p
  }

  /** The pass over lines of the given kinds; a failure ends it and later
      lines are ignored. */
  function Run(kinds: seq<LineKind>): Pass {
    if kinds == [] then Pass(None, [], None)
    else
      var p := Run(kinds[..|kinds| - 1]);
      if p.failure.Some? then p else Step(p, kinds[|kinds| - 1])
  }

  /** The kind of every line, in order. */
  function Kinds(lines: seq<string>): (kinds: seq<LineKind>)
    ensures |kinds| == |lines|
  {
    seq(|lines|, k requires 0 <= k < |lines| => Classify(lines[k]))
  }

  lemma {:induction false} KindsSnoc(lines: seq<string>, line: string)
    ensures Kinds(lines + [line]) == Kinds(lines) + [Classify(line)]
  {
    var a := Kinds(lines + [line]);
    var b := Kinds(lines) + [Classify(line)];
    forall k | 0 <= k < |a| ensures a[k] == b[k] {
      if k < |lines| {
        assert (lines + [line])[k] == lines[k];
      }
    }
  }

  /** The kinds of a prefix of the lines are a prefix of the kinds. */
  lemma {:induction false} KindsPrefix(lines: seq<string>, n: nat)
    requires n <= |lines|
    ensures Kinds(lines[..n]) == Kinds(lines)[..n]
  {
    var a := Kinds(lines[..n]);
    var b := Kinds(lines)[..n];
    forall k | 0 <= k < n ensures a[k] == b[k] {
      assert lines[..n][k] == lines[k];
    }
  }

  /** The whole extraction from the decoded upload (None: not UTF-8). */
  function Extracted(decoded: Option<string>): Pass {
    match decoded
    case None => Pass(None, [], Some(DecodeError))
    case Some(text) => Run(Kinds(ReadLines(text)))
  }

  /** The identifiers of the table, in the order they were first appended to
      (the keys of the outer dict). */
  function IdsOf(log: seq<Record>): seq<string>
  {
    if log == [] then []
    else
      var ids := IdsOf(log[..|log| - 1]);
      if log[|log| - 1].id in ids then ids else ids + [log[|log| - 1].id]
  }

  /** The measurement names under `id`, in the order they were first appended
      to (the keys of the inner dict). */
  function KeysOf(log: seq<Record>, id: string): seq<string>
  {
    if log == [] then []
    else
      var keys := KeysOf(log[..|log| - 1], id);
      var r := log[|log| - 1];
      if r.id == id && r.key !in keys then keys + [r.key] else keys
  }

  /** The list stored at `data[id][key]`. */
  function SeriesOf(log: seq<Record>, id: string, key: string): seq<Value> {
    if log == [] then []
    else
      var r := log[|log| - 1];
      SeriesOf(log[..|log| - 1], id, key) + (if r.id == id && r.key == key then [r.value] else [])
  }

  /** One more append adds one value at the end of one channel, creating the
      key and the identifier on first use, and changes nothing else. */
  lemma {:induction false} LogSnoc(log: seq<Record>, r: Record)
    ensures IdsOf(log + [r]) == if r.id in IdsOf(log) then IdsOf(log) else IdsOf(log) + [r.id]
    ensures forall id :: (KeysOf(log + [r], id) ==
      if r.id == id && r.key !in KeysOf(log, id) then KeysOf(log, id) + [r.key] else KeysOf(log, id))
    ensures forall id, key :: (SeriesOf(log + [r], id, key) ==
      SeriesOf(log, id, key) + (if r.id == id && r.key == key then [r.value] else []))
  {
    assert (log + [r])[..|log|] == log;
  }

  /** A key is present only if something was appended to it, and an
      identifier only if it has a key. */
  lemma {:induction false} PresentIffAppended(log: seq<Record>, id: string, key: string)
    ensures key in KeysOf(log, id) <==> SeriesOf(log, id, key) != []
    ensures id in IdsOf(log) <==> KeysOf(log, id) != []
  {
    if log != [] {
      PresentIffAppended(log[..|log| - 1], id, key);
    }
  }

  /** Every value of a channel was stored by an append to that channel. */
  lemma {:induction false} SeriesFrom(log: seq<Record>, id: string, key: string)
    ensures forall v :: v in SeriesOf(log, id, key) ==> Record(id, key, v) in log
  {
    if log != [] {
      var init := log[..|log| - 1];
      SeriesFrom(init, id, key);
      assert log == init + [log[|log| - 1]];
    }
  }

  /** The measurement names of every identifier (the inner dicts' keys). */
  ghost function NamesOf(log: seq<Record>): map<string, seq<string>> {
    map id | id in IdsOf(log) :: KeysOf(log, id)
  }

  /** The nested dict itself: identifier -> name -> list of values. */
  ghost function TableOf(log: seq<Record>): map<string, map<string, seq<Value>>> {
    map id | id in IdsOf(log) :: InnerOf(log, id)
  }

  /** The inner dict of one identifier: name -> list of values. */
  ghost function InnerOf(log: seq<Record>, id: string): map<string, seq<Value>> {
    map key | key in KeysOf(log, id) :: SeriesOf(log, id, key)
  }

  /** The keys of `id` after one more append: the new key joins at the end
      on first use. */
  function KeysAfter(log: seq<Record>, r: Record): seq<string> {
    var keys := KeysOf(log, r.id);
    if r.key in keys then keys else keys + [r.key]
  }

  /** One more append adds the identifier, if new, and the key, if new. */
  lemma {:induction false} NamesSnoc(log: seq<Record>, r: Record)
    ensures NamesOf(log + [r]) == NamesOf(log)[r.id := KeysAfter(log, r)]
  {
    LogSnoc(log, r);
    var want := NamesOf(log)[r.id := KeysAfter(log, r)];
    forall id ensures id in NamesOf(log + [r]) <==> id in want {
    }
    forall id | id in want ensures NamesOf(log + [r])[id] == want[id] {
    }
  }

  /** The inner dict of `id` after one more append: one list is longer by the
      appended value at its end; the other identifiers' inner dicts are unchanged. */
  lemma {:induction false} InnerSnoc(log: seq<Record>, r: Record)
    ensures InnerOf(log + [r], r.id) == InnerOf(log, r.id)[r.key := SeriesOf(log, r.id, r.key) + [r.value]]
    ensures forall id :: id != r.id ==> InnerOf(log + [r], id) == InnerOf(log, id)
  {
    InnerSnocSame(log, r);
    forall id | id != r.id ensures InnerOf(log + [r], id) == InnerOf(log, id) {
      InnerSnocOther(log, r, id);
    }
  }

  lemma {:induction false} InnerSnocSame(log: seq<Record>, r: Record)
    ensures InnerOf(log + [r], r.id) == InnerOf(log, r.id)[r.key := SeriesOf(log, r.id, r.key) + [r.value]]
  {
    LogSnoc(log, r);
    PresentIffAppended(log, r.id, r.key);
    var want := InnerOf(log, r.id)[r.key := SeriesOf(log, r.id, r.key) + [r.value]];
    forall key ensures key in InnerOf(log + [r], r.id) <==> key in want {
    }
    forall key | key in want ensures InnerOf(log + [r], r.id)[key] == want[key] {
    }
  }

  lemma {:induction false} InnerSnocOther(log: seq<Record>, r: Record, id: string)
    requires id != r.id
    ensures InnerOf(log + [r], id) == InnerOf(log, id)
  {
    LogSnoc(log, r);
    assert KeysOf(log + [r], id) == KeysOf(log, id);
    forall key ensures key in InnerOf(log + [r], id) <==> key in InnerOf(log, id) {
    }
    forall key | key in InnerOf(log, id) ensures InnerOf(log + [r], id)[key] == InnerOf(log, id)[key] {
      assert SeriesOf(log + [r], id, key) == SeriesOf(log, id, key);
    }
  }

  /** One more append updates the nested dict at one place only: the list
      `table[id][key]`, created empty on first use, gets the value at its end. */
  lemma {:induction false} TableSnoc(log: seq<Record>, r: Record)
    ensures var inner := if r.id in TableOf(log) then TableOf(log)[r.id] else map[];
      var list := if r.key in inner then inner[r.key] else [];
      TableOf(log + [r]) == TableOf(log)[r.id := inner[r.key := list + [r.value]]]
  {
    TableSnocAt(log, r);
    InnerSnoc(log, r);
    InnerOrEmpty(log, r.id);
    PresentIffAppended(log, r.id, r.key);
  }

  /** Only the inner dict of the appended identifier changes. */
  lemma {:induction false} TableSnocAt(log: seq<Record>, r: Record)
    ensures TableOf(log + [r]) == TableOf(log)[r.id := InnerOf(log + [r], r.id)]
  {
    LogSnoc(log, r);
    InnerSnoc(log, r);
    var want := TableOf(log)[r.id := InnerOf(log + [r], r.id)];
    forall id ensures id in TableOf(log + [r]) <==> id in want {
    }
    forall id | id in want ensures TableOf(log + [r])[id] == want[id] {
    }
  }

  /** An identifier not yet in the table has an empty inner dict. */
  lemma {:induction false} InnerOrEmpty(log: seq<Record>, id: string)
    ensures (if id in TableOf(log) then TableOf(log)[id] else map[]) == InnerOf(log, id)
  {
    if id !in IdsOf(log) {
      PresentIffAppended(log, id, "");
      assert KeysOf(log, id) == [];
    }
  }

  /** The nested table as the code builds it: the outer and inner dicts keep
      their keys in insertion order, as Python dicts do. */
  class Dataset {
    var ids: seq<string>
    var names: map<string, seq<string>>
    var series: map<string, map<string, seq<Value>>>
    ghost var Log: seq<Record>

    ghost predicate Valid()
      reads this
    {
      ids == IdsOf(Log) && names == NamesOf(Log) && series == TableOf(Log)
    }

    /** `defaultdict(lambda: defaultdict(list))`: the empty table. */
    constructor ()
      ensures Valid() && Log == []
    {
      ids, names, series := [], map[], map[];
      Log := [];
    }

    /** `data[id][key].append(v)`: the inner dict and the list are created on
        first use. */
    method Append(id: string, key: string, v: Value)
      requires Valid()
      modifies this
      ensures Valid()
      ensures Log == old(Log) + [Record(id, key, v)]
    {
      ghost var log := Log;
      var r := Record(id, key, v);
      assert (log + [r])[..|log|] == log;
      NamesSnoc(log, r);
      TableSnoc(log, r);
      PresentIffAppended(log, id, key);
      if id !in series {
        ids := ids + [id];
      }
      var inner := if id in series then series[id] else map[];
      var keys := if id in names then names[id] else [];
      var list := if key in inner then inner[key] else [];
      if key !in inner {
        keys := keys + [key];
      }
      names := names[id := keys];
      series := series[id := inner[key := list + [v]]];
      Log := log + [r];
    }
  }

  /** Step follows the source's chain of tests: an identifier line first, then
      a byte line under an identifier, then a measurement under an identifier.
      A byte line before any identifier falls through to the measurement test,
      which then does nothing either. */
  lemma {:induction false} StepByTests(p: Pass, line: string)
    requires p.failure.None?
    ensures Step(p, Classify(line)) ==
      if MatchId(line).Some? then p.(current := MatchId(line))
      else if MatchDataBytes(line).Some? && p.current.Some? then
        (match ParseByteList(MatchDataBytes(line).value)
         case Failure(token) => p.(failure := Some(BadHexToken(token)))
         case Success(bytes) => p.(log := p.log + [Record(p.current.value, DATA_BYTES, Bytes(bytes))]))
      else if MatchMeasurement(line).Some? && p.current.Some? then
        p.(log := p.log + [Record(p.current.value, MatchMeasurement(line).value.0, Convert(MatchMeasurement(line).value.1))])
      else p
  {
    var id, bytes, measure := MatchId(line), MatchDataBytes(line), MatchMeasurement(line);
    if id.Some? {
      assert Classify(line) == IdLine(id.value);
    } else if bytes.Some? {
      assert Classify(line) == BytesLine(bytes.value);
    } else if measure.Some? {
      assert Classify(line) == MeasureLine(measure.value.0, measure.value.1);
    } else {
      assert Classify(line) == Other;
    }
  }

  /** What any line can do to the pass: switch the current identifier (an
      identifier line and nothing else), end it without storing anything (a
      byte line and nothing else), or store one value under the current
      identifier. */
  lemma {:induction false} StepShape(p: Pass, kind: LineKind)
    requires p.failure.None?
    ensures Step(p, kind).current == if kind.IdLine? then Some(kind.id) else p.current
    ensures Step(p, kind).failure.Some? ==> kind.BytesLine? && Step(p, kind).log == p.log
    ensures kind.IdLine? ==> Step(p, kind).log == p.log
    ensures Step(p, kind).log == p.log ||
      (p.current.Some? && |Step(p, kind).log| == |p.log| + 1 &&
       Step(p, kind).log[..|p.log|] == p.log && Step(p, kind).log[|p.log|].id == p.current.value)
  {
    var q := Step(p, kind);
    if q.log != p.log {
      assert q.log[..|p.log|] == p.log;
    }
  }

  /** The pass over one more line. */
  lemma {:induction false} RunSnoc(kinds: seq<LineKind>, kind: LineKind)
    ensures Run(kinds + [kind]) == if Run(kinds).failure.Some? then Run(kinds) else Step(Run(kinds), kind)
  {
    assert (kinds + [kind])[..|kinds|] == kinds;
  }

  /** The pass over the first `k + 1` lines, from the pass over the first `k`. */
  lemma {:induction false} RunPrefixStep(kinds: seq<LineKind>, k: nat)
    requires k < |kinds|
    ensures Run(kinds[..k + 1]) ==
      if Run(kinds[..k]).failure.Some? then Run(kinds[..k]) else Step(Run(kinds[..k]), kinds[k])
  {
    assert kinds[..k + 1] == kinds[..k] + [kinds[k]];
    RunSnoc(kinds[..k], kinds[k]);
  }

  /** Failure ends the pass: the lines after it change nothing. */
  lemma {:induction false} RunStopsAtFailure(kinds: seq<LineKind>, n: nat)
    requires n <= |kinds| && Run(kinds[..n]).failure.Some?
    ensures Run(kinds) == Run(kinds[..n])
    decreases |kinds| - n
  {
    if n < |kinds| {
      RunPrefixStep(kinds, n);
      RunStopsAtFailure(kinds, n + 1);
    } else {
      assert kinds[..n] == kinds;
    }
  }

  /** The pass over the first `i + 1` lines, from the pass over the first `i`. */
  lemma {:induction false} RunLinesStep(lines: seq<string>, i: nat)
    requires i < |lines|
    ensures Run(Kinds(lines[..i + 1])) ==
      if Run(Kinds(lines[..i])).failure.Some? then Run(Kinds(lines[..i]))
      else Step(Run(Kinds(lines[..i])), Classify(lines[i]))
  {
    assert lines[..i + 1] == lines[..i] + [lines[i]];
    KindsSnoc(lines[..i], lines[i]);
    RunSnoc(Kinds(lines[..i]), Classify(lines[i]));
  }

  /** A failure within the first `n` lines is the result of the whole pass. */
  lemma {:induction false} RunLinesStop(lines: seq<string>, n: nat)
    requires n <= |lines| && Run(Kinds(lines[..n])).failure.Some?
    ensures Run(Kinds(lines)) == Run(Kinds(lines[..n]))
  {
    KindsPrefix(lines, n);
    RunStopsAtFailure(Kinds(lines), n);
  }

  /** The loop of extract_data over the lines of the upload, with the tests
      in the source's order. `current` is a `0x` literal when set, so Python's
      truth test on it is the same as `current.Some?`. */
  method ExtractLines(lines: seq<string>) returns (data: Dataset, failure: Option<Error>)
    ensures fresh(data) && data.Valid()
    ensures data.Log == Run(Kinds(lines)).log && failure == Run(Kinds(lines)).failure
  {
    data := new Dataset();
    failure := None;
    var current: Option<string> := None;
    var i := 0;
    while i < |lines|
      invariant 0 <= i <= |lines|
      invariant data.Valid()
      invariant Run(Kinds(lines[..i])) == Pass(current, data.Log, None)
    {
      var line := lines[i];
      RunLinesStep(lines, i);
      StepByTests(Run(Kinds(lines[..i])), line);
      var idMatch := MatchId(line);
      if idMatch.Some? {
        current := idMatch;
        i := i + 1;
        continue;
      }
      var bytesMatch := MatchDataBytes(line);
      if bytesMatch.Some? && current.Some? {
        var values := ParseByteList(bytesMatch.value);
        if values.Failure? {
          failure := Some(BadHexToken(values.error));
          RunLinesStop(lines, i + 1);
          return;
        }
        data.Append(current.value, DATA_BYTES, Bytes(values.value));
        i := i + 1;
        continue;
      }
      var measurementMatch := MatchMeasurement(line);
      if measurementMatch.Some? && current.Some? {
        var (key, value) := measurementMatch.value;
        data.Append(current.value, key, Convert(value));
      }
      i := i + 1;
    }
    assert lines[..|lines|] == lines;
  }

  /** extract_data: a failed decode gives the error and an empty table;
      otherwise the lines of the text are read in order. */
  method ExtractData(decoded: Option<string>) returns (data: Dataset, failure: Option<Error>)
    ensures fresh(data) && data.Valid()
    ensures data.Log == Extracted(decoded).log && failure == Extracted(decoded).failure
  {
    if decoded.None? {
      data := new Dataset();
      failure := Some(DecodeError);
      return;
    }
    var lines := ReadLines(decoded.value);
    data, failure := ExtractLines(lines);
  }
}
