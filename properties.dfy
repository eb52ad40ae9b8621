/** What the pass promises about the table it builds: where appends go, what
    kind of value each channel holds, and how a failure ends the pass. The
    pass is stated over the kinds of the lines; `Classified` is what the
    classifier guarantees about them. */
module Properties {
  import opened Wrappers
  import opened Chars
  import opened Scan
  import opened Patterns
  import opened Values
  import opened Extract

  /** The identifier of the last identifier line, if any. */
  function LastId(kinds: seq<LineKind>): (r: Option<string>)
    ensures r.Some? ==> Declared(kinds, r.value)
  {
    if kinds == [] then None
    else if kinds[|kinds| - 1].IdLine? then Some(kinds[|kinds| - 1].id)
    else
      var r := LastId(kinds[..|kinds| - 1]);
      if r.Some? then
        var k :| 0 <= k < |kinds| - 1 && kinds[..|kinds| - 1][k] == IdLine(r.value);
        assert kinds[k] == IdLine(r.value);
        r
      else r
  }

  /** Some line among `kinds` is an identifier line declaring `id`. */
  predicate Declared(kinds: seq<LineKind>, id: string) {
    exists k :: 0 <= k < |kinds| && kinds[k] == IdLine(id)
  }

  /** What the classifier guarantees: identifiers are `0x` literals and
      measurement keys are words. */
  predicate Classified(kinds: seq<LineKind>) {
    forall k :: 0 <= k < |kinds| ==>
      (kinds[k].IdLine? ==> IsHexLiteral(kinds[k].id)) && (kinds[k].MeasureLine? ==> IsWord(kinds[k].key))
  }

  lemma {:induction false} KindsClassified(lines: seq<string>)
    ensures Classified(Kinds(lines))
  {
    forall k | 0 <= k < |lines|
      ensures (Kinds(lines)[k].IdLine? ==> IsHexLiteral(Kinds(lines)[k].id)) &&
              (Kinds(lines)[k].MeasureLine? ==> IsWord(Kinds(lines)[k].key))
    {
      ClassifyShape(lines[k]);
    }
  }

  /** While the pass runs, its current identifier is the one declared by the
      most recent identifier line. */
  lemma {:induction false} CurrentIsLastId(kinds: seq<LineKind>)
    requires Run(kinds).failure.None?
    ensures Run(kinds).current == LastId(kinds)
  {
    if kinds != [] {
      var init := kinds[..|kinds| - 1];
      var kind := kinds[|kinds| - 1];
      assert kinds == init + [kind];
      RunSnoc(init, kind);
      CurrentIsLastId(init);
      StepShape(Run(init), kind);
    }
  }

  /** Without an identifier line the pass keeps its initial state. */
  lemma {:induction false} NoIdNoState(kinds: seq<LineKind>)
    requires forall k :: 0 <= k < |kinds| ==> !kinds[k].IdLine?
    ensures Run(kinds) == Pass(None, [], None)
  {
    if kinds != [] {
      var init := kinds[..|kinds| - 1];
      var kind := kinds[|kinds| - 1];
      assert kinds == init + [kind];
      NoIdNoState(init);
      RunSnoc(init, kind);
      StepShape(Run(init), kind);
    }
  }

  /** Lines before the first identifier line change nothing, whatever they
      hold: the pass over `pre + post` is the pass over `post`. */
  lemma {:induction false} PreambleIgnored(pre: seq<LineKind>, post: seq<LineKind>)
    requires forall k :: 0 <= k < |pre| ==> !pre[k].IdLine?
    ensures Run(pre + post) == Run(post)
  {
    if post == [] {
      NoIdNoState(pre);
      assert pre + post == pre;
    } else {
      var init := post[..|post| - 1];
      var kind := post[|post| - 1];
      assert pre + post == (pre + init) + [kind];
      assert post == init + [kind];
      PreambleIgnored(pre, init);
      RunSnoc(pre + init, kind);
      RunSnoc(init, kind);
    }
  }

  /** An identifier line switches the current identifier and stores nothing,
      also when the identifier is already in the table. */
  lemma {:induction false} IdLineSwitches(kinds: seq<LineKind>, id: string)
    requires Run(kinds).failure.None?
    ensures Run(kinds + [IdLine(id)]) == Pass(Some(id), Run(kinds).log, None)
  {
    RunSnoc(kinds, IdLine(id));
  }

  /** An identifier enters the table only with its first value: identifier
      lines alone give an empty table. */
  lemma {:induction false} IdLinesStoreNothing(kinds: seq<LineKind>)
    requires forall k :: 0 <= k < |kinds| ==> kinds[k].IdLine?
    ensures Run(kinds).log == [] && Run(kinds).failure.None?
  {
    if kinds != [] {
      var init := kinds[..|kinds| - 1];
      var kind := kinds[|kinds| - 1];
      assert kinds == init + [kind];
      IdLinesStoreNothing(init);
      IdLineSwitches(init, kind.id);
    }
  }

  /** A `Data Bytes:` line under an identifier appends the whole converted
      byte list to the identifier's `Data Bytes` channel; a token int() rejects
      ends the pass with what was stored before the line. */
  lemma {:induction false} BytesLineAppends(kinds: seq<LineKind>, payload: string, id: string)
    requires Run(kinds).failure.None? && LastId(kinds) == Some(id)
    ensures ParseByteList(payload).Success? ==>
      Run(kinds + [BytesLine(payload)]) ==
        Pass(Some(id), Run(kinds).log + [Record(id, DATA_BYTES, Bytes(ParseByteList(payload).value))], None)
    ensures ParseByteList(payload).Failure? ==>
      Run(kinds + [BytesLine(payload)]) == Pass(Some(id), Run(kinds).log, Some(BadHexToken(ParseByteList(payload).error)))
  {
    CurrentIsLastId(kinds);
    RunSnoc(kinds, BytesLine(payload));
  }

  /** A measurement line under an identifier appends the converted value to
      the channel named by its key. */
  lemma {:induction false} MeasurementLineAppends(kinds: seq<LineKind>, key: string, text: string, id: string)
    requires Run(kinds).failure.None? && LastId(kinds) == Some(id)
    ensures Run(kinds + [MeasureLine(key, text)]) == Pass(Some(id), Run(kinds).log + [Record(id, key, Convert(text))], None)
  {
    CurrentIsLastId(kinds);
    RunSnoc(kinds, MeasureLine(key, text));
  }

  /** A data line before any identifier line is dropped. */
  lemma {:induction false} DataBeforeIdDropped(kinds: seq<LineKind>, kind: LineKind)
    requires Run(kinds).failure.None? && LastId(kinds).None? && !kind.IdLine?
    ensures Run(kinds + [kind]) == Run(kinds)
  {
    CurrentIsLastId(kinds);
    RunSnoc(kinds, kind);
  }

  /** Each line stores at most one value, at the end of the log, under the
      identifier of the most recent identifier line. */
  lemma {:induction false} AtMostOneAppend(kinds: seq<LineKind>, kind: LineKind)
    requires Run(kinds).failure.None?
    ensures var before := Run(kinds).log;
      var after := Run(kinds + [kind]).log;
      after == before ||
      (|after| == |before| + 1 && after[..|before|] == before && LastId(kinds) == Some(after[|before|].id))
  {
    CurrentIsLastId(kinds);
    RunSnoc(kinds, kind);
    StepShape(Run(kinds), kind);
  }

  /** The pass only appends: what it stored after the first `n` lines is a
      prefix of what it stores in the end. */
  lemma {:induction false} LogOnlyGrows(kinds: seq<LineKind>, n: nat)
    requires n <= |kinds|
    ensures |Run(kinds[..n]).log| <= |Run(kinds).log|
    ensures Run(kinds).log[..|Run(kinds[..n]).log|] == Run(kinds[..n]).log
    decreases |kinds| - n
  {
    if n == |kinds| {
      assert kinds[..n] == kinds;
    } else {
      LogOnlyGrows(kinds, n + 1);
      var before := Run(kinds[..n]).log;
      var mid := Run(kinds[..n + 1]).log;
      var last := Run(kinds).log;
      RunPrefixStep(kinds, n);
      if Run(kinds[..n]).failure.None? {
        StepShape(Run(kinds[..n]), kinds[n]);
      }
      assert |before| <= |mid| && mid[..|before|] == before;
      assert last[..|before|] == last[..|mid|][..|before|];
    }
  }

  /** A line that ends the pass is the last one that counts: the table keeps
      everything stored before it and nothing after. */
  lemma {:induction false} FailureKeepsPrefix(kinds: seq<LineKind>, k: nat)
    requires k < |kinds| && Run(kinds[..k]).failure.None? && Run(kinds[..k + 1]).failure.Some?
    ensures kinds[k].BytesLine?
    ensures Run(kinds).log == Run(kinds[..k]).log
    ensures Run(kinds).failure == Run(kinds[..k + 1]).failure
  {
    FailingLine(kinds, k);
    RunStopsAtFailure(kinds, k + 1);
  }

  /** The line where the pass fails is a byte line that stores nothing. */
  lemma {:induction false} FailingLine(kinds: seq<LineKind>, k: nat)
    requires k < |kinds| && Run(kinds[..k]).failure.None? && Run(kinds[..k + 1]).failure.Some?
    ensures kinds[k].BytesLine? && Run(kinds[..k + 1]).log == Run(kinds[..k]).log
  {
    RunPrefixStep(kinds, k);
    StepFails(Run(kinds[..k]), kinds[k]);
  }

  lemma {:induction false} StepFails(p: Pass, kind: LineKind)
    requires p.failure.None? && Step(p, kind).failure.Some?
    ensures kind.BytesLine? && Step(p, kind).log == p.log
  {
    StepShape(p, kind);
  }

  /** No measurement line can write to the byte channel: its name holds a
      space, which is not a word character. */
  lemma {:induction false} WordNotDataBytes(key: string)
    requires IsWord(key)
    ensures key != DATA_BYTES
  {
    assert !IsWordChar(DATA_BYTES[4]);
  }

  /** Every append keeps its channel's kind: byte lists go to `Data Bytes`
      and nowhere else. */
  lemma {:induction false} ChannelsTyped(kinds: seq<LineKind>)
    requires Classified(kinds)
    ensures forall r :: r in Run(kinds).log ==> (r.key == DATA_BYTES <==> r.value.Bytes?)
  {
    if kinds != [] {
      var init := kinds[..|kinds| - 1];
      var kind := kinds[|kinds| - 1];
      assert kinds == init + [kind];
      assert Classified(init) by {
        forall k | 0 <= k < |init| ensures init[k] == kinds[k] {
        }
      }
      ChannelsTyped(init);
      RunSnoc(init, kind);
      if kind.MeasureLine? {
        WordNotDataBytes(kind.key);
      }
    }
  }

  /** What a channel of the final table holds: byte lists in `Data Bytes`,
      numbers and texts everywhere else. */
  lemma {:induction false} SeriesTyped(kinds: seq<LineKind>, id: string, key: string)
    requires Classified(kinds)
    ensures forall v :: v in SeriesOf(Run(kinds).log, id, key) ==> (key == DATA_BYTES <==> v.Bytes?)
  {
    SeriesFrom(Run(kinds).log, id, key);
    ChannelsTyped(kinds);
  }

  /** Every identifier in the table was declared by an identifier line. */
  lemma {:induction false} IdsDeclared(kinds: seq<LineKind>)
    ensures forall r :: r in Run(kinds).log ==> Declared(kinds, r.id)
  {
    if kinds != [] {
      var init := kinds[..|kinds| - 1];
      var kind := kinds[|kinds| - 1];
      assert kinds == init + [kind];
      IdsDeclared(init);
      RunSnoc(init, kind);
      forall r | r in Run(kinds).log ensures Declared(kinds, r.id) {
        if r !in Run(init).log {
          NewRecordDeclared(init, kind, r);
        }
        DeclaredInPrefix(kinds, init, r.id);
      }
    }
  }

  /** A record stored by the last line carries the latest declared identifier. */
  lemma {:induction false} NewRecordDeclared(init: seq<LineKind>, kind: LineKind, r: Record)
    requires r in Run(init + [kind]).log && r !in Run(init).log
    ensures Declared(init, r.id)
  {
    var before := Run(init).log;
    var log := Run(init + [kind]).log;
    assert Run(init).failure.None? by {
      RunSnoc(init, kind);
    }
    AtMostOneAppend(init, kind);
    assert log == before + [log[|before|]];
    assert r == log[|before|];
  }

  /** An identifier declared in a prefix is declared in the whole. */
  lemma {:induction false} DeclaredInPrefix(kinds: seq<LineKind>, init: seq<LineKind>, id: string)
    requires init <= kinds
    ensures Declared(init, id) ==> Declared(kinds, id)
  {
    if Declared(init, id) {
      var k :| 0 <= k < |init| && init[k] == IdLine(id);
      assert kinds[k] == init[k];
    }
  }

  /** An identifier line among the kinds is an `ID:` match of that line. */
  lemma {:induction false} DeclaredLine(lines: seq<string>, id: string)
    requires Declared(Kinds(lines), id)
    ensures IsHexLiteral(id) && exists k :: 0 <= k < |lines| && MatchId(lines[k]) == Some(id)
  {
    var kinds := Kinds(lines);
    var k :| 0 <= k < |kinds| && kinds[k] == IdLine(id);
    ClassifyShape(lines[k]);
  }

  /** The extractor end to end: every identifier in the table is declared by
      an `ID:` line of the upload, and every channel holds one kind of value. */
  lemma {:induction false} ExtractedTable(text: string)
    ensures forall r :: r in Extracted(Some(text)).log ==>
      Declared(Kinds(ReadLines(text)), r.id) && (r.key == DATA_BYTES <==> r.value.Bytes?)
  {
    var kinds := Kinds(ReadLines(text));
    KindsClassified(ReadLines(text));
    ChannelsTyped(kinds);
    IdsDeclared(kinds);
  }
}
