/** The two pure steps of the viewer that read the table: which measurement
    names are offered for plotting, and whether a channel is plotted as a
    numeric line. */
module Display {
  import opened Values
  import opened Extract
  import opened Patterns
  import opened Properties

  /** The names offered for an identifier: its keys in table order, without
      the byte channel. */
  function SelectableNames(keys: seq<string>): (names: seq<string>)
    ensures forall n :: n in names <==> n in keys && n != DATA_BYTES
    ensures |names| <= |keys|
  {
    if keys == [] then []
    else
      var init := SelectableNames(keys[..|keys| - 1]);
      var last := keys[|keys| - 1];
      assert keys == keys[..|keys| - 1] + [last];
      if last == DATA_BYTES then init else init + [last]
  }

  /** Filtering keeps the order of the keys: it works piece by piece. */
  lemma {:induction false} SelectableAppend(a: seq<string>, b: seq<string>)
    ensures SelectableNames(a + b) == SelectableNames(a) + SelectableNames(b)
    decreases |b|
  {
    if b == [] {
      assert a + b == a;
    } else {
      var b' := b[..|b| - 1];
      SelectableAppend(a, b');
      assert (a + b)[..|a + b| - 1] == a + b';
      assert (a + b)[|a + b| - 1] == b[|b| - 1];
    }
  }

  /** Without a byte channel every key is offered, in table order. */
  lemma {:induction false} SelectableWithoutBytes(keys: seq<string>)
    requires DATA_BYTES !in keys
    ensures SelectableNames(keys) == keys
  {
    if keys != [] {
      SelectableWithoutBytes(keys[..|keys| - 1]);
      assert keys == keys[..|keys| - 1] + [keys[|keys| - 1]];
    }
  }

  /** `all(isinstance(val, (int, float)) for val in values)`, read left to
      right. A float infinity or NaN counts as numeric. */
  function IsNumeric(values: seq<Value>): (b: bool)
    ensures b <==> forall k :: 0 <= k < |values| ==> values[k].Num?
  {
    if values == [] then true
    else
      var rest := IsNumeric(values[1..]);
      assert forall k :: 1 <= k < |values| ==> values[k] == values[1..][k - 1];
      values[0].Num? && rest
  }

  /** A channel offered for plotting is drawn as a numeric line exactly when
      none of its values stayed text: byte lists never reach it. */
  lemma {:induction false} OfferedChannelNumeric(kinds: seq<LineKind>, id: string, key: string)
    requires Classified(kinds) && key in SelectableNames(KeysOf(Run(kinds).log, id))
    ensures var values := SeriesOf(Run(kinds).log, id, key);
      IsNumeric(values) <==> forall k :: 0 <= k < |values| ==> !values[k].Text?
  {
    SeriesTyped(kinds, id, key);
  }
}
