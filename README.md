# CAN bus log extractor — a Dafny model

This project models the log reader of a small CAN bus plotting tool. The
reader is `extract_data` in `app.py`. It takes an uploaded text log and
reads it line by line. An `ID: 0x…` line sets the current identifier. A
`Data Bytes: …` line adds a list of base-16 byte values under that
identifier. Any other `name: value` line adds a measurement under it: the
value has its unit letters (`A`, `rpm`, `deg`, `Nm`) removed and is read as
a float, and stays text when float() refuses it. The result is a two-level
table: identifier → measurement name → list of values, with keys kept in
insertion order. Two small pure steps of the viewer are also modelled: the
measurement names it offers for an identifier, and its test for whether a
channel is plotted as numbers.

Layout:

- `wrappers.dfy`: Option and Result.
- `chars.dfy`: character classes. Whitespace is the set Python treats as
  whitespace; word characters and digits are ASCII.
- `scan.dfy`: greedy runs, leftmost search, `.*` to the end of the line,
  `str.split()`, `str.replace(pat, '')` and `readlines()`.
- `numbers.dfy`: `int(t, 16)` and `float(t)`.
- `patterns.dfy`: the three regular expressions as anchored matches and
  leftmost searches, plus the classification of a line.
- `values.dfy`: unit stripping, value conversion and byte-list parsing.
- `extract.dfy`: the pass, in two forms.
  - As a specification: `Run`, a fold over the line kinds whose state is the
    current identifier, the log of appends and the failure that ended the
    pass.
  - As the code runs it: the `Dataset` class, which holds the nested dict
    and is updated in place, and the `ExtractLines`/`ExtractData` loop,
    proved to build exactly `Run`'s table.
- `properties.dfy`: what the pass promises about the table it builds.
- `display.dfy`: the offered names and the numeric test.
- `examples.dfy`: worked inputs.

Behaviour the model follows as the code has it:

- An identifier enters the table only with its first stored value. An
  `ID:` line followed by no data leaves no entry.
- A byte token that `int(b, 16)` rejects raises inside the `try`. The
  function then returns the table as it stood before that line, and no
  later line is read.
- Byte tokens are not limited to 0–255: `1FF` is stored as 511, and a sign,
  a `0x` prefix and underscores are accepted.
- Unit stripping is not idempotent: `rrpmpm` becomes `rpm`.
- float() strips less whitespace than `\s` and str.split() skip. It keeps
  the separators U+001C to U+001F, so `Speed: 5\x1f` stores the text
  `5\x1f` rather than a number.
- A `Data Bytes:` line also matches the measurement pattern (as the key
  `Bytes`). Only the order of the tests sends it to the byte channel. Before
  any identifier, such a line stores nothing at all.

## Model

| member | source | states |
|---|---|---|
| Scan.ReadLines | app.py:11-12 | the lines concatenate back to the text; none is empty; only the last may lack its line feed; no line feed occurs inside a line |
| Scan.SplitWhitespace | app.py:28 | `str.split()` gives non-empty tokens without whitespace |
| Scan.SplitKeepsNonSpace | app.py:28 | together the tokens hold exactly the non-whitespace characters of the text, in order |
| Scan.SplitAround | app.py:28 | a run of whitespace separates: splitting `a + w + b` gives the tokens of `a` followed by the tokens of `b` |
| Scan.SplitJoinRoundTrip | app.py:28 | `str.split()` of tokens joined by spaces gives back the tokens (the partner of SplitWhitespace) |
| Scan.RemoveAll | app.py:37 | `str.replace(pat, '')` never lengthens the text or adds characters; it leaves a text without occurrences unchanged; a one-character pattern is gone afterwards |
| Numbers.ParseInt16Alphabet | app.py:28 | a token `int(t, 16)` accepts consists only of hexadecimal digits, `_`, `x`, `X` and a sign |
| Numbers.PlainHexToken | app.py:28 | a plain token of hexadecimal digits converts to the value of its digits, with no size bound |
| Numbers.HexRoundTrip | app.py:28 | formatting any natural number in hexadecimal and converting it back with `int(·, 16)` gives the number |
| Numbers.ToDigits | app.py:28 | the digit string of a number has no leading zero and reads back as the number |
| Numbers.ParseFloat | app.py:37 | `float()` accepts only a text that is non-empty after trimming the whitespace float() ignores (not the separators U+001C to U+001F) |
| Patterns.IdAt | app.py:14 | the identifier pattern matches at a position exactly when `ID:` is there, followed by spaces and a `0x` with a hex digit; the capture is a maximal `0x` literal that follows the spaces verbatim |
| Patterns.MatchId | app.py:14-22 | the search returns the capture of the leftmost match, and nothing when no position matches |
| Patterns.DataBytesAt | app.py:15 | the byte pattern matches exactly where `Data Bytes:` occurs; the capture is the rest of the line after `Data Bytes:` and the whitespace that follows it: it starts at the first non-whitespace character and runs to the line feed or the end of the text |
| Patterns.MatchDataBytes | app.py:15-25 | leftmost match of the byte pattern, or none anywhere |
| Patterns.MeasurementAt | app.py:16 | the measurement pattern matches exactly where a run of word characters ends in a colon; the key is that whole run; the value is the rest of the line after the colon and the whitespace that follows it, up to the line feed or the end of the text |
| Patterns.MatchMeasurement | app.py:16-34 | leftmost match of the measurement pattern, or none anywhere |
| Patterns.ClassifyShape | app.py:20-34 | an identifier line carries the `0x` literal that the `ID:` search found; a measurement key is a non-empty word |
| Values.StripUnits | app.py:37 | stripping never lengthens the value; no `A` is left; a value without units is unchanged |
| Values.Convert | app.py:35-39 | a measurement value is never a byte list; it is a number exactly when float() reads the value with its units removed, and then it is that number; otherwise it is the original text, units included |
| Values.ParseTokens | app.py:28 | on success every token converts to the value at its position; on failure the reported token is the first one `int()` rejects, and all earlier tokens convert |
| Extract.PresentIffAppended | app.py:29-40 | a key is in an identifier's inner dict exactly when its list is non-empty; an identifier is in the table exactly when it has a key |
| Extract.SeriesFrom | app.py:29-40 | every value in a list was stored by an append to that identifier and key |
| Extract.TableSnoc | app.py:9-40 | the nested defaultdict after one append: only `table[id][key]` changes, created empty on first use, and gets the value at its end |
| Extract.Dataset.constructor | app.py:9 | the table starts empty |
| Extract.Dataset.Append | app.py:29-40 | the in-place update keeps the ordered keys, the names and the nested dict equal to the views of the log extended by the one record |
| Extract.StepByTests | app.py:20-40 | one step of the pass follows the source's chain of tests: identifier first, then bytes under an identifier, then a measurement under an identifier |
| Extract.StepShape | app.py:18-40 | a line switches the identifier (only an `ID:` line), ends the pass with the log unchanged (only a byte line), or appends exactly one record under the current identifier |
| Extract.RunStopsAtFailure | app.py:42-44 | after a failure later lines change nothing |
| Extract.ExtractLines | app.py:18-40 | the loop builds exactly the table and failure of the specified pass over the lines |
| Extract.ExtractData | app.py:8-44 | a failed decode gives an empty table and the error; otherwise the result is the pass over `readlines()` |
| Properties.LastId | app.py:18-23 | the most recent identifier is declared by some identifier line |
| Properties.KindsClassified | app.py:14-16 | classified lines carry `0x` literals as identifiers and words as keys |
| Properties.CurrentIsLastId | app.py:18-23 | while the pass runs, its current identifier is the one declared by the most recent identifier line |
| Properties.NoIdNoState | app.py:18-33 | with no identifier line the pass ends in its initial state |
| Properties.PreambleIgnored | app.py:26-33 | lines before the first identifier line do not affect the result |
| Properties.IdLineSwitches | app.py:20-23 | an identifier line sets the current identifier and stores nothing, also when the identifier was seen before |
| Properties.IdLinesStoreNothing | app.py:9-23 | identifier lines alone give an empty table |
| Properties.BytesLineAppends | app.py:25-44 | a byte line under an identifier appends the converted list to `Data Bytes`; a rejected token ends the pass with the earlier log |
| Properties.MeasurementLineAppends | app.py:32-40 | a measurement line under an identifier appends the converted value under its key |
| Properties.DataBeforeIdDropped | app.py:26-33 | a data line before any identifier line changes nothing |
| Properties.AtMostOneAppend | app.py:19-40 | each line stores at most one value, at the end, under the identifier of the most recent identifier line |
| Properties.LogOnlyGrows | app.py:29-40 | what was stored after n lines is a prefix of what is stored at the end |
| Properties.FailureKeepsPrefix | app.py:28-44 | the line where the pass fails is a byte line; the final table is the table before it, and the failure is that line's |
| Properties.WordNotDataBytes | app.py:16-29 | no measurement key equals `Data Bytes` |
| Properties.ChannelsTyped | app.py:29-40 | every stored record holds a byte list exactly when its key is `Data Bytes` |
| Properties.SeriesTyped | app.py:29-40 | every list holds byte lists if it is the `Data Bytes` channel, and numbers or texts otherwise |
| Properties.IdsDeclared | app.py:22-40 | every identifier in the table was declared by an identifier line |
| Properties.DeclaredLine | app.py:14-22 | a declared identifier is a `0x` literal found by the `ID:` search on some line |
| Properties.ExtractedTable | app.py:8-44 | end to end: every stored identifier was declared by a line of the upload, and every channel holds one kind of value |
| Display.SelectableNames | app.py:114 | the offered names are exactly the identifier's keys other than `Data Bytes` |
| Display.SelectableAppend | app.py:114 | filtering keeps the order of the keys: it distributes over concatenation |
| Display.SelectableWithoutBytes | app.py:114 | without a byte channel every key is offered, in table order |
| Display.IsNumeric | app.py:56 | a channel is numeric exactly when every value in it is a number |
| Display.OfferedChannelNumeric | app.py:56-114 | an offered channel is numeric exactly when none of its values stayed text |
| Examples.ByteListExample | app.py:28 | the payload `0A 1B FF` converts to [10, 27, 255] |
| Examples.ByteLineExample | app.py:14-25 | the line `Data Bytes: 0A 1B FF` is a byte line with payload `0A 1B FF` |
| Examples.ByteListStored | app.py:25-29 | that byte line, after an identifier line, stores [10, 27, 255] under `Data Bytes` for that identifier |
| Examples.CarriageReturnPayload | app.py:27-28 | a payload that keeps the carriage return of a CRLF line splits into the same tokens |
| Examples.WideByteToken | app.py:28 | `1FF` is stored as 511 |
| Examples.StripUnitsNotIdempotent | app.py:37 | stripping `rrpmpm` gives `rpm`, and stripping `rpm` gives the empty text |
| Examples.UnitNumberExample | app.py:35-37 | `120rpm` is stored as the number 120 |
| Examples.WholeNumber | app.py:37 | a text of decimal digits is read by float() as its value |
| Examples.LetterFirstStaysText | app.py:35-40 | a value starting with a letter that starts no unit and no special float word is stored as the original text |
| Examples.LetterFirstNotFloat | app.py:37-39 | float() rejects a text that starts with such a letter |
| Examples.DigitSeparatorNotFloat | app.py:37-39 | float() rejects a digit followed by a separator character U+001C to U+001F |
| Examples.SeparatorStaysText | app.py:35-40 | the value `5\x1f` is stored as the original text, not as 5 |
| Examples.StatusTextExample | app.py:38-40 | `STATUS_OK` is stored as text |
| Examples.ByteLineAlsoMeasurement | app.py:15-34 | `Data Bytes: 01` also matches the measurement pattern, with key `Bytes` |
| Examples.AmpereExample | app.py:37 | `12.5A` is stored as the number 12.5 |
| Examples.IdCaseKept | app.py:14-22 | identifiers are kept as written: `0xAB` and `0xab` are different keys |

## Left out

- The Streamlit user interface, Plotly charts and `st.error` (app.py:43, app.py:46-128) are left out. They are output only.
- UTF-8 decoding (app.py:11) is a parameter: the input is the decoded text, or None when decoding fails.
- Reading the uploaded file is left out. It is I/O.
- The `except Exception` (app.py:42) is modelled for the two exceptions the body can raise: the decode error and `int()`'s ValueError.
- Numbers.ParseFloat: the value is kept as an exact real. Binary rounding, overflow to infinity and the `repr` of the float are not modelled.
- Chars.IsWordChar and Chars.IsDigit: `\w` and the digits that `int()`/`float()` accept are restricted to ASCII. Python also accepts other Unicode letters and digits.
- Numbers.LowerAscii: the case-insensitive match of `inf`/`nan` is modelled for ASCII letters only.
- Sorting the identifiers for display (app.py:109) and the truth test on the table (app.py:106) are left out. They only affect what is shown.
- The checkbox selection of names (app.py:117) is left out. It is user input.
- `plot_data`'s formatting (app.py:46-94) is left out, apart from the numeric test at app.py:56.
- Extract.Dataset.Append does not model Python's aliasing of the inner dicts and lists. The table is a value held in the object's fields.
