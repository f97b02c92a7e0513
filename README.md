# CANtoDB converter core in Dafny

This project models `parse_excel_to_dbc` from `main.py`. The function turns a
spreadsheet table of CAN messages and signals into the text of a CAN database
(DBC) file. It works in three stages, and the model keeps them apart:

- **TableNormalizer** (`table_normalizer.dfy`) models column labelling and the row filter.
  - The table's columns get the first `width` of 37 canonical names (`Label`).
  - A table wider than 37 columns is refused, because pandas rejects a column list of the wrong length.
  - `data["Message_ID"]` selects the only column with that name (`IndexOf`), since the canonical names are distinct. A table of 8 columns or fewer has none.
  - Only rows whose `Message_ID` cell is text starting with `0x` are kept, in sheet order (`KeepMessageRows`).
- **DbcEncoder** (`dbc_encoder.dfy`) models document assembly.
  - The preamble holds three elements.
  - Each kept row adds one `BO_` message line and one ` SG_` signal line.
  - The elements are joined with `"\n"`.
  - `EncodeRows` is the `for` loop of `parse_excel_to_dbc`. It appends to a sequence, and a loop invariant ties it to the function `Elements`.
  - `Convert` is the whole procedure. It is proved to compute `ParseExcelToDbc`, the value-level account of the conversion.
  - Every exception raised while labelling, filtering or encoding becomes `None`, as the `try` block turns it. The file write inside the same `try` is not modelled (see "Left out").
- **Numerals** (`numerals.dfy`) models integer text.
  - `int(text, 16)` for the identifier.
  - `int(text)` for DLC, start bit and signal length.
  - The decimal text an f-string writes for an integer.
- **LineReader** (`line_reader.dfy`) reads a `BO_` or ` SG_` line back into the values it was written from. These readers are the inverse the line formats are checked against. The converter itself never reads DBC text.
- **ConversionProperties** (`conversion_properties.dfy`) states what the whole conversion promises:
  - which tables are refused;
  - which rows matter;
  - the layout of the document;
  - the single-row EngineStatus example.
- **Wrappers** (`wrappers.dfy`) holds the `Option` type used for failure.

A sheet cell is `Str(text)`, `Int(number)` or `Empty`. `Empty` is pandas' NaN:
- `str()` of it is `nan`;
- `int()` of it raises.

The table is given as rows of cells together with its column count. A cell past the end of a row reads as `Empty`.

The output spacing is modelled exactly as the code produces it:
- every appended element already ends in `"\n"`;
- `"\n".join` adds another `"\n"`.

So the document has a blank line between every pair of elements, including between a `BO_` line and its own ` SG_` line. Conventional DBC puts each ` SG_` line directly under its `BO_` line; this code leaves a blank line between them, and so does the model. `EngineStatusDocument` gives the exact text.

A kept row whose identifier is not hexadecimal is not skipped: `int(row['Message_ID'], 16)` raises inside the `try` block, so the whole call returns `None` (`MalformedMessageRowFails`).

## Model

| member | source | states |
|---|---|---|
| Numerals.HexDigits | main.py:31 | hex digit text has a value exactly when it is non-empty and every character is a hexadecimal digit of either case |
| Numerals.DecimalDigits | main.py:31 | decimal digit text has a value exactly when it is non-empty and every character is a decimal digit |
| Numerals.IntBase16 | main.py:31 | `int(s, 16)` on text starting with `0x` reads the digits after the prefix; it needs non-empty text |
| Numerals.ParseDecimal | main.py:31-34 | `int(s)` needs non-empty text; unsigned digit text reads as its digits' value |
| Numerals.NatToDecimal | main.py:31 | an f-string writes a natural number as non-empty decimal digits with no leading zero except for 0 itself |
| Numerals.IntToDecimal | main.py:31-34 | an f-string writes an integer as a leading `-` exactly when it is negative, then non-empty decimal digits with no leading zero except for 0 itself |
| Numerals.NatToHex | main.py:31 | hexadecimal rendering: non-empty hex digits with no leading zero, the inverse the identifier parse is checked against |
| Numerals.DecimalRoundTrip | main.py:31 | reading back the decimal text of any natural number gives that number |
| Numerals.IntDecimalRoundTrip | main.py:31-34 | `int(str(i)) == i` for every integer, sign included |
| Numerals.HexRoundTrip | main.py:31 | reading back the hexadecimal digits of any natural number gives that number |
| Numerals.PrefixedHexRoundTrip | main.py:31 | `int("0x" + digits, 16)` gives back every natural number |
| Numerals.HexToDecimalPreservesValue | main.py:31 | the decimal identifier written on a `BO_` line reads back as the value of the `0x` text |
| Numerals.Example0x1A3 | main.py:31 | `0x1A3` is read as 419 and written `419` |
| Numerals.BarePrefixRejected | main.py:31 | `int("0x", 16)` fails: a prefix without digits is no number |
| TableNormalizer.CanonicalColumnsDistinct | main.py:9-16 | the 37 canonical names are pairwise distinct |
| TableNormalizer.Label | main.py:17 | labelling succeeds exactly when the width is at most 37, and gives column i the i-th canonical name |
| TableNormalizer.IndexOf | main.py:20 | a column lookup by name returns a position inside the label list |
| TableNormalizer.IndexOfFindsFirst | main.py:20 | the lookup finds the first position holding the name, which among the distinct canonical labels is the only one, and fails only when no label is that name |
| TableNormalizer.LabelledIndex | main.py:9-17 | in a labelled table each canonical name selects its own position if the table is wide enough, and is missing otherwise |
| TableNormalizer.MessageIdLabel | main.py:17-20 | `data["Message_ID"]` is column 8, and fails on tables of 8 columns or fewer |
| TableNormalizer.KeepMessageRows | main.py:20 | the filter keeps no more rows than it is given, and every kept row's `Message_ID` cell is text starting with `0x` |
| TableNormalizer.KeptRowsAtKeptIndices | main.py:20 | the k-th kept row is the sheet row at the k-th kept position |
| TableNormalizer.KeptIndicesExact | main.py:20 | kept positions ascend strictly, so relative order is kept, and a position is kept exactly when its cell passes the `0x` test |
| TableNormalizer.KeepDistributes | main.py:20 | filtering a concatenation filters each part |
| TableNormalizer.DroppedRowInvisible | main.py:20 | a row the filter drops changes nothing kept, wherever it stands |
| TableNormalizer.NothingKept | main.py:20 | with no row passing the test, nothing is kept |
| TableNormalizer.IsMessageId | main.py:20 | the filter's test; a passing cell is text, and `int(text, 16)` reads the digits after its `0x`; `KeptIndicesExact` proves the filter keeps exactly the rows that pass it |
| TableNormalizer.Normalize | main.py:17-20 | labelling and filtering succeed exactly when 8 < width <= 37, giving the cut canonical labels and the rows kept on column 8 |
| DbcEncoder.IntOf | main.py:31 | `int()` of an integer cell is that integer; `int()` of an empty (NaN) cell fails |
| DbcEncoder.HexOf | main.py:31 | only a text cell can be read with base 16 |
| DbcEncoder.Render | main.py:31-35 | `str()` of a cell inside the f-strings: text as it is, an integer as decimal text that `int()` reads back, an empty (NaN) cell as `nan` |
| DbcEncoder.ReadMessage | main.py:31 | a message is read only when the `Message_ID`, `Message_Name`, `DLC` and `Sender` columns exist; its identifier is `int(row['Message_ID'], 16)` and its DLC `int(row['DLC'])`; `MessageColumns` gives the columns it reads in a labelled table |
| DbcEncoder.ReadSignal | main.py:34-35 | a signal is read only when all nine signal columns exist; its start bit and length are `int()` of their cells; `SignalColumns` gives the columns it reads in a labelled table |
| DbcEncoder.MessageLine | main.py:31 | the `BO_` element ends with a newline |
| DbcEncoder.SignalLine | main.py:34-35 | the ` SG_` element ends with a newline |
| DbcEncoder.Join | main.py:42 | `sep.join(parts)` is empty for no parts and starts with the first part; `JoinSnoc` and `JoinEndsWithLast` give the rest of its meaning |
| DbcEncoder.RowLines | main.py:30-35 | a row contributes exactly two elements when it can be read |
| DbcEncoder.GatherDefinedIff | main.py:29-46 | collecting per-row outcomes succeeds exactly when every row's does |
| DbcEncoder.GatherPairsAt | main.py:29-36 | collected pairs sit at positions 2k and 2k + 1 |
| DbcEncoder.ElementsDefinedIff | main.py:29-46 | the element list exists exactly when every kept row is readable: one bad row fails the whole run |
| DbcEncoder.ElementsAt | main.py:29-36 | there are two elements per row, in row order; the k-th row's message line is at 2k and its signal line at 2k + 1 |
| DbcEncoder.ElementsStep | main.py:29-36 | one more row extends the element list by that row's two lines, or fails |
| DbcEncoder.ParseExcelToDbc | main.py:5-46 | the value the whole call returns: a document only for a table of 9 to 37 columns, starting with the first preamble element; `SucceedsIffMessageRowsReadable` says when it exists and `DocumentLayout` what it holds |
| DbcEncoder.EncodeRows | main.py:23-36 | the loop returns the preamble followed by every row's lines exactly when every row is readable, and None otherwise |
| DbcEncoder.Convert | main.py:5-46 | the procedure returns exactly the document `ParseExcelToDbc` describes, or None where labelling, filtering or encoding raises |
| LineReader.DecimalHasNoSeparator | main.py:31-34 | decimal integer text holds no space, vertical bar or `@` |
| LineReader.MessageLineRoundTrip | main.py:31 | a `BO_` line reads back as the identifier, name, DLC and sender it was written from, when the name has no `:` and the sender no newline |
| LineReader.SignalTailRoundTrip | main.py:35 | the factor, offset, range, unit and receiver of a ` SG_` line read back as written |
| LineReader.SignalLineRoundTrip | main.py:34-35 | a ` SG_` line reads back as the signal it was written from, when no text field holds the first character of the separator after it |
| ConversionProperties.UnlabellableTableRejected | main.py:17-20 | a table wider than 37 columns or narrower than 9 gives no document |
| ConversionProperties.MessageColumns | main.py:31 | a message is read from columns 8 (hex identifier), 7 (name), 9 (integer DLC) and 6 (sender), and cannot be read without a DLC column |
| ConversionProperties.SignalColumns | main.py:34-35 | a signal is read from columns 13, 15, 14, 28 to 32 and 16; tables without a Unit column have no readable signal |
| ConversionProperties.SucceedsIffMessageRowsReadable | main.py:7-46 | the conversion succeeds exactly when the table can be labelled and every row passing the `0x` filter is readable |
| ConversionProperties.MalformedMessageRowFails | main.py:31-46 | a kept row with a non-hex identifier (bare `0x` included) or a non-integer DLC, start bit or signal length fails the whole conversion |
| ConversionProperties.NarrowTableWithMessagesFails | main.py:34-46 | a table of 9 to 32 columns with any kept row fails, since `row['Unit']` is missing |
| ConversionProperties.PreambleJoined | main.py:24-26 | the three `Preamble` elements appended before the loop join to `VERSION ""\n\nNS_ :\n\nBS_:\n` |
| ConversionProperties.NoMessageRowsGivesPreamble | main.py:23-42 | with no row passing the filter, the document is exactly the joined preamble |
| ConversionProperties.DocumentLayout | main.py:23-42 | a document has 3 + 2n elements; element 3 + 2k is the message line and 4 + 2k the signal line of the k-th kept row in sheet order |
| ConversionProperties.NonMessageRowIgnored | main.py:20 | inserting a row the filter drops anywhere in the data frame, other cells unchanged, leaves the result unchanged, success or failure |
| ConversionProperties.JoinEndsWithLast | main.py:42 | `sep.join(parts)` ends with its last part |
| ConversionProperties.DocumentEndsWithNewline | main.py:42 | every document ends with a newline |
| ConversionProperties.EngineStatusNumbers | main.py:31-34 | `0x100` reads as 256, and the example's integers are written as `256`, `8`, `16`, `0`, `1` and `8000` |
| ConversionProperties.EngineStatusMessageLine | main.py:31 | the example message is written `BO_ 256 EngineStatus:8 ECU` and a newline |
| ConversionProperties.RpmSignalLine | main.py:34-35 | the example signal is written as start 0, length 16, marker `@0+`, scaling `(1,0)`, range 0 to 8000, unit `"rpm"`, two spaces and receiver `Dash`, then a newline |
| ConversionProperties.EngineStatusRead | main.py:29-35 | the EngineStatus row yields the EngineStatus message and the RPM signal in any labelled table of 33 to 37 columns |
| ConversionProperties.SingleRowElements | main.py:29-36 | a single kept row contributes exactly its own two lines |
| ConversionProperties.EngineStatusDocument | main.py:23-42 | a sheet holding only the EngineStatus row converts to the joined preamble, a newline, the `BO_` line, a newline and the ` SG_` line |
| ConversionProperties.JoinSnoc | main.py:42 | joining one more part adds the separator and that part |
| ConversionProperties.DocumentJoin | main.py:42 | joining the preamble and two lines gives the preamble's text, then each line after a separating newline |

## Left out

- The Streamlit page (main.py:49-84) is not modelled. This covers the upload, the preview and the download button.
- `pd.read_excel(..., skiprows=3)` (main.py:62) is a library call and is not modelled. The table arrives as rows of cells plus its column count.
- Writing the file (main.py:39-40) is I/O and is not modelled. The model does not state that the written text equals the returned text. Both are the same `"\n".join(dbc_content)` expression. The write sits inside the `try`, so a failed `open` or `write` makes `parse_excel_to_dbc` return `None`; `Convert` returns the document in that case.
- `st.error` (main.py:45) is a side effect and is not modelled. Every caught exception becomes `None`, and the exception's kind and message are not kept.
- Float cells are not modelled. pandas reads a numeric column with blanks as floats, where `int()` truncates and `str()` writes `1.0`; the model has integer, text and empty cells only. The model types each cell on its own, while pandas types a whole column from all its rows, dropped rows included: a blank cell in a dropped row can turn an integer column into floats and change the text of every kept row (`(1,0)` becomes `(1.0,0.0)`).
- Boolean and date cells are not modelled either. `Factor`, `Offset`, `Min`, `Max` and the name fields are taken as the text of the cell.
- A ragged row is not modelled. A data frame is rectangular; the model reads a cell past the end of a row as empty.
- Numerals.IntBase16: accepts only an optional `0x`/`0X` prefix followed by ASCII hexadecimal digits. Python's `int(s, 16)` also allows surrounding whitespace, `_` between digits, a sign and non-ASCII decimal digits (such as `0x١`); the model fails on those.
- Numerals.ParseDecimal: accepts only an optional sign followed by ASCII decimal digits. Python's `int(s)` also allows surrounding whitespace, `_` between digits and non-ASCII digits; the model fails on those.
- Numerals.ParseDecimal: has no limit on the number of digits. Since Python 3.11 (and its security releases 3.10.7, 3.9.14, 3.8.14 and 3.7.14), `int(s)` raises `ValueError` for text of more than 4300 digits, so `int(row['DLC'])`, `int(row['Start_Bit'])` or `int(row['Signal_Length'])` on such text makes the call return `None`; the model reads the value.
- Numerals.NatToDecimal: has no limit on the number of digits. Under the same Python versions, writing an int of more than 4300 decimal digits raises `ValueError`, so an identifier of roughly 3572 or more hex digits makes the call return `None`; the model writes the number. `Numerals.IntToDecimal` inherits the same gap.
- TableNormalizer.Label: `data.columns = ...` (main.py:17) relabels the caller's data frame in place, and the relabelling stays even when the call later returns `None`. The model takes the table as a value and returns the labels, so it does not capture that update of the caller's object; no caller reads the frame afterwards.
- Idempotence of the conversion has no lemma of its own. `ParseExcelToDbc` is a function of the table, so equal tables give equal documents.
