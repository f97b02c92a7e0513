/** The second stage of the converter: each kept row becomes one `BO_`
    message line and one ` SG_` signal line, appended after a fixed preamble,
    and the elements are joined with newlines into the DBC document. */
module DbcEncoder {
  import opened Wrappers
  import opened Numerals
  import opened TableNormalizer

  /** A message definition as one row describes it (the `BO_` line). */
  datatype Message = Message(id: nat, name: string, dlc: int, sender: string)

  /** A signal definition as one row describes it (the ` SG_` line). Factor,
      offset, minimum, maximum and unit are carried as the text the sheet
      gives them. */
  datatype Signal = Signal(
    name: string, startBit: int, length: int,
    factor: string, offset: string, min: string, max: string,
    unit: string, receiver: string)

  /** `str(cell)` as an f-string renders it: text as it is, an integer as
      decimal text that `int()` reads back, an empty cell (NaN) as `nan`. */
  function Render(c: Cell): (r: string)
    ensures c.Str? ==> r == c.text
    ensures c.Int? ==> ParseDecimal(r) == Some(c.number)
    ensures c.Empty? ==> r == "nan"
  {
    match c
    case Str(s) => s
    case Int(i) => IntDecimalRoundTrip(i); IntToDecimal(i)
    case Empty => "nan"
  }

  /** `int(cell)`: text is parsed, an integer is itself, NaN raises. */
  function IntOf(c: Cell): (r: Option<int>)
    ensures c.Int? ==> r == Some(c.number)
    ensures c.Empty? ==> r.None?
  {
    match c
    case Str(s) => ParseDecimal(s)
    case Int(i) => Some(i)
    case Empty => None
  }

  /** `int(cell, 16)`: only text can be given an explicit base. */
  function HexOf(c: Cell): (r: Option<nat>)
    ensures !c.Str? ==> r.None?
  {
    match c
    case Str(s) => IntBase16(s)
    case _ => None
  }

  /** `row[name]`: None where the frame has no column of that name. */
  function Field(labels: seq<string>, row: Row, name: string): Option<Cell> {
    var i :- IndexOf(labels, name);
    Some(CellAt(row, i))
  }

  /** The values the message line of one row is built from. It needs all
      four columns, the identifier read with base 16 and the DLC with `int()`. */
  function ReadMessage(labels: seq<string>, row: Row): (r: Option<Message>)
    ensures r.Some? ==> && IndexOf(labels, "Message_ID").Some? && IndexOf(labels, "Message_Name").Some?
                        && IndexOf(labels, "DLC").Some? && IndexOf(labels, "Sender").Some?
    ensures r.Some? ==> HexOf(Field(labels, row, "Message_ID").value) == Some(r.value.id)
    ensures r.Some? ==> IntOf(Field(labels, row, "DLC").value) == Some(r.value.dlc)
  {
    var idCell :- Field(labels, row, "Message_ID");
    var id :- HexOf(idCell);
    var name :- Field(labels, row, "Message_Name");
    var dlcCell :- Field(labels, row, "DLC");
    var dlc :- IntOf(dlcCell);
    var sender :- Field(labels, row, "Sender");
    Some(Message(id, Render(name), dlc, Render(sender)))
  }

  /** The values the signal line of one row is built from. It needs all
      nine columns, the start bit and the length read with `int()`. */
  function ReadSignal(labels: seq<string>, row: Row): (r: Option<Signal>)
    ensures r.Some? ==> && IndexOf(labels, "Signal_Name").Some? && IndexOf(labels, "Start_Bit").Some?
                        && IndexOf(labels, "Signal_Length").Some? && IndexOf(labels, "Factor").Some?
                        && IndexOf(labels, "Offset").Some? && IndexOf(labels, "Min").Some?
                        && IndexOf(labels, "Max").Some? && IndexOf(labels, "Unit").Some?
                        && IndexOf(labels, "Receiver").Some?
    ensures r.Some? ==> IntOf(Field(labels, row, "Start_Bit").value) == Some(r.value.startBit)
    ensures r.Some? ==> IntOf(Field(labels, row, "Signal_Length").value) == Some(r.value.length)
  {
    var name :- Field(labels, row, "Signal_Name");
    var startCell :- Field(labels, row, "Start_Bit");
    var startBit :- IntOf(startCell);
    var lengthCell :- Field(labels, row, "Signal_Length");
    var length :- IntOf(lengthCell);
    var factor :- Field(labels, row, "Factor");
    var offset :- Field(labels, row, "Offset");
    var min :- Field(labels, row, "Min");
    var max :- Field(labels, row, "Max");
    var unit :- Field(labels, row, "Unit");
    var receiver :- Field(labels, row, "Receiver");
    Some(Signal(Render(name), startBit, length, Render(factor), Render(offset),
                Render(min), Render(max), Render(unit), Render(receiver)))
  }

  /** `BO_ <decimal id> <name>:<dlc> <sender>` and a newline. */
  function MessageLine(m: Message): (r: string)
    ensures |r| > 0 && r[|r| - 1] == '\n'
  {
    "BO_ " + NatToDecimal(m.id) + " " + m.name + ":" + IntToDecimal(m.dlc) + " " + m.sender + "\n"
  }

  /** ` SG_ <name> : <start>|<length>@0+ (<factor>,<offset>) [<min>|<max>] "<unit>"  <receiver>`
      and a newline: always the `@0+` marker, two spaces before the receiver. */
  function SignalLine(s: Signal): (r: string)
    ensures |r| > 0 && r[|r| - 1] == '\n'
  {
    " SG_ " + s.name + " : " + IntToDecimal(s.startBit) + "|" + IntToDecimal(s.length) + "@0+ "
    + "(" + s.factor + "," + s.offset + ") [" + s.min + "|" + s.max + "] \"" + s.unit + "\"  "
    + s.receiver + "\n"
  }

  /** The three elements every document starts with. */
  const Preamble: seq<string> := ["VERSION \"\"\n", "NS_ :\n", "BS_:\n"]

  /** `sep.join(parts)`: it starts with the first part. */
  function Join(parts: seq<string>, sep: string): (r: string)
    ensures |parts| > 0 ==> parts[0] <= r
    ensures |parts| == 0 ==> r == ""
    decreases |parts|
  {
    if |parts| == 0 then ""
    else if |parts| == 1 then parts[0]
    else parts[0] + sep + Join(parts[1..], sep)
  }

  /** The two lines one row contributes: its message line, then its signal
      line; None when either cannot be produced. */
  function RowLines(labels: seq<string>, row: Row): (r: Option<seq<string>>)
    ensures r.Some? ==> |r.value| == 2
  {
    var message :- ReadMessage(labels, row);
    var signal :- ReadSignal(labels, row);
    Some([MessageLine(message), SignalLine(signal)])
  }

  /** A row whose two lines can both be produced. */
  predicate Readable(labels: seq<string>, row: Row) {
    RowLines(labels, row).Some?
  }

  /** The outcome of every row, position by position. */
  function Outcomes(labels: seq<string>, rows: seq<Row>): (r: seq<Option<seq<string>>>)
    ensures |r| == |rows|
  {
    seq(|rows|, k requires 0 <= k < |rows| => RowLines(labels, rows[k]))
  }

  /** Concatenates the outcomes in order; None if any outcome is None. */
  function Gather(outcomes: seq<Option<seq<string>>>): Option<seq<string>>
    decreases |outcomes|
  {
    if |outcomes| == 0 then Some([])
    else
      var earlier :- Gather(outcomes[..|outcomes| - 1]);
      var last :- outcomes[|outcomes| - 1];
      Some(earlier + last)
  }

  /** The elements the kept rows add after the preamble, two per row in row
      order; None if any row cannot be read. */
  function Elements(labels: seq<string>, rows: seq<Row>): Option<seq<string>> {
    Gather(Outcomes(labels, rows))
  }

  /** The element list `parse_excel_to_dbc` builds: the preamble, then the lines of
      every kept row; None wherever its `try` block raises. */
  function DocumentParts(t: Table): Option<seq<string>> {
    var frame :- Normalize(t);
    var lines :- Elements(frame.labels, frame.rows);
    Some(Preamble + lines)
  }

  /** The whole conversion as a value: label, filter, encode, join. A
      document exists only for a table of 9 to 37 columns, and it starts with
      the first preamble element. */
  function ParseExcelToDbc(t: Table): (r: Option<string>)
    ensures r.Some? ==> MessageIdColumn < t.width <= |CanonicalColumns|
    ensures r.Some? ==> Preamble[0] <= r.value
  {
    var parts :- DocumentParts(t);
    Some(Join(parts, "\n"))
  }

  /** Proof helper: `RowLines` unfolded. A row is readable exactly when its
      message and its signal are, and its lines are then the message line
      followed by the signal line. */
  lemma RowLinesSpec(labels: seq<string>, row: Row)
    ensures Readable(labels, row) <==> ReadMessage(labels, row).Some? && ReadSignal(labels, row).Some?
    ensures Readable(labels, row) ==>
      RowLines(labels, row).value == [MessageLine(ReadMessage(labels, row).value), SignalLine(ReadSignal(labels, row).value)]
  {
  }

  /** Gathering succeeds exactly when every outcome does. */
  lemma {:induction false} GatherDefinedIff(outcomes: seq<Option<seq<string>>>)
    ensures Gather(outcomes).Some? <==> forall k :: 0 <= k < |outcomes| ==> outcomes[k].Some?
    decreases |outcomes|
  {
    if |outcomes| > 0 {
      var init := outcomes[..|outcomes| - 1];
      GatherDefinedIff(init);
      assert forall k :: 0 <= k < |init| ==> init[k] == outcomes[k];
    }
  }

  /** When every outcome is a pair, the gathered list holds the k-th pair at
      positions 2k and 2k + 1. */
  lemma {:induction false} GatherPairsAt(outcomes: seq<Option<seq<string>>>, k: nat)
    requires Gather(outcomes).Some? && k < |outcomes|
    requires forall j :: 0 <= j < |outcomes| ==> outcomes[j].Some? ==> |outcomes[j].value| == 2
    ensures |Gather(outcomes).value| == 2 * |outcomes|
    ensures outcomes[k].Some?
    ensures Gather(outcomes).value[2 * k] == outcomes[k].value[0]
    ensures Gather(outcomes).value[2 * k + 1] == outcomes[k].value[1]
    decreases |outcomes|
  {
    var n := |outcomes| - 1;
    var init := outcomes[..n];
    assert Gather(outcomes).value == Gather(init).value + outcomes[n].value;
    if n > 0 {
      GatherPairsAt(init, if k < n then k else 0);
    }
    if k < n {
      assert init[k] == outcomes[k];
    }
  }

  /** The elements exist exactly when every row is readable: one bad row
      anywhere fails the whole run, and only a bad row does. */
  lemma ElementsDefinedIff(labels: seq<string>, rows: seq<Row>)
    ensures Elements(labels, rows).Some? <==> forall k :: 0 <= k < |rows| ==> Readable(labels, rows[k])
  {
    var outcomes := Outcomes(labels, rows);
    GatherDefinedIff(outcomes);
    assert forall k :: 0 <= k < |rows| ==> outcomes[k] == RowLines(labels, rows[k]);
  }

  /** The elements are two per row, in row order: the k-th row's message
      line at 2k and its signal line at 2k + 1. */
  lemma ElementsAt(labels: seq<string>, rows: seq<Row>, k: nat)
    requires Elements(labels, rows).Some? && k < |rows|
    ensures |Elements(labels, rows).value| == 2 * |rows|
    ensures ReadMessage(labels, rows[k]).Some? && ReadSignal(labels, rows[k]).Some?
    ensures Elements(labels, rows).value[2 * k] == MessageLine(ReadMessage(labels, rows[k]).value)
    ensures Elements(labels, rows).value[2 * k + 1] == SignalLine(ReadSignal(labels, rows[k]).value)
  {
    var outcomes := Outcomes(labels, rows);
    GatherPairsAt(outcomes, k);
    RowLinesSpec(labels, rows[k]);
  }

  /** Extending the rows by one extends the elements by that row's lines. */
  lemma ElementsStep(labels: seq<string>, rows: seq<Row>, i: nat)
    requires i < |rows|
    ensures Elements(labels, rows[..i + 1]) ==
      match (Elements(labels, rows[..i]), RowLines(labels, rows[i]))
      case (Some(e), Some(l)) => Some(e + l)
      case _ => None
  {
    var next := Outcomes(labels, rows[..i + 1]);
    assert next[..i] == Outcomes(labels, rows[..i]);
  }

  /** Proof helper: `DocumentParts` unfolded for a table that can be
      labelled, with the `Message_ID` lookup resolved to column 8. */
  lemma ParseExcelToDbcSteps(t: Table)
    requires MessageIdColumn < t.width <= |CanonicalColumns|
    ensures DocumentParts(t) ==
      match Elements(Label(t.width).value, KeepMessageRows(t.rows, MessageIdColumn))
      case Some(lines) => Some(Preamble + lines)
      case None => None
  {
  }

  /** The loop that fills the element list: the preamble, then the message
      and signal lines of every row in order. It stops with None at the
      first row that cannot be read, so no partial list escapes. */
  method EncodeRows(columns: seq<string>, data: seq<Row>) returns (content: Option<seq<string>>)
    ensures content.Some? <==> Elements(columns, data).Some?
    ensures content.Some? ==> content.value == Preamble + Elements(columns, data).value
  {
    var dbcContent := Preamble;
    assert data[..0] == [];
    for i := 0 to |data|
      invariant Elements(columns, data[..i]).Some?
      invariant dbcContent == Preamble + Elements(columns, data[..i]).value
    {
      ElementsStep(columns, data, i);
      RowLinesSpec(columns, data[i]);
      var message := ReadMessage(columns, data[i]);
      if message.None? {
        ElementsDefinedIff(columns, data);
        return None;
      }
      dbcContent := dbcContent + [MessageLine(message.value)];
      var signal := ReadSignal(columns, data[i]);
      if signal.None? {
        ElementsDefinedIff(columns, data);
        return None;
      }
      dbcContent := dbcContent + [SignalLine(signal.value)];
    }
    assert data[..|data|] == data;
    content := Some(dbcContent);
  }

  /** The conversion as `parse_excel_to_dbc` runs it: relabel the columns, filter the
      rows, build the element list, join it. It computes exactly the document
      `ParseExcelToDbc` describes. */
  method Convert(t: Table) returns (doc: Option<string>)
    ensures doc == ParseExcelToDbc(t)
  {
    var labelled := Label(t.width);
    if labelled.None? {
      return None;
    }
    var columns := labelled.value;
    MessageIdLabel(t.width);
    var idColumn := IndexOf(columns, "Message_ID");
    if idColumn.None? {
      return None;
    }
    ParseExcelToDbcSteps(t);
    var data := KeepMessageRows(t.rows, idColumn.value);
    var content := EncodeRows(columns, data);
    if content.None? {
      return None;
    }
    doc := Some(Join(content.value, "\n"));
  }
}
