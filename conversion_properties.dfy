/** What the whole conversion promises, stated over the sheet as read: which
    tables are refused, which rows matter, the layout of the document and
    what each of its lines is built from. */
module ConversionProperties {
  import opened Wrappers
  import opened Numerals
  import opened TableNormalizer
  import opened DbcEncoder

  /** The document of a sheet without message rows. */
  const EmptyDocument: string := "VERSION \"\"\n\nNS_ :\n\nBS_:\n"

  /** A table that cannot be labelled (wider than 37 columns), or whose
      labels stop before `Message_ID` (8 columns or fewer), gives no document. */
  lemma UnlabellableTableRejected(t: Table)
    requires t.width > |CanonicalColumns| || t.width <= MessageIdColumn
    ensures ParseExcelToDbc(t) == None
  {
  }

  /** In a labelled table, the message fields are read from columns 6 to 9
      (Sender, Message_Name, Message_ID, DLC); with no DLC column the message
      cannot be read. */
  lemma MessageColumns(width: nat, row: Row)
    requires MessageIdColumn < width <= |CanonicalColumns|
    ensures ReadMessage(Label(width).value, row) ==
      if width <= 9 then None
      else match (HexOf(CellAt(row, 8)), IntOf(CellAt(row, 9)))
        case (Some(id), Some(dlc)) => Some(Message(id, Render(CellAt(row, 7)), dlc, Render(CellAt(row, 6))))
        case _ => None
  {
    assert CanonicalColumns[6] == "Sender" && CanonicalColumns[7] == "Message_Name";
    assert CanonicalColumns[8] == "Message_ID" && CanonicalColumns[9] == "DLC";
    LabelledIndex(width, 6);
    LabelledIndex(width, 7);
    LabelledIndex(width, 8);
    LabelledIndex(width, 9);
  }

  /** In a labelled table of at least 33 columns, the signal fields are read
      from columns 13 to 16 and 28 to 32; a narrower table has no Unit
      column, so no signal can be read from it. */
  lemma SignalColumns(width: nat, row: Row)
    requires width <= |CanonicalColumns|
    ensures ReadSignal(Label(width).value, row) ==
      if width <= 32 then None
      else match (IntOf(CellAt(row, 15)), IntOf(CellAt(row, 14)))
        case (Some(startBit), Some(length)) =>
          Some(Signal(Render(CellAt(row, 13)), startBit, length, Render(CellAt(row, 28)), Render(CellAt(row, 29)),
                      Render(CellAt(row, 30)), Render(CellAt(row, 31)), Render(CellAt(row, 32)), Render(CellAt(row, 16))))
        case _ => None
  {
    assert CanonicalColumns[13] == "Signal_Name" && CanonicalColumns[14] == "Signal_Length";
    assert CanonicalColumns[15] == "Start_Bit" && CanonicalColumns[16] == "Receiver";
    assert CanonicalColumns[28] == "Factor" && CanonicalColumns[29] == "Offset";
    assert CanonicalColumns[30] == "Min" && CanonicalColumns[31] == "Max";
    assert CanonicalColumns[32] == "Unit";
    LabelledIndex(width, 32);
    if width > 32 {
      LabelledIndex(width, 13);
      LabelledIndex(width, 14);
      LabelledIndex(width, 15);
      LabelledIndex(width, 16);
      LabelledIndex(width, 28);
      LabelledIndex(width, 29);
      LabelledIndex(width, 30);
      LabelledIndex(width, 31);
    }
  }

  /** The conversion succeeds exactly when the table can be labelled and
      every row that passes the `0x` filter can be read; rows the filter
      drops never make it fail. */
  lemma SucceedsIffMessageRowsReadable(t: Table)
    ensures ParseExcelToDbc(t).Some? <==>
      && MessageIdColumn < t.width <= |CanonicalColumns|
      && forall j :: 0 <= j < |t.rows| && IsMessageId(CellAt(t.rows[j], MessageIdColumn)) ==>
           Readable(Label(t.width).value, t.rows[j])
  {
    if MessageIdColumn < t.width <= |CanonicalColumns| {
      var labels := Label(t.width).value;
      var m := MessageIdColumn;
      var kept := KeepMessageRows(t.rows, m);
      var idx := KeptIndices(t.rows, m);
      ParseExcelToDbcSteps(t);
      KeptRowsAtKeptIndices(t.rows, m);
      KeptIndicesExact(t.rows, m);
      ElementsDefinedIff(labels, kept);
      if ParseExcelToDbc(t).Some? {
        forall j | 0 <= j < |t.rows| && IsMessageId(CellAt(t.rows[j], m))
          ensures Readable(labels, t.rows[j])
        {
          var k :| 0 <= k < |idx| && idx[k] == j;
          assert kept[k] == t.rows[j];
        }
      } else {
        var k :| 0 <= k < |kept| && !Readable(labels, kept[k]);
        var j := idx[k];
        assert kept[k] == t.rows[j] && IsMessageId(CellAt(t.rows[j], m));
      }
    }
  }

  /** A row the filter keeps whose identifier is not hexadecimal (a bare
      `0x` included), or whose DLC, start bit or signal length is not an
      integer, makes the whole conversion fail: no partial document. */
  lemma MalformedMessageRowFails(t: Table, j: nat)
    requires MessageIdColumn < t.width <= |CanonicalColumns|
    requires j < |t.rows| && IsMessageId(CellAt(t.rows[j], MessageIdColumn))
    requires || HexOf(CellAt(t.rows[j], MessageIdColumn)).None?
             || IntOf(CellAt(t.rows[j], 9)).None?
             || IntOf(CellAt(t.rows[j], 14)).None?
             || IntOf(CellAt(t.rows[j], 15)).None?
    ensures ParseExcelToDbc(t) == None
  {
    SucceedsIffMessageRowsReadable(t);
    RowLinesSpec(Label(t.width).value, t.rows[j]);
    MessageColumns(t.width, t.rows[j]);
    SignalColumns(t.width, t.rows[j]);
  }

  /** A table of 9 to 32 columns has no Unit column: it converts only when
      no row passes the filter. */
  lemma NarrowTableWithMessagesFails(t: Table, j: nat)
    requires MessageIdColumn < t.width <= 32
    requires j < |t.rows| && IsMessageId(CellAt(t.rows[j], MessageIdColumn))
    ensures ParseExcelToDbc(t) == None
  {
    SucceedsIffMessageRowsReadable(t);
    RowLinesSpec(Label(t.width).value, t.rows[j]);
    SignalColumns(t.width, t.rows[j]);
  }

  /** The preamble's three elements joined by newlines. */
  lemma PreambleJoined()
    ensures Join(Preamble, "\n") == EmptyDocument
  {
  }

  /** With no row passing the filter, the document is the preamble alone:
      its three elements, each ending in a newline, joined by newlines. */
  lemma NoMessageRowsGivesPreamble(t: Table)
    requires MessageIdColumn < t.width <= |CanonicalColumns|
    requires forall j :: 0 <= j < |t.rows| ==> !IsMessageId(CellAt(t.rows[j], MessageIdColumn))
    ensures ParseExcelToDbc(t) == Some(EmptyDocument)
  {
    ParseExcelToDbcSteps(t);
    NothingKept(t.rows, MessageIdColumn);
    assert Outcomes(Label(t.width).value, []) == [];
    assert Preamble + [] == Preamble;
    PreambleJoined();
  }

  /** The layout of a document: the three preamble elements, then for the
      k-th row that passes the filter (counting in sheet order) its message
      line at position 3 + 2k and its signal line at 4 + 2k; the document is
      these elements joined by newlines. Kept rows are taken at ascending
      sheet positions, so the lines follow the sheet's row order. */
  lemma DocumentLayout(t: Table, k: nat)
    requires ParseExcelToDbc(t).Some?
    requires k < |KeptIndices(t.rows, MessageIdColumn)|
    ensures MessageIdColumn < t.width <= |CanonicalColumns|
    ensures DocumentParts(t).Some?
    ensures ParseExcelToDbc(t).value == Join(DocumentParts(t).value, "\n")
    ensures |DocumentParts(t).value| == |Preamble| + 2 * |KeptIndices(t.rows, MessageIdColumn)|
    ensures DocumentParts(t).value[..3] == Preamble
    ensures var j := KeptIndices(t.rows, MessageIdColumn)[k];
      && j < |t.rows| && IsMessageId(CellAt(t.rows[j], MessageIdColumn))
      && ReadMessage(Label(t.width).value, t.rows[j]).Some?
      && ReadSignal(Label(t.width).value, t.rows[j]).Some?
    ensures var j := KeptIndices(t.rows, MessageIdColumn)[k];
      DocumentParts(t).value[3 + 2 * k] == MessageLine(ReadMessage(Label(t.width).value, t.rows[j]).value)
    ensures var j := KeptIndices(t.rows, MessageIdColumn)[k];
      DocumentParts(t).value[4 + 2 * k] == SignalLine(ReadSignal(Label(t.width).value, t.rows[j]).value)
  {
    var labels := Label(t.width).value;
    var m := MessageIdColumn;
    var kept := KeepMessageRows(t.rows, m);
    ParseExcelToDbcSteps(t);
    KeptRowsAtKeptIndices(t.rows, m);
    KeptIndicesExact(t.rows, m);
    var j := KeptIndices(t.rows, m)[k];
    assert kept[k] == t.rows[j];
    ElementsAt(labels, kept, k);
  }

  /** Inserting a row that the filter drops, anywhere in the data frame and
      with every other cell unchanged, leaves the result unchanged, success
      or failure. */
  lemma NonMessageRowIgnored(t: Table, i: nat, x: Row)
    requires i <= |t.rows|
    requires !IsMessageId(CellAt(x, MessageIdColumn))
    ensures ParseExcelToDbc(Table(t.width, t.rows[..i] + [x] + t.rows[i..])) == ParseExcelToDbc(t)
  {
    var t' := Table(t.width, t.rows[..i] + [x] + t.rows[i..]);
    if MessageIdColumn < t.width <= |CanonicalColumns| {
      assert t.rows[..i] + t.rows[i..] == t.rows;
      DroppedRowInvisible(t.rows[..i], x, t.rows[i..], MessageIdColumn);
      ParseExcelToDbcSteps(t);
      ParseExcelToDbcSteps(t');
    }
  }

  /** `sep.join` ends with its last part. */
  lemma {:induction false} JoinEndsWithLast(parts: seq<string>, sep: string)
    requires |parts| > 0
    ensures |Join(parts, sep)| >= |parts[|parts| - 1]|
    ensures Join(parts, sep)[|Join(parts, sep)| - |parts[|parts| - 1]|..] == parts[|parts| - 1]
    decreases |parts|
  {
    if |parts| > 1 {
      JoinEndsWithLast(parts[1..], sep);
      assert parts[1..][|parts| - 2] == parts[|parts| - 1];
    }
  }

  /** Every document ends with a newline: its last element always does. */
  lemma DocumentEndsWithNewline(t: Table)
    requires ParseExcelToDbc(t).Some?
    ensures var doc := ParseExcelToDbc(t).value; |doc| > 0 && doc[|doc| - 1] == '\n'
  {
    var labels := Label(t.width).value;
    var kept := KeepMessageRows(t.rows, MessageIdColumn);
    ParseExcelToDbcSteps(t);
    var parts := DocumentParts(t).value;
    JoinEndsWithLast(parts, "\n");
    var last := parts[|parts| - 1];
    if |kept| > 0 {
      var n := |kept| - 1;
      var lines := Elements(labels, kept).value;
      ElementsAt(labels, kept, n);
      assert parts == Preamble + lines && |parts| == 3 + 2 * n + 2;
      assert last == lines[2 * n + 1];
    } else {
      assert last == "BS_:\n";
    }
    assert last[|last| - 1] == '\n';
  }

  /** The cells of a sheet row describing message EngineStatus, identifier
      `0x100`, DLC 8, sent by ECU, carrying signal RPM (16 bits from bit 0,
      factor 1, offset 0, range 0 to 8000, unit rpm) received by Dash. The
      other cells may hold anything. */
  predicate IsEngineStatusRow(row: Row) {
    && CellAt(row, 6) == Str("ECU") && CellAt(row, 7) == Str("EngineStatus")
    && CellAt(row, 8) == Str("0x100") && CellAt(row, 9) == Int(8)
    && CellAt(row, 13) == Str("RPM") && CellAt(row, 14) == Int(16)
    && CellAt(row, 15) == Int(0) && CellAt(row, 16) == Str("Dash")
    && CellAt(row, 28) == Int(1) && CellAt(row, 29) == Int(0)
    && CellAt(row, 30) == Int(0) && CellAt(row, 31) == Int(8000)
    && CellAt(row, 32) == Str("rpm")
  }

  /** The message and the signal the EngineStatus row describes, and the
      two lines the document gives them. */
  const EngineStatus: Message := Message(256, "EngineStatus", 8, "ECU")
  const Rpm: Signal := Signal("RPM", 0, 16, "1", "0", "0", "8000", "rpm", "Dash")
  const EngineStatusLine: string := "BO_ 256 EngineStatus:8 ECU\n"
  const RpmLine: string := " SG_ RPM : 0|16@0+ (1,0) [0|8000] \"rpm\"  Dash\n"

  /** The numbers of the example: `0x100` is 256, and the decimal texts of
      the integers involved. */
  lemma EngineStatusNumbers()
    ensures IntBase16("0x100") == Some(256)
    ensures NatToDecimal(256) == "256" && IntToDecimal(8) == "8" && IntToDecimal(16) == "16"
    ensures IntToDecimal(0) == "0" && IntToDecimal(1) == "1" && IntToDecimal(8000) == "8000"
  {
    var idText := "0x100";
    assert idText[..2] == "0x" && idText[2..] == "100";
    var digits := "100";
    assert digits[..2] == "10" && digits[..2][..1] == "1";
    assert HexDigits("1") == Some(1);
    assert HexDigits("10") == Some(16);
    assert NatToDecimal(25) == "25";
    assert NatToDecimal(80) == "80";
    assert NatToDecimal(800) == "800";
  }

  /** The message line of the example, character for character. */
  lemma EngineStatusMessageLine()
    ensures MessageLine(EngineStatus) == EngineStatusLine
  {
    EngineStatusNumbers();
  }

  /** The signal line of the example, character for character: the `@0+`
      marker and two spaces before the receiver. */
  lemma RpmSignalLine()
    ensures SignalLine(Rpm) == RpmLine
  {
    EngineStatusNumbers();
    assert " SG_ " + "RPM" == " SG_ RPM";
    assert " SG_ RPM" + " : " == " SG_ RPM : ";
    assert " SG_ RPM : " + "0" == " SG_ RPM : 0";
    assert " SG_ RPM : 0" + "|" == " SG_ RPM : 0|";
    assert " SG_ RPM : 0|" + "16" == " SG_ RPM : 0|16";
    assert " SG_ RPM : 0|16" + "@0+ " == " SG_ RPM : 0|16@0+ ";
    assert " SG_ RPM : 0|16@0+ " + "(" == " SG_ RPM : 0|16@0+ (";
    assert " SG_ RPM : 0|16@0+ (" + "1" == " SG_ RPM : 0|16@0+ (1";
    assert " SG_ RPM : 0|16@0+ (1" + "," == " SG_ RPM : 0|16@0+ (1,";
    assert " SG_ RPM : 0|16@0+ (1," + "0" == " SG_ RPM : 0|16@0+ (1,0";
    assert " SG_ RPM : 0|16@0+ (1,0" + ") [" == " SG_ RPM : 0|16@0+ (1,0) [";
    assert " SG_ RPM : 0|16@0+ (1,0) [" + "0" == " SG_ RPM : 0|16@0+ (1,0) [0";
    assert " SG_ RPM : 0|16@0+ (1,0) [0" + "|" == " SG_ RPM : 0|16@0+ (1,0) [0|";
    assert " SG_ RPM : 0|16@0+ (1,0) [0|" + "8000" == " SG_ RPM : 0|16@0+ (1,0) [0|8000";
    assert " SG_ RPM : 0|16@0+ (1,0) [0|8000" + "] \"" == " SG_ RPM : 0|16@0+ (1,0) [0|8000] \"";
    assert " SG_ RPM : 0|16@0+ (1,0) [0|8000] \"" + "rpm" == " SG_ RPM : 0|16@0+ (1,0) [0|8000] \"rpm";
    assert " SG_ RPM : 0|16@0+ (1,0) [0|8000] \"rpm" + "\"  " == " SG_ RPM : 0|16@0+ (1,0) [0|8000] \"rpm\"  ";
    assert " SG_ RPM : 0|16@0+ (1,0) [0|8000] \"rpm\"  " + "Dash" == " SG_ RPM : 0|16@0+ (1,0) [0|8000] \"rpm\"  Dash";
    assert " SG_ RPM : 0|16@0+ (1,0) [0|8000] \"rpm\"  Dash" + "\n" == " SG_ RPM : 0|16@0+ (1,0) [0|8000] \"rpm\"  Dash\n";
  }

  /** The EngineStatus row yields the EngineStatus message and the RPM
      signal. */
  lemma EngineStatusRead(width: nat, row: Row)
    requires 32 < width <= |CanonicalColumns| && IsEngineStatusRow(row)
    ensures ReadMessage(Label(width).value, row) == Some(EngineStatus)
    ensures ReadSignal(Label(width).value, row) == Some(Rpm)
  {
    EngineStatusNumbers();
    MessageColumns(width, row);
    SignalColumns(width, row);
  }

  /** A single row contributes its own two lines. */
  lemma SingleRowElements(labels: seq<string>, row: Row)
    ensures Elements(labels, [row]) == RowLines(labels, row)
  {
    ElementsStep(labels, [row], 0);
    assert [row][..1] == [row] && [row][..0] == [];
    assert Elements(labels, []) == Some([]);
    if RowLines(labels, row).Some? {
      assert [] + RowLines(labels, row).value == RowLines(labels, row).value;
    }
  }

  /** The whole document for a sheet holding the EngineStatus row alone:
      the preamble, then the message line and the signal line, every
      element followed by the joining newline. */
  lemma EngineStatusDocument(width: nat, row: Row)
    requires 32 < width <= |CanonicalColumns| && IsEngineStatusRow(row)
    ensures ParseExcelToDbc(Table(width, [row])) == Some(EmptyDocument + "\n" + EngineStatusLine + "\n" + RpmLine)
  {
    var t := Table(width, [row]);
    var labels := Label(width).value;
    EngineStatusRead(width, row);
    EngineStatusMessageLine();
    RpmSignalLine();
    var idText := "0x100";
    assert idText[..2] == "0x";
    assert KeepMessageRows(t.rows, MessageIdColumn) == [row];
    ParseExcelToDbcSteps(t);
    RowLinesSpec(labels, row);
    SingleRowElements(labels, row);
    DocumentJoin([EngineStatusLine, RpmLine]);
  }

  /** Joining one more part adds the separator and that part. */
  lemma {:induction false} JoinSnoc(parts: seq<string>, x: string, sep: string)
    requires |parts| > 0
    ensures Join(parts + [x], sep) == Join(parts, sep) + sep + x
    decreases |parts|
  {
    var all := parts + [x];
    if |parts| == 1 {
      assert all[1..] == [x];
    } else {
      assert all[1..] == parts[1..] + [x];
      JoinSnoc(parts[1..], x, sep);
    }
  }

  /** Joining the preamble and two further elements: the preamble's text,
      then each further element preceded by the separating newline. */
  lemma DocumentJoin(lines: seq<string>)
    requires |lines| == 2
    ensures Join(Preamble + lines, "\n") == EmptyDocument + "\n" + lines[0] + "\n" + lines[1]
  {
    PreambleJoined();
    JoinSnoc(Preamble, lines[0], "\n");
    JoinSnoc(Preamble + [lines[0]], lines[1], "\n");
    assert Preamble + [lines[0]] + [lines[1]] == Preamble + lines;
  }
}
