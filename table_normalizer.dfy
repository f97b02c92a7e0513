/** The first stage of the converter: the spreadsheet table as pandas reads
    it, the canonical names given to its columns by position, and the filter
    that keeps only rows describing a message (an identifier written `0x…`). */
module TableNormalizer {
  import opened Wrappers
  import opened Numerals

  /** One cell of the sheet: text, an integer, or an empty cell (pandas NaN). */
  datatype Cell = Str(text: string) | Int(number: int) | Empty

  type Row = seq<Cell>

  /** A data frame: its number of columns and its rows, in sheet order. */
  datatype Table = Table(width: nat, rows: seq<Row>)

  /** The cell of a row at a column position. A data frame is rectangular;
      a row given here with fewer cells reads as empty cells past its end,
      as `read_excel` fills a short sheet row with NaN. */
  function CellAt(row: Row, i: nat): (c: Cell)
    ensures i >= |row| ==> c == Empty
  {
    if i < |row| then row[i] else Empty
  }

  /** The 37 names the sheet's columns receive, in positional order. */
  const CanonicalColumns: seq<string> := [
    "DB_Type", "DB_Subtype", "Controller", "Specification", "Version", "Tx_Rx",
    "Sender", "Message_Name", "Message_ID", "DLC", "Output", "Latency_Max",
    "Send_Type", "Signal_Name", "Signal_Length", "Start_Bit", "Receiver",
    "Definition", "Description", "Validity", "Multiplexor", "Multiplex", "Timeout",
    "Purpose", "Table", "Error", "Value_Type", "At_Start", "Factor", "Offset",
    "Min", "Max", "Unit", "Signal_Revision", "Comment", "No_Routing", "Extra"
  ]

  /** Position of the identifier column among the canonical names. */
  const MessageIdColumn: nat := 8

  /** No name appears twice, so every name selects a single column. The
      pairs are checked in six bands of the first position. */
  lemma CanonicalColumnsDistinct()
    ensures |CanonicalColumns| == 37
    ensures forall i, j :: 0 <= i < j < |CanonicalColumns| ==> CanonicalColumns[i] != CanonicalColumns[j]
  {
    DistinctFrom0();
    DistinctFrom3();
    DistinctFrom6();
    DistinctFrom9();
    DistinctFrom18();
    DistinctFrom27();
  }

  lemma DistinctFrom0()
    ensures forall i, j :: 0 <= i < 3 && i < j < |CanonicalColumns| ==> CanonicalColumns[i] != CanonicalColumns[j]
  {
  }

  lemma DistinctFrom3()
    ensures forall i, j :: 3 <= i < 6 && i < j < |CanonicalColumns| ==> CanonicalColumns[i] != CanonicalColumns[j]
  {
  }

  lemma DistinctFrom6()
    ensures forall i, j :: 6 <= i < 9 && i < j < |CanonicalColumns| ==> CanonicalColumns[i] != CanonicalColumns[j]
  {
  }

  lemma DistinctFrom9()
    ensures forall i, j :: 9 <= i < 18 && i < j < |CanonicalColumns| ==> CanonicalColumns[i] != CanonicalColumns[j]
  {
  }

  lemma DistinctFrom18()
    ensures forall i, j :: 18 <= i < 27 && i < j < |CanonicalColumns| ==> CanonicalColumns[i] != CanonicalColumns[j]
  {
  }

  lemma DistinctFrom27()
    ensures forall i, j :: 27 <= i < 37 && i < j < |CanonicalColumns| ==> CanonicalColumns[i] != CanonicalColumns[j]
  {
  }

  /** Assigning `columns[:width]` to a frame's columns: the canonical list cut
      to the table's width. pandas refuses a list whose length differs from
      the frame's width, which happens exactly when the table is wider than
      the list. */
  function Label(width: nat): (r: Option<seq<string>>)
    ensures r.Some? <==> width <= |CanonicalColumns|
    ensures r.Some? ==> |r.value| == width
    ensures r.Some? ==> forall i :: 0 <= i < width ==> r.value[i] == CanonicalColumns[i]
  {
    var names := CanonicalColumns[..if width <= |CanonicalColumns| then width else |CanonicalColumns|];
    if |names| == width then Some(names) else None
  }

  /** Selecting a column by its label: the position carrying `name`, or
      None where pandas raises a KeyError. pandas would select every column
      with that label; the canonical labels are distinct
      (`CanonicalColumnsDistinct`), so the first is the only one. */
  function IndexOf(labels: seq<string>, name: string): (r: Option<nat>)
    ensures r.Some? ==> r.value < |labels|
    decreases |labels|
  {
    if |labels| == 0 then None
    else
      match IndexOf(labels[..|labels| - 1], name)
      case Some(i) => Some(i)
      case None => if labels[|labels| - 1] == name then Some(|labels| - 1) else None
  }

  /** The lookup finds the first position holding the name, and fails only
      when no position does. */
  lemma {:induction false} IndexOfFindsFirst(labels: seq<string>, name: string)
    ensures IndexOf(labels, name).Some? ==>
      var i := IndexOf(labels, name).value;
      labels[i] == name && forall j :: 0 <= j < i ==> labels[j] != name
    ensures IndexOf(labels, name).None? ==> forall j :: 0 <= j < |labels| ==> labels[j] != name
    decreases |labels|
  {
    if |labels| > 0 {
      var init := labels[..|labels| - 1];
      IndexOfFindsFirst(init, name);
      assert forall j :: 0 <= j < |init| ==> init[j] == labels[j];
    }
  }

  /** In a labelled frame, each canonical name selects its own position when
      the frame is wide enough and is missing otherwise. */
  lemma LabelledIndex(width: nat, i: nat)
    requires width <= |CanonicalColumns| && i < |CanonicalColumns|
    ensures IndexOf(Label(width).value, CanonicalColumns[i]) == if i < width then Some(i) else None
  {
    CanonicalColumnsDistinct();
    IndexOfFindsFirst(Label(width).value, CanonicalColumns[i]);
  }

  /** `data["Message_ID"]` selects column 8 of a labelled frame, and fails on
      a frame of 8 columns or fewer. */
  lemma MessageIdLabel(width: nat)
    requires width <= |CanonicalColumns|
    ensures IndexOf(Label(width).value, "Message_ID") == if MessageIdColumn < width then Some(MessageIdColumn) else None
  {
    assert CanonicalColumns[MessageIdColumn] == "Message_ID";
    LabelledIndex(width, MessageIdColumn);
  }

  /** The row filter: the cell is text starting with the two characters
      `0x`, so `int(text, 16)` on a kept cell reads the digits after them. */
  predicate IsMessageId(c: Cell)
    ensures IsMessageId(c) ==> c.Str? && |c.text| >= 2 && IntBase16(c.text) == HexDigits(c.text[2..])
  {
    c.Str? && |c.text| >= 2 && c.text[..2] == "0x"
  }

  /** The rows whose cell in column `m` passes the filter, in their order. */
  function KeepMessageRows(rows: seq<Row>, m: nat): (r: seq<Row>)
    ensures |r| <= |rows|
    ensures forall k :: 0 <= k < |r| ==> IsMessageId(CellAt(r[k], m))
    decreases |rows|
  {
    if |rows| == 0 then []
    else
      var init := KeepMessageRows(rows[..|rows| - 1], m);
      if IsMessageId(CellAt(rows[|rows| - 1], m)) then init + [rows[|rows| - 1]] else init
  }

  /** The positions of the kept rows, ascending: an independent account of
      which rows survive the filter. */
  function KeptIndices(rows: seq<Row>, m: nat): seq<nat>
    decreases |rows|
  {
    if |rows| == 0 then []
    else
      var init := KeptIndices(rows[..|rows| - 1], m);
      if IsMessageId(CellAt(rows[|rows| - 1], m)) then init + [|rows| - 1] else init
  }

  /** The k-th kept row is the row at the k-th kept position. */
  lemma {:induction false} KeptRowsAtKeptIndices(rows: seq<Row>, m: nat)
    ensures |KeepMessageRows(rows, m)| == |KeptIndices(rows, m)|
    ensures forall k :: 0 <= k < |KeptIndices(rows, m)| ==>
      KeptIndices(rows, m)[k] < |rows| && KeepMessageRows(rows, m)[k] == rows[KeptIndices(rows, m)[k]]
    decreases |rows|
  {
    if |rows| > 0 {
      var init := rows[..|rows| - 1];
      KeptRowsAtKeptIndices(init, m);
    }
  }

  /** The kept positions ascend strictly, so kept rows keep their relative
      order, and a position is kept exactly when its cell passes the filter. */
  lemma {:induction false} KeptIndicesExact(rows: seq<Row>, m: nat)
    ensures forall k, l :: 0 <= k < l < |KeptIndices(rows, m)| ==> KeptIndices(rows, m)[k] < KeptIndices(rows, m)[l]
    ensures forall k :: 0 <= k < |KeptIndices(rows, m)| ==> KeptIndices(rows, m)[k] < |rows|
    ensures forall j :: 0 <= j < |rows| ==> (j in KeptIndices(rows, m) <==> IsMessageId(CellAt(rows[j], m)))
    decreases |rows|
  {
    if |rows| > 0 {
      var init := rows[..|rows| - 1];
      KeptIndicesExact(init, m);
      assert forall j :: 0 <= j < |init| ==> init[j] == rows[j];
    }
  }

  /** Filtering a concatenation filters each part. */
  lemma {:induction false} KeepDistributes(a: seq<Row>, b: seq<Row>, m: nat)
    ensures KeepMessageRows(a + b, m) == KeepMessageRows(a, m) + KeepMessageRows(b, m)
    decreases |b|
  {
    if |b| > 0 {
      var b' := b[..|b| - 1];
      assert (a + b)[..|a + b| - 1] == a + b';
      KeepDistributes(a, b', m);
    } else {
      assert a + b == a;
    }
  }

  /** A row the filter drops, wherever it stands, changes nothing kept. */
  lemma DroppedRowInvisible(a: seq<Row>, x: Row, b: seq<Row>, m: nat)
    requires !IsMessageId(CellAt(x, m))
    ensures KeepMessageRows(a + [x] + b, m) == KeepMessageRows(a + b, m)
  {
    KeepDistributes(a + [x], b, m);
    KeepDistributes(a, [x], m);
    KeepDistributes(a, b, m);
    assert [x][..0] == [];
  }

  /** When no row passes the filter, nothing is kept. */
  lemma {:induction false} NothingKept(rows: seq<Row>, m: nat)
    requires forall j :: 0 <= j < |rows| ==> !IsMessageId(CellAt(rows[j], m))
    ensures KeepMessageRows(rows, m) == []
    decreases |rows|
  {
    if |rows| > 0 {
      var init := rows[..|rows| - 1];
      assert forall j :: 0 <= j < |init| ==> init[j] == rows[j];
      NothingKept(init, m);
    }
  }

  /** A labelled and filtered frame: its column labels and the kept rows. */
  datatype Frame = Frame(labels: seq<string>, rows: seq<Row>)

  /** Labelling then filtering; None where pandas raises (a table wider than
      the canonical list, or no `Message_ID` column to filter on). */
  function Normalize(t: Table): (r: Option<Frame>)
    ensures r.Some? <==> MessageIdColumn < t.width <= |CanonicalColumns|
    ensures r.Some? ==> r.value.labels == Label(t.width).value
    ensures r.Some? ==> r.value.rows == KeepMessageRows(t.rows, MessageIdColumn)
  {
    var labels :- Label(t.width);
    MessageIdLabel(t.width);
    var m :- IndexOf(labels, "Message_ID");
    Some(Frame(labels, KeepMessageRows(t.rows, m)))
  }
}
