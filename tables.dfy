/**
 * CSV result files. A file is modelled by the rows `csv.writer` wrote into it;
 * the encoding of a row as text (commas, quoting, line terminator) is not modelled.
 */
module Tables {
  import opened Maybe

  /** One CSV record: the text of each of its cells. */
  type Row = seq<string>

  /** The rows of a CSV file, or None when no file exists at its path. */
  type Table = Option<seq<Row>>

  /**
   * The collation rule shared by the lesion statistics and the brain-age
   * results: an existing file gets the new rows appended; a missing one is
   * created holding the header row followed by the new rows. Nothing compares
   * the rows with the header.
   */
  function Appended(t: Table, header: Row, rows: seq<Row>): Table {
    match t
    case Some(existing) => Some(existing + rows)
    case None => Some([header] + rows)
  }

  /** The file after successive runs, run `i` collating the rows `batches[i]`. */
  function AppendedEach(t: Table, header: Row, batches: seq<seq<Row>>): Table
    decreases |batches|
  {
    if batches == [] then t else AppendedEach(Appended(t, header, batches[0]), header, batches[1..])
  }

  function Flatten(batches: seq<seq<Row>>): seq<Row> {
    if batches == [] then [] else batches[0] + Flatten(batches[1..])
  }

  /** The header row comes first and no later row equals it. */
  predicate HasSingleHeader(rows: seq<Row>, header: Row) {
    |rows| >= 1 && rows[0] == header && forall i :: 1 <= i < |rows| ==> rows[i] != header
  }

  /** Every row has `width` cells. */
  predicate Rectangular(rows: seq<Row>, width: nat) {
    forall i :: 0 <= i < |rows| ==> |rows[i]| == width
  }

  /** A collated file as its readers expect it: one header, every row as wide as the header. */
  predicate WellFormed(rows: seq<Row>, header: Row) {
    HasSingleHeader(rows, header) && Rectangular(rows, |header|)
  }

  /** Collating keeps the file well formed as long as every writer's rows fit the header. */
  lemma AppendedWellFormed(t: Table, header: Row, rows: seq<Row>)
    requires t.Some? ==> WellFormed(t.value, header)
    requires forall i :: 0 <= i < |rows| ==> rows[i] != header && |rows[i]| == |header|
    ensures Appended(t, header, rows).Some?
    ensures WellFormed(Appended(t, header, rows).value, header)
  {
    var prior := if t.Some? then t.value else [header];
    var r := Appended(t, header, rows).value;
    assert r == prior + rows;
    forall i | 0 <= i < |r| ensures |r[i]| == |header| && (i >= 1 ==> r[i] != header) {
      if i >= |prior| { assert r[i] == rows[i - |prior|]; } else { assert r[i] == prior[i]; }
    }
  }

  /** Two runs in a row leave what one run collating both batches leaves. */
  lemma AppendedTwice(t: Table, header: Row, a: seq<Row>, b: seq<Row>)
    ensures Appended(Appended(t, header, a), header, b) == Appended(t, header, a + b)
  {
    match t
    case Some(existing) => assert existing + a + b == existing + (a + b);
    case None => assert [header] + a + b == [header] + (a + b);
  }

  /** However many runs there were, the file holds what one run collating all their rows would leave. */
  lemma {:induction false} AppendedEachFlatten(t: Table, header: Row, batches: seq<seq<Row>>)
    ensures AppendedEach(t, header, batches) ==
            if batches == [] then t else Appended(t, header, Flatten(batches))
    decreases |batches|
  {
    if batches != [] {
      var t1 := Appended(t, header, batches[0]);
      AppendedEachFlatten(t1, header, batches[1..]);
      if batches[1..] == [] {
        assert Flatten(batches) == batches[0] + [];
        assert batches[0] + [] == batches[0];
      } else {
        AppendedTwice(t, header, batches[0], Flatten(batches[1..]));
      }
    }
  }

  /** Starting with no file, N runs leave exactly one header followed by every run's rows in run order. */
  lemma RunsFromNoFile(header: Row, batches: seq<seq<Row>>)
    requires batches != []
    ensures AppendedEach(None, header, batches) == Some([header] + Flatten(batches))
  {
    AppendedEachFlatten(None, header, batches);
  }

  /** A CSV file at a fixed path on disk. */
  class CsvFile {
    var content: Table

    constructor (initial: Table)
      ensures content == initial
    {
      content := initial;
    }

    /** `Path(path).is_file()` */
    predicate IsFile()
      reads this
    {
      content.Some?
    }

    /** `open(path, "w")` followed by `writer.writerows(rows)`: the file is replaced. */
    method Write(rows: seq<Row>)
      modifies this
      ensures content == Some(rows)
    {
      content := Some(rows);
    }

    /** `open(path, "a+")` followed by `writer.writerows(rows)`: a missing file is created empty first. */
    method Append(rows: seq<Row>)
      modifies this
      ensures content == Some((if old(content).Some? then old(content).value else []) + rows)
    {
      content := Some((if content.Some? then content.value else []) + rows);
    }
  }

  /** `if collated_file.is_file(): append rows; else: write header, then rows`. */
  method AppendOrCreate(file: CsvFile, header: Row, rows: seq<Row>)
    modifies file
    ensures file.content == Appended(old(file.content), header, rows)
  {
    if file.IsFile() {
      file.Append(rows);
    } else {
      file.Write([header] + rows);
    }
  }
}
