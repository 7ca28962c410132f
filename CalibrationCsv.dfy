/**
 * The calibration file as the loader sees it, and what loading it yields.
 *
 * Both copies of the loader (the Calibration constructor and
 * PowerMeter.read_calibration_csv) are proved against Load below.
 * A file is modelled after csv.DictReader has tokenised it: an optional
 * header (None for an empty file) and the data rows as maps from column
 * name to text. A column missing from a row map stands for the None that
 * DictReader puts in a short row. Python's float() is the opaque partial
 * function `parse`; the numbers are only stored, never computed with.
 */
module CalibrationCsv {
  import opened Wrappers

  const DefaultCalDir: string := "./cal"
  const DefaultPrefix: string := "CAL_"
  const Extension: string := ".csv"
  const RequiredColumns: set<string> := {"Reading", "Result", "Unit"}

  /** Path(dir) / name, without pathlib's normalisation. */
  datatype FilePath = FilePath(dir: string, name: string)

  datatype CsvFile = CsvFile(fieldnames: Option<seq<string>>, rows: seq<map<string, string>>)

  /** The files that exist, by path. */
  type FileSystem = map<FilePath, CsvFile>

  /** One stored row: {"Reading": float, "Result": float, "Unit": text or None}. */
  datatype CalPoint<T> = CalPoint(reading: T, result: T, unit: Option<string>)

  /** Why loading stopped, one constructor per exception the loader lets escape. */
  datatype LoadError =
    | FileNotFound(path: FilePath)           // FileNotFoundError from the existence check
    | NoHeader                               // TypeError: issubset(None) on an empty file
    | MissingColumns(found: seq<string>)     // ValueError raised for a header lacking a required column
    | BadNumber(row: nat, column: string, text: Option<string>)  // ValueError or TypeError from float()

  function FileName(prefix: string, metric: string): string
  {
    prefix + metric + Extension
  }

  /** The metric a file name belongs to, if it has the prefix and the extension. */
  function MetricOf(prefix: string, name: string): (m: Option<string>)
    ensures m.Some? ==> FileName(prefix, m.value) == name
  {
    if |name| >= |prefix| + |Extension| && name[..|prefix|] == prefix && name[|name| - |Extension|..] == Extension
    then
      var m := name[|prefix|..|name| - |Extension|];
      assert name == name[..|prefix|] + m + name[|name| - |Extension|..];
      Some(m)
    else None
  }

  function CalPath(calDir: string, prefix: string, metric: string): FilePath
  {
    FilePath(calDir, FileName(prefix, metric))
  }

  predicate HasRequiredColumns(fieldnames: seq<string>)
  {
    forall c | c in RequiredColumns :: c in fieldnames
  }

  /** row[column]; None when the row was too short to have the column. */
  function Field(row: map<string, string>, column: string): Option<string>
  {
    if column in row then Some(row[column]) else None
  }

  /** float(row[column]) for the row at position index. */
  function ParseNumber<T>(row: map<string, string>, index: nat, column: string, parse: string -> Option<T>): Result<T, LoadError>
  {
    match Field(row, column)
    case None => Failure(BadNumber(index, column, None))
    case Some(text) =>
      match parse(text)
      case None => Failure(BadNumber(index, column, Some(text)))
      case Some(v) => Success(v)
  }

  /** The dictionary one row becomes; Reading is converted before Result. */
  function ParseRow<T>(row: map<string, string>, index: nat, parse: string -> Option<T>): Result<CalPoint<T>, LoadError>
  {
    match ParseNumber(row, index, "Reading", parse)
    case Failure(e) => Failure(e)
    case Success(reading) =>
      match ParseNumber(row, index, "Result", parse)
      case Failure(e) => Failure(e)
      case Success(result) => Success(CalPoint(reading, result, Field(row, "Unit")))
  }

  /** The rows converted in file order, stopping at the first that fails. */
  function ParseRows<T>(rows: seq<map<string, string>>, parse: string -> Option<T>): Result<seq<CalPoint<T>>, LoadError>
    decreases |rows|
  {
    if rows == [] then Success([])
    else
      var n := |rows| - 1;
      match ParseRows(rows[..n], parse)
      case Failure(e) => Failure(e)
      case Success(points) =>
        match ParseRow(rows[n], n, parse)
        case Failure(e) => Failure(e)
        case Success(p) => Success(points + [p])
  }

  /** An opened file: header check first, then the rows. */
  function LoadFile<T>(file: CsvFile, parse: string -> Option<T>): Result<seq<CalPoint<T>>, LoadError>
  {
    match file.fieldnames
    case None => Failure(NoHeader)
    case Some(names) =>
      if !HasRequiredColumns(names) then Failure(MissingColumns(names))
      else ParseRows(file.rows, parse)
  }

  /** The whole loader: existence check, header check, rows. */
  function Load<T>(fs: FileSystem, path: FilePath, parse: string -> Option<T>): Result<seq<CalPoint<T>>, LoadError>
  {
    if path !in fs then Failure(FileNotFound(path)) else LoadFile(fs[path], parse)
  }

  // ---------------------------------------------------------------------
  // An independent description of a successful row, and lemmas tying the
  // loader to it.

  predicate NumberParses<T>(row: map<string, string>, column: string, parse: string -> Option<T>)
  {
    column in row && parse(row[column]).Some?
  }

  predicate RowParses<T>(row: map<string, string>, parse: string -> Option<T>)
  {
    NumberParses(row, "Reading", parse) && NumberParses(row, "Result", parse)
  }

  /** The entry a well-formed row is stored as: both numbers parsed, the unit verbatim. */
  function PointOf<T>(row: map<string, string>, parse: string -> Option<T>): CalPoint<T>
    requires RowParses(row, parse)
  {
    CalPoint(parse(row["Reading"]).value, parse(row["Result"]).value, Field(row, "Unit"))
  }

  lemma FileNameRoundTrip(prefix: string, metric: string)
    ensures MetricOf(prefix, FileName(prefix, metric)) == Some(metric)
  {
  }

  /** Different metrics are looked up in different files. */
  lemma FileNameInjective(prefix: string, m1: string, m2: string)
    requires FileName(prefix, m1) == FileName(prefix, m2)
    ensures m1 == m2
  {
    FileNameRoundTrip(prefix, m1);
    FileNameRoundTrip(prefix, m2);
  }

  lemma ParseRowIff<T>(row: map<string, string>, index: nat, parse: string -> Option<T>)
    ensures ParseRow(row, index, parse).Success? <==> RowParses(row, parse)
    ensures RowParses(row, parse) ==> ParseRow(row, index, parse).value == PointOf(row, parse)
    ensures !RowParses(row, parse) ==> ParseRow(row, index, parse).error.BadNumber?
    ensures !RowParses(row, parse) ==> ParseRow(row, index, parse).error.row == index
    ensures !RowParses(row, parse) ==>
      ParseRow(row, index, parse).error.column == if NumberParses(row, "Reading", parse) then "Result" else "Reading"
  {
  }

  /** Once a prefix of the rows fails, the whole file fails with that error. */
  lemma {:induction false} FailureExtends<T>(rows: seq<map<string, string>>, j: nat, parse: string -> Option<T>)
    requires j <= |rows|
    requires ParseRows(rows[..j], parse).Failure?
    ensures ParseRows(rows, parse) == ParseRows(rows[..j], parse)
    decreases |rows| - j
  {
    if j < |rows| {
      var next := rows[..j + 1];
      assert next[..j] == rows[..j];
      FailureExtends(rows, j + 1, parse);
    } else {
      assert rows[..j] == rows;
    }
  }

  /**
   * The rows load exactly when every row has parseable numbers, and then
   * there is one entry per row, in file order, each the row's own values:
   * no sorting, no deduplication, no check that the units agree.
   */
  lemma {:induction false} ParseRowsSuccess<T>(rows: seq<map<string, string>>, parse: string -> Option<T>)
    ensures ParseRows(rows, parse).Success? <==> forall i | 0 <= i < |rows| :: RowParses(rows[i], parse)
    ensures ParseRows(rows, parse).Success? ==>
      |ParseRows(rows, parse).value| == |rows| &&
      forall i | 0 <= i < |rows| :: ParseRows(rows, parse).value[i] == PointOf(rows[i], parse)
    decreases |rows|
  {
    if rows != [] {
      var n := |rows| - 1;
      var front := rows[..n];
      ParseRowsSuccess(front, parse);
      ParseRowIff(rows[n], n, parse);
      assert forall i | 0 <= i < n :: front[i] == rows[i];
    }
  }

  /** A failure names the first row that does not parse, and the column at fault: Reading is converted before Result. */
  lemma {:induction false} ParseRowsFirstError<T>(rows: seq<map<string, string>>, parse: string -> Option<T>)
    requires ParseRows(rows, parse).Failure?
    ensures ParseRows(rows, parse).error.BadNumber?
    ensures ParseRows(rows, parse).error.row < |rows|
    ensures !RowParses(rows[ParseRows(rows, parse).error.row], parse)
    ensures forall i | 0 <= i < ParseRows(rows, parse).error.row :: RowParses(rows[i], parse)
    ensures ParseRows(rows, parse).error.column ==
      if NumberParses(rows[ParseRows(rows, parse).error.row], "Reading", parse) then "Result" else "Reading"
    decreases |rows|
  {
    var n := |rows| - 1;
    var front := rows[..n];
    assert forall i | 0 <= i < n :: front[i] == rows[i];
    ParseRowIff(rows[n], n, parse);
    if ParseRows(front, parse).Failure? {
      ParseRowsFirstError(front, parse);
    } else {
      ParseRowsSuccess(front, parse);
    }
  }

  /** Loading succeeds exactly when the file exists, has all three columns and every row parses. */
  lemma LoadSucceedsIff<T>(fs: FileSystem, path: FilePath, parse: string -> Option<T>)
    ensures Load(fs, path, parse).Success? <==>
      && path in fs
      && fs[path].fieldnames.Some?
      && HasRequiredColumns(fs[path].fieldnames.value)
      && forall i | 0 <= i < |fs[path].rows| :: RowParses(fs[path].rows[i], parse)
    ensures Load(fs, path, parse).Success? ==>
      |Load(fs, path, parse).value| == |fs[path].rows| &&
      forall i | 0 <= i < |fs[path].rows| :: Load(fs, path, parse).value[i] == PointOf(fs[path].rows[i], parse)
  {
    if path in fs {
      ParseRowsSuccess(fs[path].rows, parse);
    }
  }

  /** The checks come in source order: existence, then the header, then the rows. */
  lemma LoadErrorOrder<T>(fs: FileSystem, path: FilePath, parse: string -> Option<T>)
    ensures path !in fs ==> Load(fs, path, parse) == Failure(FileNotFound(path))
    ensures path in fs && fs[path].fieldnames.None? ==> Load(fs, path, parse) == Failure(NoHeader)
    ensures path in fs && fs[path].fieldnames.Some? && !HasRequiredColumns(fs[path].fieldnames.value) ==>
      Load(fs, path, parse) == Failure(MissingColumns(fs[path].fieldnames.value))
    ensures Load(fs, path, parse).Failure? && Load(fs, path, parse).error.BadNumber? ==>
      path in fs && fs[path].fieldnames.Some? && HasRequiredColumns(fs[path].fieldnames.value)
  {
  }

  /** A file with a valid header and no data rows loads as an empty table. */
  lemma HeaderOnlyLoadsEmpty<T>(fs: FileSystem, path: FilePath, parse: string -> Option<T>)
    requires path in fs && fs[path].rows == []
    requires fs[path].fieldnames.Some? && HasRequiredColumns(fs[path].fieldnames.value)
    ensures Load(fs, path, parse) == Success([])
  {
  }

  /**
   * A worked file: extra "Note" column, readings out of order, a repeated
   * reading, two different units and a short row without a Unit: all of it
   * is kept as it stands.
   */
  lemma KeepsRowsAsWritten()
    ensures
      var parse := (s: string) => if s == "1" then Some(1) else if s == "2" then Some(2) else if s == "10" then Some(10) else None;
      var rows := [map["Reading" := "2", "Result" := "10", "Unit" := "mL", "Note" := "x"],
                   map["Reading" := "1", "Result" := "1", "Unit" := "L"],
                   map["Reading" := "1", "Result" := "2"]];
      var file := CsvFile(Some(["Reading", "Note", "Result", "Unit"]), rows);
      LoadFile(file, parse) == Success([CalPoint(2, 10, Some("mL")), CalPoint(1, 1, Some("L")), CalPoint(1, 2, None)])
  {
    var parse := (s: string) => if s == "1" then Some(1) else if s == "2" then Some(2) else if s == "10" then Some(10) else None;
    var rows := [map["Reading" := "2", "Result" := "10", "Unit" := "mL", "Note" := "x"],
                 map["Reading" := "1", "Result" := "1", "Unit" := "L"],
                 map["Reading" := "1", "Result" := "2"]];
    var expected := [CalPoint(2, 10, Some("mL")), CalPoint(1, 1, Some("L")), CalPoint(1, 2, None)];
    assert forall i | 0 <= i < |rows| :: RowParses(rows[i], parse);
    ParseRowsSuccess(rows, parse);
    var got := ParseRows(rows, parse).value;
    assert got[0] == PointOf(rows[0], parse) == expected[0];
    assert got[1] == PointOf(rows[1], parse) == expected[1];
    assert got[2] == PointOf(rows[2], parse) == expected[2];
    assert got == expected;
    assert HasRequiredColumns(["Reading", "Note", "Result", "Unit"]);
  }
}
