/**
 * The Calibration class of raspi_src/Calibration.py: a constructor that
 * loads one metric's table into _calData, and an unfinished get.
 * Python's raising constructor is the static method Open, which either
 * returns the new object or the error the constructor would have raised.
 */
module Calibration {
  import opened Wrappers
  import opened CalibrationCsv

  class Calibration<T> {
    var calDirectory: string
    var calData: seq<CalPoint<T>>

    /** The object as it stands once _calDirectory is set and _calData is still empty. */
    constructor Empty(calDir: string)
      ensures calDirectory == calDir && calData == []
    {
      calDirectory := calDir;
      calData := [];
    }

    /**
     * Calibration(metric, calDir, calPrefix) reading the files in fs.
     * Either the new object, whose _calData is what Load gives, or Load's error.
     */
    static method Open(fs: FileSystem, parse: string -> Option<T>, metric: string,
                       calDir: string := DefaultCalDir, calPrefix: string := DefaultPrefix)
      returns (r: Result<Calibration<T>, LoadError>)
      ensures r.Success? <==> Load(fs, CalPath(calDir, calPrefix, metric), parse).Success?
      ensures r.Success? ==> fresh(r.value) && r.value.calDirectory == calDir
      ensures r.Success? ==> r.value.calData == Load(fs, CalPath(calDir, calPrefix, metric), parse).value
      ensures r.Failure? ==> r.error == Load(fs, CalPath(calDir, calPrefix, metric), parse).error
    {
      var c := new Calibration.Empty(calDir);
      var path := FilePath(c.calDirectory, calPrefix + metric + Extension);
      assert path == CalPath(calDir, calPrefix, metric);
      if path !in fs {
        return Failure(FileNotFound(path));
      }
      c.calData := [];
      var file := fs[path];
      if file.fieldnames.None? {
        return Failure(NoHeader);
      }
      if !HasRequiredColumns(file.fieldnames.value) {
        return Failure(MissingColumns(file.fieldnames.value));
      }
      assert Load(fs, path, parse) == ParseRows(file.rows, parse);
      var rows := file.rows;
      var i := 0;
      while i < |rows|
        invariant 0 <= i <= |rows|
        invariant c.calDirectory == calDir
        invariant ParseRows(rows[..i], parse) == Success(c.calData)
      {
        assert rows[..i + 1][..i] == rows[..i];
        match ParseRow(rows[i], i, parse)
        case Failure(e) => {
          FailureExtends(rows, i + 1, parse);
          return Failure(e);
        }
        case Success(p) => {
          c.calData := c.calData + [p];
          i := i + 1;
        }
      }
      assert rows[..i] == rows;
      return Success(c);
    }

    /** get has no body: every reading gives None, whatever the table holds. */
    function Get(reading: T): (r: Option<T>)
      ensures r == None
    {
      None
    }
  }
}
