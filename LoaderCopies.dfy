/**
 * The two copies of the calibration loader side by side: a meter's
 * read_calibration_csv and a Calibration built on the meter's directory
 * with the default prefix give the same entries or the same error.
 */
module LoaderCopies {
  import opened Wrappers
  import opened CalibrationCsv
  import Calibration
  import PowerMeter

  method LoadBoth<T>(meter: PowerMeter.PowerMeter, fs: FileSystem, parse: string -> Option<T>, metric: string)
    returns (viaMeter: Result<seq<CalPoint<T>>, LoadError>, viaCalibration: Result<Calibration.Calibration<T>, LoadError>)
    ensures viaMeter.Success? <==> viaCalibration.Success?
    ensures viaMeter.Success? ==> viaCalibration.value.calData == viaMeter.value
    ensures viaMeter.Success? ==> viaCalibration.value.calDirectory == meter.calDirectory
    ensures viaMeter.Failure? ==> viaCalibration.error == viaMeter.error
  {
    viaMeter := meter.ReadCalibrationCsv(fs, parse, metric);
    viaCalibration := Calibration.Calibration.Open(fs, parse, metric, meter.calDirectory);
  }
}
