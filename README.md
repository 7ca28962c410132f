# PM61 power meter and calibration tables, modelled in Dafny

This project models the Raspberry Pi side of the PM61 optical power meter
project (`raspi_src/`). It has three parts:

- **the calibration table loader.** It looks up `<prefix><metric>.csv` in a
  directory, refuses a missing file or a header without the `Reading`,
  `Result` and `Unit` columns, and stores one `{Reading, Result, Unit}` entry
  per data row. The source has two copies of it: the `Calibration`
  constructor and `PowerMeter.read_calibration_csv`.
- **the `PowerMeter` session.** It holds a resource manager `_rm`, a
  calibration directory `_calDirectory` and a device `_device`. The guards
  test only whether `_device` is set. `setupSensors`, `readCharge` and
  `takeReading` do nothing without a device. With one, each sends a fixed,
  ordered series of SCPI commands. `connect` always lists the resources, and
  `disconnect` always closes the manager. `read_calibration_csv` needs no
  device. The model adds a log of the pyvisa calls made.
- **the SCPI boolean encoders** `BOOL_ONOFF` and `BOOL_INT`.

Modules:

- `Wrappers` holds `Option` and `Result`.
- `CalibrationCsv` holds the tokenised file, the loader's specification
  function `Load`, and the lemmas about it.
- `Calibration` holds the class, whose factory method `Open` is the raising
  constructor.
- `PowerMeter` holds the class, with a log of pyvisa calls.
- `LoaderCopies` shows that both loader copies agree.
- `ScpiUtil` holds the encoders and their decoders.

How the pieces are modelled:

- A CSV file is taken as `csv.DictReader` has already split it: an optional
  header (`None` for an empty file) and rows as `map<string, string>`. A
  column missing from a row map stands for the `None` that DictReader puts in
  a short row.
- `float()` is an opaque partial function `parse: string -> Option<T>`. The
  numbers are only stored, never computed with.
- The file system is a map from paths to files. A path is in the map exactly
  when it exists.
- pyvisa is a foreign library. Each call the class makes to it (list, open,
  write, read, query, close) is appended to the field `log`. A session handle
  records the resource it was opened on and the log position of the open
  call. This makes the `Valid()` invariant checkable: every call sent to a
  device is addressed to a session opened earlier in the log.

What the code does not do, and the model therefore does not do either:

- There is no interpolation or extrapolation: `Calibration.get` has no body.
- Rows are not sorted and duplicates are not removed.
- Units are not checked to agree, and an empty table is not refused.
- `connect` does not insist on exactly one resource: it opens the first.
- `disconnect` does not forget the device.
- There is no configure step that validates a wavelength or a unit. The
  commands sent are fixed.

## Model

| member | source | states |
|---|---|---|
| ScpiUtil.BoolOnOff | raspi_src/scpi_util.py:14-18 | the result is "ON" or "OFF", and it is "ON" exactly when the state is true |
| ScpiUtil.BoolInt | raspi_src/scpi_util.py:24-28 | the result is in {0, 1}, and it is 1 exactly when the state is true |
| ScpiUtil.OnOffRoundTrip | raspi_src/scpi_util.py:14-18 | decoding BOOL_ONOFF's text gives back the bool encoded |
| ScpiUtil.OnOffDecodeSound | raspi_src/scpi_util.py:14-18 | any text that decodes to a bool is exactly that bool's BOOL_ONOFF text |
| ScpiUtil.OnOffInjective | raspi_src/scpi_util.py:14-18 | different bools get different ON/OFF texts |
| ScpiUtil.IntRoundTrip | raspi_src/scpi_util.py:24-28 | decoding BOOL_INT's number gives back the bool encoded |
| ScpiUtil.IntDecodeSound | raspi_src/scpi_util.py:24-28 | any number that decodes to a bool is exactly that bool's BOOL_INT value |
| ScpiUtil.EncodersAgree | raspi_src/scpi_util.py:14-28 | BOOL_ONOFF gives "ON" exactly when BOOL_INT gives 1, and both decode to the same bool |
| CalibrationCsv.FileNameRoundTrip | raspi_src/Calibration.py:10 | the metric can be recovered from `<prefix><metric>.csv` |
| CalibrationCsv.FileNameInjective | raspi_src/Calibration.py:10-11 | two different metrics never give the same file name |
| CalibrationCsv.ParseRowIff | raspi_src/Calibration.py:31-35 | a row converts exactly when its Reading and Result are present and parse. The entry is then those two numbers plus the Unit text as written. Otherwise the error names that row |
| CalibrationCsv.FailureExtends | raspi_src/Calibration.py:30-35 | once a row fails to convert, no later row matters: the file fails with that row's error |
| CalibrationCsv.ParseRowsSuccess | raspi_src/Calibration.py:30-35 | the rows load exactly when every row converts. The table then has one entry per row, in file order, each built from its own row: no sorting, no deduplication, no unit check |
| CalibrationCsv.ParseRowsFirstError | raspi_src/Calibration.py:30-35 | a failed load names the first row that does not convert and its column at fault (Reading before Result); all earlier rows convert |
| CalibrationCsv.LoadSucceedsIff | raspi_src/Calibration.py:13-35 | loading succeeds exactly when the file exists, its header contains Reading, Result and Unit (extra columns allowed), and every row converts. The entries then correspond one to one with the rows |
| CalibrationCsv.LoadErrorOrder | raspi_src/Calibration.py:13-28 | a missing file is reported before anything is read. A missing header, then missing columns, come next, whatever the rows hold. A number error arises only after both checks passed |
| CalibrationCsv.HeaderOnlyLoadsEmpty | raspi_src/Calibration.py:16-35 | a file with a valid header and no data rows loads as an empty table |
| CalibrationCsv.KeepsRowsAsWritten | raspi_src/Calibration.py:22-35 | worked file: an extra column, out-of-order and repeated readings, two units and a short row are all kept as written, in order |
| Calibration.Calibration.Empty | raspi_src/Calibration.py:7-16 | the new object has the given directory and an empty _calData |
| Calibration.Calibration.Open | raspi_src/Calibration.py:7-35 | the constructor either yields a fresh object whose _calDirectory is calDir and whose _calData is the loaded table, or raises the same error the loader specification gives |
| Calibration.Calibration.Get | raspi_src/Calibration.py:37-38 | get returns None for every reading |
| PowerMeter.AppendToOpened | raspi_src/PowerMeter.py:78-143 | commands sent only to an already opened session keep every logged call addressed to an opened session |
| PowerMeter.PowerMeter.constructor | raspi_src/PowerMeter.py:37-46 | picks the simulated or default resource manager, sets _device to None and _calDirectory to calDir, and logs no call: creating the manager is recorded only in `manager` |
| PowerMeter.PowerMeter.Connect | raspi_src/PowerMeter.py:57-80 | with no resources, only the listing is logged and the session is unchanged. Otherwise the first resource is opened, becomes the device, and receives "*IDN?", a read, then "SYST:SENS:IDN?" |
| PowerMeter.PowerMeter.SetupSensors | raspi_src/PowerMeter.py:85-97 | without a device, nothing is sent. With one, exactly "SENS:RANGE:AUTO ON", "SENS:CORR:WAV 870", "SENS:POW:UNIT DBM" are written, in that order |
| PowerMeter.PowerMeter.Disconnect | raspi_src/PowerMeter.py:102-116 | always completes. It closes the device if there is one, then the manager, and leaves _device as it was |
| PowerMeter.PowerMeter.ReadCharge | raspi_src/PowerMeter.py:121-126 | without a device, nothing is sent. With one, only "SYST:BATT:SOC?" is queried |
| PowerMeter.PowerMeter.TakeReading | raspi_src/PowerMeter.py:130-143 | without a device, nothing is sent. With one, "SYST:BEEP" is written and then "MEAS:POW?" is queried. No reading is returned |
| PowerMeter.PowerMeter.ReadCalibrationCsv | raspi_src/PowerMeter.py:150-179 | returns exactly what the loader specification gives for `CAL_<metric>.csv` in the meter's directory: the list or the error |
| PowerMeter.RunAsScript | raspi_src/PowerMeter.py:184-198 | the module's script produces exactly the listed pyvisa call sequence, with or without a device, and every call goes to an opened session |
| LoaderCopies.LoadBoth | raspi_src/PowerMeter.py:150-179 | read_calibration_csv and Calibration on the meter's directory with the default prefix give the same entries or the same error |

## Left out

- Interpolation, extrapolation and unit lookup: `Calibration.get` has no body, so there is nothing to model.
- pyvisa itself: listing, opening, writing, reading and querying are foreign calls. They are modelled only as entries in the call log. Their answers, failures and timeouts are not modelled. One consequence: commands sent after `disconnect` to the closed but still remembered session are logged, whereas pyvisa would raise.
- Creating the pyvisa ResourceManager in the constructor is not logged, and its failures are not modelled: a missing VISA backend, simulation backend or `PM61_SIM.yaml` would make the source raise.
- A second `connect` after `disconnect` lists resources on a closed resource manager. The model logs the listing; pyvisa's error there is not modelled.
- Close failures in `disconnect` are swallowed by the source. The model's close calls cannot fail, so that outcome is the only one modelled.
- File and CSV machinery: `Path.exists`, `open`, UTF-8 decoding and `csv.DictReader`'s tokenising are I/O and library code. The file system is a map and each file is given already tokenised. pathlib's path normalisation (such as dropping `./`) is not modelled: a path is the pair (directory, file name).
- `float()` itself is an opaque parameter. The numbers are only stored.
- The partly filled `_calData` or `data` list that exists when a row fails is not observable in the source, since the exception discards it. The model returns only the error.
- `print` logging, `warnings.filterwarnings`, `time.sleep(1)` and `__str__`'s constant `"PM61"` (modelled as `ToString` without a contract) have no logical content.
- `raspi_src/main.py` and `raspi_src/GenerateReadingsCSV.py` are entry scripts. They call methods that `PowerMeter` does not define (`isConnected`, `defaultSensorSetup`, `queryPowerMeasurement`), and the second one is an endless loop ended by an interrupt. They are not part of this model.
