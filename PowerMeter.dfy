/**
 * The PowerMeter class of raspi_src/PowerMeter.py. pyvisa is a foreign
 * library, so the instrument is an abstract handle and every pyvisa call the
 * class makes is appended, in order, to the call log `log`. Instrument
 * answers are never returned by the class (it only prints them), so they are
 * not modelled.
 */
module PowerMeter {
  import opened Wrappers
  import opened CalibrationCsv

  const SimulationSpec: string := "PM61_SIM.yaml@sim"

  /** Which pyvisa ResourceManager the meter was built with. */
  datatype ResourceManager = DefaultBackend | SimulatedBackend(spec: string)

  /** An open instrument session: the resource it was opened on and the log position of that open call. */
  datatype Handle = Handle(resource: string, openedAt: nat)

  /** One pyvisa call made by the class. */
  datatype VisaCall =
    | ListResources
    | OpenResource(resource: string)
    | Write(device: Handle, command: string)
    | Read(device: Handle, termination: string)
    | Query(device: Handle, command: string)
    | CloseDevice(device: Handle)
    | CloseManager
  {
    predicate AddressesDevice() {
      Write? || Read? || Query? || CloseDevice?
    }
  }

  /** h is the session opened by the call at log position h.openedAt. */
  predicate OpenedIn(log: seq<VisaCall>, h: Handle)
  {
    h.openedAt < |log| && log[h.openedAt] == OpenResource(h.resource)
  }

  /** Every call addressed to a device goes to a session opened earlier in the log. */
  predicate AddressedToOpened(log: seq<VisaCall>)
  {
    forall i | 0 <= i < |log| && log[i].AddressesDevice() ::
      log[i].device.openedAt < i && OpenedIn(log, log[i].device)
  }

  /** Calls that speak only to h, appended after h was opened, keep every call addressed to an opened session. */
  lemma AppendToOpened(log: seq<VisaCall>, h: Handle, calls: seq<VisaCall>)
    requires AddressedToOpened(log) && OpenedIn(log, h)
    requires forall c | c in calls && c.AddressesDevice() :: c.device == h
    requires forall c | c in calls :: !c.OpenResource?
    ensures AddressedToOpened(log + calls) && OpenedIn(log + calls, h)
  {
  }

  /** The writes setupSensors sends: auto range, 870 nm wavelength correction, dBm units. */
  function SetupCommands(h: Handle): seq<VisaCall>
  {
    [Write(h, "SENS:RANGE:AUTO ON"), Write(h, "SENS:CORR:WAV 870"), Write(h, "SENS:POW:UNIT DBM")]
  }

  class PowerMeter {
    const manager: ResourceManager
    var device: Option<Handle>
    var calDirectory: string
    var log: seq<VisaCall>

    ghost predicate Valid()
      reads this
    {
      AddressedToOpened(log) && (device.Some? ==> OpenedIn(log, device.value))
    }

    constructor(calDir: string := DefaultCalDir, isSimulated: bool := false)
      ensures Valid()
      ensures manager == if isSimulated then SimulatedBackend(SimulationSpec) else DefaultBackend
      ensures device == None && calDirectory == calDir && log == []
    {
      manager := if isSimulated then SimulatedBackend(SimulationSpec) else DefaultBackend;
      device := None;
      calDirectory := calDir;
      log := [];
    }

    function ToString(): string
    {
      "PM61"
    }

    /**
     * Lists the resources and, when there is at least one, opens the first,
     * then asks it for its identity. With none, only the listing happens and
     * the session is left as it was.
     */
    method Connect(resources: seq<string>)
      requires Valid()
      modifies this`device, this`log
      ensures Valid()
      ensures resources == [] ==> device == old(device) && log == old(log) + [ListResources]
      ensures resources != [] ==>
        var h := Handle(resources[0], |old(log)| + 1);
        && device == Some(h)
        && log == old(log) + [ListResources, OpenResource(resources[0]), Write(h, "*IDN?"), Read(h, "\n"), Query(h, "SYST:SENS:IDN?")]
    {
      log := log + [ListResources];
      if |resources| == 0 {
        return;
      }
      var deviceId := resources[0];
      var h := Handle(deviceId, |log|);
      log := log + [OpenResource(deviceId)];
      device := Some(h);
      AppendToOpened(log, h, [Write(h, "*IDN?"), Read(h, "\n"), Query(h, "SYST:SENS:IDN?")]);
      log := log + [Write(h, "*IDN?"), Read(h, "\n"), Query(h, "SYST:SENS:IDN?")];
    }

    method SetupSensors()
      requires Valid()
      modifies this`log
      ensures Valid()
      ensures device.None? ==> log == old(log)
      ensures device.Some? ==> log == old(log) + SetupCommands(device.value)
    {
      if device.None? {
        return;
      }
      AppendToOpened(log, device.value, SetupCommands(device.value));
      log := log + SetupCommands(device.value);
    }

    /**
     * Closes the session if there is one and then the resource manager.
     * A failing close is swallowed, so the method always completes; the
     * session is not forgotten afterwards.
     */
    method Disconnect()
      requires Valid()
      modifies this`log
      ensures Valid()
      ensures device.None? ==> log == old(log) + [CloseManager]
      ensures device.Some? ==> log == old(log) + [CloseDevice(device.value), CloseManager]
    {
      if device.Some? {
        AppendToOpened(log, device.value, [CloseDevice(device.value)]);
        log := log + [CloseDevice(device.value)];
      }
      log := log + [CloseManager];
    }

    /** Asks the device for its battery state of charge; the answer is only printed. */
    method ReadCharge()
      requires Valid()
      modifies this`log
      ensures Valid()
      ensures device.None? ==> log == old(log)
      ensures device.Some? ==> log == old(log) + [Query(device.value, "SYST:BATT:SOC?")]
    {
      if device.None? {
        return;
      }
      AppendToOpened(log, device.value, [Query(device.value, "SYST:BATT:SOC?")]);
      log := log + [Query(device.value, "SYST:BATT:SOC?")];
    }

    /** Beeps, then measures power; the measurement is printed, not returned. */
    method TakeReading()
      requires Valid()
      modifies this`log
      ensures Valid()
      ensures device.None? ==> log == old(log)
      ensures device.Some? ==> log == old(log) + [Write(device.value, "SYST:BEEP"), Query(device.value, "MEAS:POW?")]
    {
      if device.None? {
        return;
      }
      var h := device.value;
      AppendToOpened(log, h, [Write(h, "SYST:BEEP"), Query(h, "MEAS:POW?")]);
      log := log + [Write(h, "SYST:BEEP"), Query(h, "MEAS:POW?")];
    }

    /** The second copy of the loader: fixed prefix "CAL_", the meter's directory, the list returned. */
    method ReadCalibrationCsv<T>(fs: FileSystem, parse: string -> Option<T>, metric: string)
      returns (r: Result<seq<CalPoint<T>>, LoadError>)
      ensures r == Load(fs, CalPath(calDirectory, "CAL_", metric), parse)
    {
      var path := FilePath(calDirectory, "CAL_" + metric + Extension);
      assert path == CalPath(calDirectory, "CAL_", metric);
      if path !in fs {
        return Failure(FileNotFound(path));
      }
      var data: seq<CalPoint<T>> := [];
      var file := fs[path];
      if file.fieldnames.None? {
        return Failure(NoHeader);
      }
      if !HasRequiredColumns(file.fieldnames.value) {
        return Failure(MissingColumns(file.fieldnames.value));
      }
      var rows := file.rows;
      var i := 0;
      while i < |rows|
        invariant 0 <= i <= |rows|
        invariant ParseRows(rows[..i], parse) == Success(data)
      {
        assert rows[..i + 1][..i] == rows[..i];
        match ParseRow(rows[i], i, parse)
        case Failure(e) => {
          FailureExtends(rows, i + 1, parse);
          return Failure(e);
        }
        case Success(p) => {
          data := data + [p];
          i := i + 1;
        }
      }
      assert rows[..i] == rows;
      return Success(data);
    }
  }

  /**
   * The module's own script: build a meter with the defaults, connect,
   * set up, take a reading, disconnect. The result is every pyvisa call made.
   */
  method RunAsScript(resources: seq<string>) returns (calls: seq<VisaCall>)
    ensures resources == [] ==> calls == [ListResources, CloseManager]
    ensures resources != [] ==>
      var h := Handle(resources[0], 1);
      calls == [ListResources, OpenResource(resources[0]), Write(h, "*IDN?"), Read(h, "\n"), Query(h, "SYST:SENS:IDN?")]
               + SetupCommands(h)
               + [Write(h, "SYST:BEEP"), Query(h, "MEAS:POW?"), CloseDevice(h), CloseManager]
    ensures AddressedToOpened(calls)
  {
    var meter := new PowerMeter();
    meter.Connect(resources);
    meter.SetupSensors();
    meter.TakeReading();
    meter.Disconnect();
    calls := meter.log;
  }
}
