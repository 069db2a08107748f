/**
 * The pin controller, `gpioPinHandler` and `getPinData`: for a pin-set the
 * export-if-absent step and the write of the new value, then for every pin
 * route the read-back of the pin's status and the JSON response.
 */
module Controller {
  import opened Wrappers
  import opened Text
  import opened Numeric
  import opened Status
  import opened Json
  import opened Http
  import opened Errors
  import opened Sysfs

  /**
   * The status `getPinData` reads from a tree, or the failure it raises:
   * uninitialized when the pin's directory is absent, otherwise the trimmed
   * `direction` and the leniently read `value`.
   */
  function ReadBack(s: FsState, pin: string): (r: Result<PinStatus, Failure>)
    ensures r.Ok? ==> r.value.pin == pin
    ensures r.Ok? && r.value.state.Uninitialized? <==> PinDir(pin) !in s.dirs
    ensures r.Ok? && r.value.state.Initialized? ==>
      s.CanOpen(DirectionPath(pin)) && s.CanOpen(ValuePath(pin)) &&
      r.value.state.direction == Trim(s.files[DirectionPath(pin)]) &&
      (r.value.state.value == High <==> NumericOne(Trim(s.files[ValuePath(pin)])))
    ensures r.Err? <==> PinDir(pin) in s.dirs && !(s.CanOpen(DirectionPath(pin)) && s.CanOpen(ValuePath(pin)))
  {
    var dp, vp := DirectionPath(pin), ValuePath(pin);
    if PinDir(pin) !in s.dirs then Ok(PinStatus(pin, Uninitialized))
    else if !s.CanOpen(dp) then Err(s.OpenFailure(dp))
    else if !s.CanOpen(vp) then Err(s.OpenFailure(vp))
    else Ok(PinStatus(pin, Initialized(Trim(s.files[dp]), ValueLevel(s.files[vp]))))
  }

  /** The handles `getPinData` opens on a tree, each closed again after its read. */
  function ReadHandles(s: FsState, pin: string): seq<Handle> {
    var dp, vp := DirectionPath(pin), ValuePath(pin);
    if PinDir(pin) !in s.dirs || !s.CanOpen(dp) then []
    else if !s.CanOpen(vp) then [Handle(dp, ReadMode, false)]
    else [Handle(dp, ReadMode, false), Handle(vp, ReadMode, false)]
  }

  /**
   * The 200 response for a pin route: `application/json`, the record's JSON
   * text as body, and a Content-Length equal to the number of characters of
   * that text, which is also its byte length.
   */
  function PinResponse(st: PinStatus): (r: Response)
    ensures r.status == 200 && HasContentType(r, "application/json")
    ensures DecodeStatus(r.body) == Some(st)
    ensures LengthMatches(r) && ParseDecimal(r.headers["Content-Length"]) == Some(|r.body|)
  {
    EncodeIsAscii(st);
    WithBody(200, "application/json", EncodeStatus(st))
  }

  /** A read-back turned into a response, a failure passed on unchanged. */
  function PinResult(rb: Result<PinStatus, Failure>): (r: Result<Response, Failure>)
    ensures r.Ok? <==> rb.Ok?
    ensures rb.Err? ==> r.error == rb.error
    ensures rb.Ok? ==>
      r.value.status == 200 && HasContentType(r.value, "application/json") &&
      DecodeStatus(r.value.body) == Some(rb.value) && LengthMatches(r.value)
  {
    match rb
    case Ok(st) => Ok(PinResponse(st))
    case Err(e) => Err(e)
  }

  /**
   * The writes a pin-set issues, in order: the pin to `export` only when
   * its directory was absent, then `1` or `0` to its `value` file.
   */
  function Planned(present: bool, pin: string, l: Level): (w: seq<WriteRecord>)
    ensures |w| == if present then 1 else 2
    ensures w[|w| - 1].path == ValuePath(pin)
    ensures !present ==> w[0] == WriteRecord(ExportPath(), pin)
  {
    (if present then [] else [WriteRecord(ExportPath(), pin)]) + [WriteRecord(ValuePath(pin), LevelDigit(l))]
  }

  /**
   * Whether a pin-set gets through both of its writes: with the directory
   * present the `value` file must open; with it absent `export` must open,
   * the kernel must accept the pin, and the new `value` file must open.
   */
  predicate Drivable(fs: FileSystem, pin: string)
    reads fs
  {
    if PinDir(pin) in fs.dirs then fs.State().CanOpen(ValuePath(pin))
    else fs.State().CanOpen(ExportPath()) && fs.Exportable(pin) && ValuePath(pin) !in fs.faults
  }

  /** The failure a pin-set that is not drivable raises: that of the first step that fails. */
  function DriveFailure(fs: FileSystem, pin: string): Failure
    reads fs
  {
    if PinDir(pin) in fs.dirs then fs.State().OpenFailure(ValuePath(pin))
    else if !fs.State().CanOpen(ExportPath()) then fs.State().OpenFailure(ExportPath())
    else if !fs.Exportable(pin) then FileException(ExportPath())
    else fs.State().OpenFailure(ValuePath(pin))
  }

  /** The writes a pin-set that fails has issued: the export, when it got as far as writing it. */
  function FailedWrites(fs: FileSystem, pin: string): seq<WriteRecord>
    reads fs
  {
    if PinDir(pin) in fs.dirs || !fs.State().CanOpen(ExportPath()) then [] else [WriteRecord(ExportPath(), pin)]
  }

  /** Whether the export step of a pin-set makes the kernel create the pin's directory. */
  predicate ExportsPin(fs: FileSystem, pin: string)
    reads fs
  {
    fs.State().CanOpen(ExportPath()) && fs.Exportable(pin)
  }

  /** The directories after a pin-set: the pin's new directory when the export step created it. */
  function SetDirs(fs: FileSystem, pin: string): set<string>
    reads fs
  {
    if ExportsPin(fs, pin) then fs.dirs + {PinDir(pin)} else fs.dirs
  }

  /**
   * The files after the export step of a pin-set: the new `direction` and
   * `value` files when it created the pin's directory.
   */
  function SetFiles(fs: FileSystem, pin: string): map<string, string>
    reads fs
  {
    if ExportsPin(fs, pin) then fs.files[DirectionPath(pin) := fs.kernel.direction][ValuePath(pin) := fs.kernel.value]
    else fs.files
  }

  /**
   * The handles a pin-set that fails has opened: the `export` handle, when
   * it got as far as opening it, left open when the kernel refused the pin.
   */
  function FailedHandles(fs: FileSystem, pin: string): seq<Handle>
    reads fs
  {
    if PinDir(pin) in fs.dirs || !fs.State().CanOpen(ExportPath()) then []
    else [Handle(ExportPath(), WriteMode, !fs.Exportable(pin))]
  }

  /**
   * `export` is written at most once, first, and only for a pin whose
   * directory was absent; the last write is the digit, which reads back as
   * the requested level.
   */
  lemma PlannedExport(present: bool, pin: string, l: Level)
    ensures forall i :: 0 <= i < |Planned(present, pin, l)| && Planned(present, pin, l)[i].path == ExportPath() ==>
      i == 0 && !present && Planned(present, pin, l)[i].data == pin
    ensures WriteRecord(ExportPath(), pin) in Planned(present, pin, l) <==> !present
    ensures Planned(present, pin, l)[|Planned(present, pin, l)| - 1] == WriteRecord(ValuePath(pin), LevelDigit(l))
    ensures ValueLevel(Planned(present, pin, l)[|Planned(present, pin, l)| - 1].data) == l
  {
    var w := Planned(present, pin, l);
    var last := WriteRecord(ValuePath(pin), LevelDigit(l));
    assert last.path != ExportPath() by { PathsDistinct(pin, pin); }
    if present {
      assert w == [last];
    } else {
      assert w == [WriteRecord(ExportPath(), pin), last];
    }
    assert ValueLevel(last.data) == l by { ValueLevelOfDigit(l); }
  }

  /**
   * One read of `getPinData`: open the file for reading, read it whole and
   * close the handle; a failed open raises and leaves the handle table as it was.
   */
  method ReadClosed(fs: FileSystem, path: string) returns (r: Result<string, Failure>)
    requires fs.Valid()
    modifies fs`handles
    ensures fs.Valid()
    ensures fs.State().CanOpen(path) ==>
      r == Ok(fs.files[path]) && fs.handles == old(fs.handles) + [Handle(path, ReadMode, false)]
    ensures !fs.State().CanOpen(path) ==>
      r == Err(fs.State().OpenFailure(path)) && fs.handles == old(fs.handles)
  {
    var h := fs.Open(path, ReadMode);
    if h.Err? {
      return Err(h.error);
    }
    var data := fs.Read(h.value);
    fs.Close(h.value);
    r := Ok(data);
  }

  /** `getPinData`: re-checks the directory and reads `direction` and `value` back. */
  method GetPinData(fs: FileSystem, pin: string) returns (r: Result<PinStatus, Failure>)
    requires fs.Valid()
    modifies fs`handles
    ensures fs.Valid()
    ensures r == ReadBack(fs.State(), pin)
    ensures fs.handles == old(fs.handles) + ReadHandles(fs.State(), pin)
  {
    var initialized := fs.IsDir(PinDir(pin));
    if !initialized {
      return Ok(PinStatus(pin, Uninitialized));
    }
    var direction := ReadClosed(fs, DirectionPath(pin));
    if direction.Err? {
      return Err(direction.error);
    }
    ghost var afterDirection := fs.handles;
    var value := ReadClosed(fs, ValuePath(pin));
    if value.Err? {
      return Err(value.error);
    }
    assert fs.handles == afterDirection + [Handle(ValuePath(pin), ReadMode, false)];
    r := Ok(PinStatus(pin, Initialized(Trim(direction.value), ValueLevel(value.value))));
  }

  /**
   * The export step of a pin-set: when the pin's directory is absent, open
   * `export` for writing, write the pin to it and close it. A refused write
   * raises before the close, so that handle stays open.
   */
  method ExportIfAbsent(fs: FileSystem, pin: string) returns (r: Result<(), Failure>)
    requires fs.Valid()
    modifies fs`dirs, fs`files, fs`writes, fs`handles
    ensures fs.Valid()
    ensures PinDir(pin) in old(fs.dirs) || !old(fs.State()).CanOpen(ExportPath()) ==>
      fs.dirs == old(fs.dirs) && fs.files == old(fs.files) && fs.writes == old(fs.writes) && fs.handles == old(fs.handles) &&
      r == if PinDir(pin) in old(fs.dirs) then Ok(()) else Err(old(fs.State()).OpenFailure(ExportPath()))
    ensures PinDir(pin) !in old(fs.dirs) && old(fs.State()).CanOpen(ExportPath()) ==>
      fs.writes == old(fs.writes) + [WriteRecord(ExportPath(), pin)] &&
      fs.handles == old(fs.handles) + [Handle(ExportPath(), WriteMode, !old(fs.Exportable(pin)))]
    ensures PinDir(pin) !in old(fs.dirs) && old(fs.State()).CanOpen(ExportPath()) && old(fs.Exportable(pin)) ==>
      r == Ok(()) && fs.dirs == old(fs.dirs) + {PinDir(pin)} &&
      fs.files == old(fs.files)[DirectionPath(pin) := fs.kernel.direction][ValuePath(pin) := fs.kernel.value]
    ensures PinDir(pin) !in old(fs.dirs) && old(fs.State()).CanOpen(ExportPath()) && !old(fs.Exportable(pin)) ==>
      r == Err(FileException(ExportPath())) && fs.dirs == old(fs.dirs) && fs.files == old(fs.files)
    // A failed export step already decides the pin-set; a successful one leaves it to the value file.
    ensures r.Err? ==>
      !old(Drivable(fs, pin)) && r.error == old(DriveFailure(fs, pin)) && fs.writes == old(fs.writes) + old(FailedWrites(fs, pin))
    ensures r.Ok? ==> PinDir(pin) in fs.dirs && (old(Drivable(fs, pin)) <==> fs.State().CanOpen(ValuePath(pin)))
    ensures fs.dirs == old(SetDirs(fs, pin)) && fs.files == old(SetFiles(fs, pin))
    ensures r.Err? ==> fs.handles == old(fs.handles) + old(FailedHandles(fs, pin))
  {
    var present := fs.IsDir(PinDir(pin));
    if present {
      return Ok(());
    }
    var e := fs.Open(ExportPath(), WriteMode);
    if e.Err? {
      return Err(e.error);
    }
    var written := fs.Write(e.value, pin);
    if written.Err? {
      return Err(written.error);
    }
    fs.Close(e.value);
    r := Ok(());
  }

  /** The value step of a pin-set: open `value` for writing and write the digit; no close. */
  method WriteValue(fs: FileSystem, pin: string, l: Level) returns (r: Result<(), Failure>)
    requires fs.Valid()
    modifies fs`dirs, fs`files, fs`writes, fs`handles
    ensures fs.Valid() && fs.dirs == old(fs.dirs)
    ensures old(fs.State()).CanOpen(ValuePath(pin)) ==>
      r == Ok(()) && fs.files == old(fs.files)[ValuePath(pin) := LevelDigit(l)] &&
      fs.writes == old(fs.writes) + [WriteRecord(ValuePath(pin), LevelDigit(l))] &&
      fs.handles == old(fs.handles) + [Handle(ValuePath(pin), WriteMode, true)]
    ensures !old(fs.State()).CanOpen(ValuePath(pin)) ==>
      r == Err(old(fs.State()).OpenFailure(ValuePath(pin))) &&
      fs.files == old(fs.files) && fs.writes == old(fs.writes) && fs.handles == old(fs.handles)
  {
    PathsDistinct(pin, pin);
    var v := fs.Open(ValuePath(pin), WriteMode);
    if v.Err? {
      return Err(v.error);
    }
    r := fs.Write(v.value, LevelDigit(l));
  }

  /**
   * The state-changing part of a pin-set: the export step, then the value
   * step, the first failure ending the request.
   */
  method DrivePin(fs: FileSystem, pin: string, l: Level) returns (r: Result<(), Failure>)
    requires fs.Valid()
    modifies fs`dirs, fs`files, fs`writes, fs`handles
    ensures fs.Valid()
    ensures r.Ok? <==> old(Drivable(fs, pin))
    ensures r.Ok? ==>
      fs.writes == old(fs.writes) + Planned(PinDir(pin) in old(fs.dirs), pin, l) &&
      PinDir(pin) in fs.dirs && ValuePath(pin) in fs.files && fs.files[ValuePath(pin)] == LevelDigit(l) &&
      fs.handles == old(fs.handles) +
        (if PinDir(pin) in old(fs.dirs) then [] else [Handle(ExportPath(), WriteMode, false)]) +
        [Handle(ValuePath(pin), WriteMode, true)]
    ensures r.Err? ==>
      r.error == old(DriveFailure(fs, pin)) && fs.writes == old(fs.writes) + old(FailedWrites(fs, pin))
    // Only the pin's directory, when the kernel creates it, and the pin's `value` file change.
    ensures fs.dirs == old(SetDirs(fs, pin))
    ensures r.Ok? ==> fs.files == old(SetFiles(fs, pin))[ValuePath(pin) := LevelDigit(l)]
    ensures r.Err? ==> fs.files == old(SetFiles(fs, pin)) && fs.handles == old(fs.handles) + old(FailedHandles(fs, pin))
  {
    ghost var present := PinDir(pin) in fs.dirs;
    assert Planned(present, pin, l) ==
      (if present then [] else [WriteRecord(ExportPath(), pin)]) + [WriteRecord(ValuePath(pin), LevelDigit(l))];
    var exported := ExportIfAbsent(fs, pin);
    if exported.Err? {
      return Err(exported.error);
    }
    assert !present ==> ValuePath(pin) in fs.files;
    r := WriteValue(fs, pin, l);
  }

  /**
   * `gpioPinHandler`: for a pin-set, exports the pin if its directory is
   * absent and writes the action's digit to `value`; then reads the status
   * back and answers with it. The handle opened on `value` for the write is
   * never closed.
   */
  method GpioPinHandler(fs: FileSystem, pin: string, action: Option<Level>) returns (r: Result<Response, Failure>)
    requires fs.Valid()
    modifies fs`dirs, fs`files, fs`writes, fs`handles
    ensures fs.Valid()
    // A query writes nothing and reports the tree as it was.
    ensures action.None? ==>
      fs.dirs == old(fs.dirs) && fs.files == old(fs.files) && fs.writes == old(fs.writes) &&
      r == PinResult(ReadBack(old(fs.State()), pin)) &&
      fs.handles == old(fs.handles) + ReadHandles(old(fs.State()), pin)
    // A set whose writes get through issues all of them and reports the tree afterwards.
    ensures action.Some? && old(Drivable(fs, pin)) ==>
      fs.writes == old(fs.writes) + Planned(PinDir(pin) in old(fs.dirs), pin, action.value) &&
      PinDir(pin) in fs.dirs && ValuePath(pin) in fs.files && fs.files[ValuePath(pin)] == LevelDigit(action.value) &&
      r == PinResult(ReadBack(fs.State(), pin)) &&
      fs.handles == old(fs.handles) +
        (if PinDir(pin) in old(fs.dirs) then [] else [Handle(ExportPath(), WriteMode, false)]) +
        [Handle(ValuePath(pin), WriteMode, true)] + ReadHandles(fs.State(), pin)
    // Any other set raises the failure of its first failing step, after the writes before it.
    ensures action.Some? && !old(Drivable(fs, pin)) ==>
      r == Err(old(DriveFailure(fs, pin))) && fs.writes == old(fs.writes) + old(FailedWrites(fs, pin))
    // A set changes no directory but the pin's own and no file but the pin's new ones and its `value`.
    ensures action.Some? ==> fs.dirs == old(SetDirs(fs, pin))
    ensures action.Some? && old(Drivable(fs, pin)) ==>
      fs.files == old(SetFiles(fs, pin))[ValuePath(pin) := LevelDigit(action.value)]
    ensures action.Some? && !old(Drivable(fs, pin)) ==>
      fs.files == old(SetFiles(fs, pin)) && fs.handles == old(fs.handles) + old(FailedHandles(fs, pin))
  {
    if action.Some? {
      var driven := DrivePin(fs, pin, action.value);
      if driven.Err? {
        return Err(driven.error);
      }
    }
    var data := GetPinData(fs, pin);
    r := PinResult(data);
  }
}
