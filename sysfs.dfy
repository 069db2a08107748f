/**
 * The part of the sysfs GPIO tree the server touches, as a file system
 * with explicit state: the directories that exist, the contents of each
 * file, every write issued so far, and the table of file handles opened.
 *
 * What the kernel does when `export` is written is not the server's
 * behaviour; it is fixed by the `Kernel` value the file system is given.
 */
module Sysfs {
  import opened Wrappers
  import opened Errors

  /** The control file a pin number is written to in order to export it. */
  function ExportPath(): string {
    "/sys/class/gpio/export"
  }

  /** The directory that exists once a pin is exported. */
  function PinDir(pin: string): string {
    "/sys/class/gpio/gpio" + pin
  }

  function ValuePath(pin: string): string {
    PinDir(pin) + "/value"
  }

  function DirectionPath(pin: string): string {
    PinDir(pin) + "/direction"
  }

  /** The export control file is none of a pin's files, and pins name distinct directories. */
  lemma PathsDistinct(pin: string, other: string)
    ensures ExportPath() != ValuePath(pin) && ExportPath() != DirectionPath(pin)
    ensures ValuePath(pin) != DirectionPath(other)
    ensures PinDir(pin) == PinDir(other) ==> pin == other
  {
    assert ExportPath()[16] != ValuePath(pin)[16];
    assert ExportPath()[16] != DirectionPath(pin)[16];
    var v, d := ValuePath(pin), DirectionPath(other);
    assert v[|v| - 1] == 'e' && d[|d| - 1] == 'n';
    if PinDir(pin) == PinDir(other) {
      assert pin == PinDir(pin)[20..] && other == PinDir(other)[20..];
    }
  }

  datatype Mode = ReadMode | WriteMode

  /** An entry of the handle table: the file, how it was opened, and whether it is still open. */
  datatype Handle = Handle(path: string, mode: Mode, open: bool)

  /** One write issued on a handle: the file and the text written. */
  datatype WriteRecord = WriteRecord(path: string, data: string)

  /**
   * The kernel's reaction to a write on `export`: writing a pin in
   * `exportable` whose directory does not exist yet creates that directory
   * with a `direction` and a `value` file holding the given contents; any
   * other write on `export` is refused.
   */
  datatype Kernel = Kernel(exportable: set<string>, direction: string, value: string)

  /** What an observer of the tree sees: directories, file contents, and the opens that fail. */
  datatype FsState = FsState(dirs: set<string>, files: map<string, string>, faults: map<string, Failure>) {

    /** Opening succeeds for a file that exists and has no failure attached. */
    predicate CanOpen(path: string) {
      path !in faults && path in files
    }

    /** The failure an open raises when it does not succeed. */
    function OpenFailure(path: string): Failure {
      if path in faults then faults[path] else FileException(path)
    }
  }

  class FileSystem {
    var dirs: set<string>
    var files: map<string, string>
    /** Every write issued, in order. */
    var writes: seq<WriteRecord>
    /** Every handle opened, in order; a handle is its index here. */
    var handles: seq<Handle>
    const kernel: Kernel
    /** The failure raised by opening each of these paths. */
    const faults: map<string, Failure>

    function State(): FsState
      reads this
    {
      FsState(dirs, files, faults)
    }

    /** Every handle names a file that exists (files are never removed). */
    ghost predicate Valid()
      reads this
    {
      forall i :: 0 <= i < |handles| ==> handles[i].path in files
    }

    constructor (dirs: set<string>, files: map<string, string>, kernel: Kernel, faults: map<string, Failure>)
      ensures Valid()
      ensures this.dirs == dirs && this.files == files && this.kernel == kernel && this.faults == faults
      ensures writes == [] && handles == []
    {
      this.dirs, this.files, this.kernel, this.faults := dirs, files, kernel, faults;
      writes, handles := [], [];
    }

    /** `File\isDir`: whether the directory exists. */
    method IsDir(path: string) returns (b: bool)
      ensures b <==> path in dirs
    {
      b := path in dirs;
    }

    /** `File\open`: a new open handle, or the failure of the open. */
    method Open(path: string, mode: Mode) returns (r: Result<nat, Failure>)
      requires Valid()
      modifies this`handles
      ensures Valid()
      ensures State().CanOpen(path) ==> r == Ok(|old(handles)|) && handles == old(handles) + [Handle(path, mode, true)]
      ensures !State().CanOpen(path) ==> r == Err(State().OpenFailure(path)) && handles == old(handles)
    {
      if path in faults {
        r := Err(faults[path]);
      } else if path !in files {
        r := Err(FileException(path));
      } else {
        r := Ok(|handles|);
        handles := handles + [Handle(path, mode, true)];
      }
    }

    /** Whether a write of `pin` on `export` makes the kernel create the pin's directory. */
    predicate Exportable(pin: string)
      reads this
    {
      pin in kernel.exportable && PinDir(pin) !in dirs
    }

    /**
     * A write on an open handle. On `export` the kernel reacts as `kernel`
     * says; any other file afterwards reads back what was written.
     */
    method Write(h: nat, data: string) returns (r: Result<(), Failure>)
      requires Valid() && h < |handles| && handles[h].open && handles[h].mode == WriteMode
      modifies this`dirs, this`files, this`writes
      ensures Valid()
      ensures writes == old(writes) + [WriteRecord(handles[h].path, data)]
      ensures handles[h].path == ExportPath() && old(Exportable(data)) ==>
        r == Ok(()) && dirs == old(dirs) + {PinDir(data)} &&
        files == old(files)[DirectionPath(data) := kernel.direction][ValuePath(data) := kernel.value]
      ensures handles[h].path == ExportPath() && !old(Exportable(data)) ==>
        r == Err(FileException(ExportPath())) && dirs == old(dirs) && files == old(files)
      ensures handles[h].path != ExportPath() ==>
        r == Ok(()) && dirs == old(dirs) && files == old(files)[handles[h].path := data]
    {
      writes := writes + [WriteRecord(handles[h].path, data)];
      if handles[h].path == ExportPath() {
        if Exportable(data) {
          dirs := dirs + {PinDir(data)};
          files := files[DirectionPath(data) := kernel.direction][ValuePath(data) := kernel.value];
          r := Ok(());
        } else {
          r := Err(FileException(ExportPath()));
        }
      } else {
        files := files[handles[h].path := data];
        r := Ok(());
      }
    }

    /** A read on an open handle gives the whole contents of its file. */
    method Read(h: nat) returns (data: string)
      requires Valid() && h < |handles| && handles[h].open && handles[h].mode == ReadMode
      ensures data == files[handles[h].path]
    {
      data := files[handles[h].path];
    }

    /** Closing marks the handle closed and changes nothing else. */
    method Close(h: nat)
      requires Valid() && h < |handles| && handles[h].open
      modifies this`handles
      ensures Valid()
      ensures handles == old(handles)[h := old(handles)[h].(open := false)]
    {
      handles := handles[h := handles[h].(open := false)];
    }
  }
}
