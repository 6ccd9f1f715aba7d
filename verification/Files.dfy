// The files a save or a sync touches. One write replaces one file whole
// (indexer/src/fsutil.rs); whether it works is an input.
module Files {
  import opened Base
  import opened Config

  /** What reading a path gives. */
  datatype Held = Absent | Unreadable | Holds(text: string)

  type Stored = h: Held | !h.Absent? witness Unreadable

  /** How one write or removal ends. A replacement can fail after the new file
      is in place: flushing the directory is its last step. */
  datatype Fault = Works | FailsBefore | FailsAfter

  /** `config.toml`, as what it loads to. */
  datatype ConfigFile = NoFile | NotAConfig(text: string) | Loads(config: Config)

  /** `config.toml` stands apart from the files it names. */
  datatype Disk = Disk(files: map<string, Stored>, config: ConfigFile)

  function At(files: map<string, Stored>, path: string): Held {
    if path in files then files[path] else Absent
  }

  function Replaced(files: map<string, Stored>, path: string, text: string, fault: Fault): map<string, Stored> {
    if fault.FailsBefore? then files else files[path := Holds(text)]
  }

  function Removed(files: map<string, Stored>, path: string, fault: Fault): map<string, Stored> {
    if fault.Works? then files - {path} else files
  }

  /** `write_or_remove`. */
  function WrittenOrRemoved(files: map<string, Stored>, path: string, text: Option<string>, fault: Fault)
    : map<string, Stored>
  {
    match text
    case Some(t) => Replaced(files, path, t, fault)
    case None => Removed(files, path, fault)
  }

  /** What a path holds that `text`, or nothing, was put at. */
  function HeldOf(text: Option<string>): Held {
    match text
    case Some(t) => Holds(t)
    case None => Absent
  }

  class Host {
    var files: map<string, Stored>
    var config: ConfigFile

    constructor (files: map<string, Stored>, config: ConfigFile)
      ensures this.files == files && this.config == config
    {
      this.files := files;
      this.config := config;
    }

    ghost function Now(): Disk
      reads this
    {
      Disk(files, config)
    }

    method ReadFile(path: string) returns (held: Held)
      ensures held == At(files, path)
    {
      held := At(files, path);
    }

    method WriteAtomic(path: string, text: string, fault: Fault) returns (ok: bool)
      modifies this`files
      ensures files == Replaced(old(files), path, text, fault) && ok == fault.Works?
    {
      if fault != FailsBefore { files := files[path := Holds(text)]; }
      ok := fault.Works?;
    }

    method RemoveIfPresent(path: string, fault: Fault) returns (ok: bool)
      modifies this`files
      ensures files == Removed(old(files), path, fault) && ok == fault.Works?
    {
      if fault.Works? { files := files - {path}; }
      ok := fault.Works?;
    }

    method WriteOrRemove(path: string, text: Option<string>, fault: Fault) returns (ok: bool)
      modifies this`files
      ensures files == WrittenOrRemoved(old(files), path, text, fault) && ok == fault.Works?
    {
      match text {
        case Some(t) => ok := WriteAtomic(path, t, fault);
        case None => ok := RemoveIfPresent(path, fault);
      }
    }
  }
}
