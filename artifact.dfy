/** The artifact completion marker (yax/state/type/artifact.py). An artifact
    owns a data directory and is complete exactly when a `.complete` flag
    file exists in it: a two-state machine, incomplete then complete. */
module ArtifactFlag {
  import opened Base
  import opened Strings

  /** The name of the flag file inside an artifact's directory. */
  const FlagName: string := ".complete"

  /** The files that exist, as far as completion flags are concerned. */
  class Disk {
    var files: set<string>

    constructor (files: set<string>)
      ensures this.files == files
    {
      this.files := files;
    }
  }

  class Artifact {
    const dataDir: string
    /** How many times `setup()` has run on this artifact. */
    var setupRuns: nat

    /** `_get_complete_flag_path`: `data_dir` joined with `.complete`. */
    function FlagPath(): string {
      PathJoin(dataDir, FlagName)
    }

    /** `is_complete`: the flag file exists. */
    predicate IsComplete(disk: Disk)
      reads disk
    {
      FlagPath() in disk.files
    }

    /** `__init__`: stores the directory and runs `setup()` exactly when the
        artifact is not complete yet. */
    constructor (dir: string, disk: Disk)
      ensures dataDir == dir
      ensures setupRuns == if IsComplete(disk) then 0 else 1
    {
      dataDir := dir;
      setupRuns := 0;
      new;
      if !IsComplete(disk) {
        Setup();
      }
    }

    /** `setup`: a hook that does nothing in the base class. */
    method Setup()
      modifies this
      ensures setupRuns == old(setupRuns) + 1
    {
      setupRuns := setupRuns + 1;
    }

    /** `complete`: touches the flag file and nothing else. */
    method Complete(disk: Disk)
      modifies disk
      ensures disk.files == Touch(old(disk.files), FlagPath())
      ensures IsComplete(disk)
    {
      disk.files := Touch(disk.files, FlagPath());
    }
  }

  /** Touching a path: it exists afterwards, and every other path exists
      exactly when it did before. */
  function Touch(files: set<string>, p: string): (r: set<string>)
    ensures p in r
    ensures forall f :: f != p ==> (f in r <==> f in files)
  {
    files + {p}
  }

  /** Touching twice is touching once: `complete()` on a complete artifact
      changes nothing further. */
  lemma TouchIdempotent(files: set<string>, p: string)
    ensures Touch(Touch(files, p), p) == Touch(files, p)
    ensures p in files ==> Touch(files, p) == files
  {
  }

  /** The flag lies directly in the artifact's directory. */
  lemma FlagPathInDir(dir: string)
    ensures PathJoin(dir, FlagName) == dir + FlagName || PathJoin(dir, FlagName) == dir + "/" + FlagName
    ensures dir != [] && dir[|dir| - 1] != '/' ==> PathJoin(dir, FlagName) == dir + "/.complete"
  {
  }

  /** The flag path for a directory given with a trailing slash. */
  lemma FlagPathTestVector()
    ensures PathJoin("/test/dir/", FlagName) == "/test/dir/.complete"
  {
  }

  /** The life of one artifact: a fresh artifact in an empty directory runs
      `setup`, is incomplete, becomes complete after `complete()`, and stays
      complete and unchanged after a second `complete()`. */
  method Lifecycle(dir: string) returns (a: Artifact, disk: Disk)
    ensures a.dataDir == dir && a.setupRuns == 1
    ensures disk.files == {a.FlagPath()}
    ensures a.IsComplete(disk)
  {
    disk := new Disk({});
    a := new Artifact(dir, disk);
    assert !a.IsComplete(disk);
    a.Complete(disk);
    var once := disk.files;
    a.Complete(disk);
    TouchIdempotent(once, a.FlagPath());
  }

  /** A directory that already holds its flag is complete at construction,
      and `setup` is not run. */
  method ReopenComplete(dir: string, others: set<string>) returns (a: Artifact)
    ensures a.dataDir == dir && a.setupRuns == 0
  {
    var disk := new Disk(others + {PathJoin(dir, FlagName)});
    a := new Artifact(dir, disk);
  }

  /** `_get_complete_flag_path` as written: the join is computed and
      discarded, so the method returns None. */
  function FlagPathAsWritten(dir: string): (r: Option<string>) {
    var _ := PathJoin(dir, FlagName);
    None
  }

  /** The flag path as written never equals the joined path that the unit
      test expects. */
  lemma FlagPathAsWrittenDiffers(dir: string)
    ensures FlagPathAsWritten(dir) != Some(PathJoin(dir, FlagName))
  {
  }

  /** `is_complete` as written: the `os` module has no `isfile`, so reading
      the property raises AttributeError whatever is on disk. */
  function IsCompleteAsWritten(dir: string, files: set<string>): (r: Result<bool>) {
    var _ := FlagPathAsWritten(dir);
    Failure(AttributeError("module 'os' has no attribute 'isfile'"))
  }

  /** As written, no artifact can even be constructed: `__init__` reads
      `is_complete` first. */
  lemma IsCompleteAsWrittenAlwaysRaises(dir: string, files: set<string>)
    ensures IsCompleteAsWritten(dir, files).Failure?
    ensures IsCompleteAsWritten(dir, files).error.AttributeError?
  {
  }

  /** `complete` as written at line 24, with the flag path of line 9
      corrected (`flag` is the joined path; uncorrected, line 9 gives `None`
      and `os.utime(None, None)` raises TypeError instead): `os.utime` only
      updates the times of an existing file, so on an incomplete artifact it
      raises FileNotFoundError instead of creating the flag. */
  function CompleteAsWritten(files: set<string>, flag: string): (r: Result<set<string>>) {
    if flag in files then Success(files) else Failure(FileNotFoundError(flag))
  }

  /** As written, `complete()` can never turn an incomplete artifact into a
      complete one, while `Touch` always does. */
  lemma CompleteAsWrittenNeverCompletes(files: set<string>, flag: string)
    requires flag !in files
    ensures CompleteAsWritten(files, flag).Failure?
    ensures flag in Touch(files, flag)
  {
  }
}
