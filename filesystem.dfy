/** The filesystem the note store reads and overwrites (`tokio::fs`), as an
    abstract map from absolute path to file content plus the set of existing
    directories. */
module Fs {
  import opened Results
  import opened Paths
  import Io

  type Files = map<seq<Component>, string>
  type Dirs = set<seq<Component>>

  const NotFoundError: Io.Error := Io.Os(Io.NotFound, "No such file or directory (os error 2)")
  const IsADirectoryError: Io.Error := Io.Os(Io.IsADirectory, "Is a directory (os error 21)")

  function Parent(p: seq<Component>): seq<Component>
    requires |p| >= 1
  {
    p[..|p| - 1]
  }

  /** `read_to_string`: the whole file, or the error the OS reports. */
  function ReadOutcome(files: Files, dirs: Dirs, p: seq<Component>): Result<string, Io.Error> {
    if p in files then Ok(files[p])
    else if p in dirs then Err(IsADirectoryError)
    else Err(NotFoundError)
  }

  /** Why `write` fails, if it does: the target is a directory, or its parent
      directory does not exist (missing directories are not created). */
  function WriteFailure(files: Files, dirs: Dirs, p: seq<Component>): Option<Io.Error> {
    if p in dirs then Some(IsADirectoryError)
    else if |p| >= 2 && Parent(p) in dirs then None
    else Some(NotFoundError)
  }

  /** Files and directories are distinct, and every file sits in an
      existing directory. */
  predicate Consistent(files: Files, dirs: Dirs) {
    forall p :: p in files ==> p !in dirs && |p| >= 2 && Parent(p) in dirs
  }

  class FileSystem {
    var files: Files
    var dirs: Dirs

    ghost predicate Valid()
      reads this
    {
      Consistent(files, dirs)
    }

    constructor (dirs: Dirs)
      ensures Valid()
      ensures this.files == map[] && this.dirs == dirs
    {
      this.files := map[];
      this.dirs := dirs;
    }

    method ReadToString(p: seq<Component>) returns (r: Result<string, Io.Error>)
      ensures r == ReadOutcome(files, dirs, p)
      ensures r.Ok? <==> p in files
      ensures r.Ok? ==> r.value == files[p]
    {
      if p in files {
        r := Ok(files[p]);
      } else if p in dirs {
        r := Err(IsADirectoryError);
      } else {
        r := Err(NotFoundError);
      }
    }

    /** `write`: creates the file or truncates it, then stores `content`. */
    method Write(p: seq<Component>, content: string) returns (r: Result<(), Io.Error>)
      modifies this
      ensures dirs == old(dirs)
      ensures r.Ok? <==> WriteFailure(old(files), dirs, p) == None
      ensures r.Ok? ==> files == old(files)[p := content]
      ensures r.Err? ==> r.error == WriteFailure(old(files), dirs, p).value && files == old(files)
      ensures old(Valid()) ==> Valid()
    {
      var failure := WriteFailure(files, dirs, p);
      if failure.Some? {
        r := Err(failure.value);
      } else {
        files := files[p := content];
        r := Ok(());
      }
    }
  }

  /** What a successful write stored is what a read then returns. */
  lemma ReadAfterWrite(files: Files, dirs: Dirs, p: seq<Component>, content: string)
    requires WriteFailure(files, dirs, p) == None
    ensures ReadOutcome(files[p := content], dirs, p) == Ok(content)
  {
  }

  /** A write to one path leaves every other path as it was. */
  lemma WriteLeavesOthers(files: Files, dirs: Dirs, p: seq<Component>, q: seq<Component>, content: string)
    requires p != q
    ensures ReadOutcome(files[p := content], dirs, q) == ReadOutcome(files, dirs, q)
  {
  }

  /** On a consistent filesystem, overwriting an existing file always
      succeeds and keeps the filesystem consistent. */
  lemma OverwriteSucceeds(files: Files, dirs: Dirs, p: seq<Component>, content: string)
    requires Consistent(files, dirs)
    requires p in files
    ensures WriteFailure(files, dirs, p) == None
    ensures Consistent(files[p := content], dirs)
  {
    assert p !in dirs && |p| >= 2 && Parent(p) in dirs;
  }
}
