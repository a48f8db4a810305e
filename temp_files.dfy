/** The part of the file system the front ends touch: the temporary copies
    of uploads, created under a fresh random name and removed again. */
module TempFiles {
  import opened Paths

  datatype Event = Created(path: string) | Removed(path: string)

  class FileSystem {
    /** The paths that exist. */
    var files: set<string>
    /** What was created and removed, in order. */
    var log: seq<Event>

    constructor(files: set<string>)
      ensures this.files == files && log == []
    {
      this.files := files;
      log := [];
    }

    /** `save_temp_file`: `tempfile.NamedTemporaryFile(delete=False,
        suffix=Path(name).suffix)` in `dir`, whose random `base` the caller
        supplies; the name it picks is one that does not exist yet. */
    method SaveTemp(dir: string, base: string, name: string) returns (path: string)
      requires IsTempBase(base) && TempPath(dir, base, name) !in files
      modifies this
      ensures path == TempPath(dir, base, name) && Suffix(path) == Suffix(name)
      ensures files == old(files) + {path}
      ensures log == old(log) + [Created(path)]
    {
      path := dir + "/" + base + Suffix(name);
      TempPathKeepsSuffix(dir, base, name);
      files := files + {path};
      log := log + [Created(path)];
    }

    /** `if path.exists(): path.unlink()`. */
    method RemoveIfExists(path: string)
      modifies this
      ensures files == old(files) - {path}
      ensures log == old(log) + (if path in old(files) then [Removed(path)] else [])
    {
      if path in files {
        files := files - {path};
        log := log + [Removed(path)];
      }
    }
  }

  /** Proof step for the handlers: adding a path that was absent and then
      removing it gives back the same set, and the two log appends are one. */
  lemma CreateThenRemove(files: set<string>, log: seq<Event>, p: string)
    requires p !in files
    ensures files + {p} - {p} == files
    ensures log + [Created(p)] + [Removed(p)] == log + [Created(p), Removed(p)]
  {
  }
}
