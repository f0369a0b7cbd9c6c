/** The consent file: a save replaces it as a whole, or leaves it and every other file as they were. */
module ConsentFiles {
  import opened Wrappers

  const MAX_TEMP_RETRIES := 64

  /** What a path names; `trusted` is a regular file of this user's that nobody else may write. */
  datatype Node = File(text: string, trusted: bool) | Symlink | Folder

  datatype Path = Path(parent: Option<string>, name: string)

  type Files = map<Path, Node>

  datatype ParentKind = RealFolder | LinkedFolder | NoFolder

  datatype ConsentError = IoError | MalformedJson | SaveFailed | UnsafeStorage

  /** Why a node may not be the consent file. */
  function TargetFault(files: Files, path: Path): Option<ConsentError> {
    if path in files && !(files[path].File? && files[path].trusted) then Some(UnsafeStorage) else None
  }

  /** The text at `path`, if it is a consent file that may be read. */
  function TextAt(files: Files, path: Path): Option<string> {
    if path in files && files[path].File? && files[path].trusted then Some(files[path].text) else None
  }

  /** `after` is `before` but for at most one fresh file beside the target. */
  ghost predicate OnlyOwnTempLeft(before: Files, after: Files, target: Path) {
    || after == before
    || exists temp ::
         && temp !in before && temp != target && temp.parent == target.parent
         && temp in after && after == before[temp := after[temp]]
  }

  function TempName(target: string, tail: string): string {
    "." + target + ".tmp." + tail
  }

  /** A file system with one writer; any of its calls may fail. */
  class FileSystem {
    var files: Files
    var folders: map<string, ParentKind>

    constructor (files: Files, folders: map<string, ParentKind>)
      ensures this.files == files && this.folders == folders
    {
      this.files := files;
      this.folders := folders;
    }

    /** `File::create_new`: fails if anything at all is there. */
    method CreateNew(path: Path) returns (r: Result<Unit, bool>)
      modifies this`files
      ensures r.Ok? ==> path !in old(files) && files == old(files)[path := File("", true)]
      ensures r.Err? ==> files == old(files) && (r.error ==> path in files)
    {
      if path in files {
        return Err(true);
      }
      if * {
        return Err(false);
      }
      files := files[path := File("", true)];
      return Ok(Unit);
    }

    /** Write, flush and sync; a failure leaves any part of the text. */
    method Write(path: Path, text: string) returns (ok: bool)
      requires path in files
      modifies this`files
      ensures path in files && files == old(files)[path := files[path]]
      ensures ok ==> files[path] == File(text, true)
    {
      if * {
        var part: string := *;
        files := files[path := File(part, true)];
        return false;
      }
      files := files[path := File(text, true)];
      return true;
    }

    method Remove(path: Path)
      modifies this`files
      ensures files == old(files) || files == old(files) - {path}
    {
      if * {
        files := files - {path};
      }
    }

    /** The atomic replacement. */
    method Rename(from: Path, to: Path) returns (ok: bool)
      requires from in files
      modifies this`files
      ensures !ok ==> files == old(files)
      ensures ok ==> files == (old(files) - {from})[to := old(files)[from]]
    {
      if * {
        return false;
      }
      files := (files - {from})[to := files[from]];
      return true;
    }

    /** Refuse a linked or odd parent, and make a missing one; files are not touched. */
    method PrepareParent(path: Path) returns (r: Result<Unit, ConsentError>)
      modifies this`folders
      ensures r.Err? ==> r.error == SaveFailed
      ensures path.parent.None? ==> r.Err?
      ensures r.Err? ==> folders == old(folders)
      ensures folders == old(folders) || (path.parent.Some? && folders == old(folders)[path.parent.value := RealFolder])
    {
      if path.parent.None? {
        return Err(SaveFailed);
      }
      var parent := path.parent.value;
      var readable: bool := *;
      if readable && parent in folders {
        if folders[parent].LinkedFolder? {
          return Err(SaveFailed);
        }
        if !folders[parent].RealFolder? {
          return Err(SaveFailed);
        }
      }
      if parent !in folders {
        if * {
          return Err(SaveFailed);
        }
        folders := folders[parent := RealFolder];
      }
      return Ok(Unit);
    }

    /** A file of one's own beside the target, under a name nothing has yet. */
    method OpenTemp(target: Path) returns (r: Result<Path, ConsentError>)
      modifies this`files
      ensures r.Ok? ==>
                && r.value !in old(files) && r.value != target && r.value.parent == target.parent
                && files == old(files)[r.value := File("", true)]
      ensures r.Err? ==> r.error == SaveFailed && files == old(files)
    {
      for attempt := 0 to MAX_TEMP_RETRIES
        invariant files == old(files)
      {
        var tail: string := *; // process id, attempt and nonce
        var candidate := Path(target.parent, TempName(target.name, tail));
        assert |candidate.name| > |target.name|;
        var made := CreateNew(candidate);
        if made.Ok? {
          return Ok(candidate);
        }
        if !made.error {
          return Err(SaveFailed);
        }
      }
      return Err(SaveFailed);
    }

    /** `ConsentStore::save_internal` */
    method Save(path: Path, json: string) returns (r: Result<Unit, ConsentError>)
      modifies this
      ensures r.Ok? ==> path in old(files) ==> old(files)[path].File? && old(files)[path].trusted
      ensures r.Ok? ==> path.parent.Some? && TargetFault(old(files), path).None? && files == old(files)[path := File(json, true)]
      ensures r.Err? ==> OnlyOwnTempLeft(old(files), files, path)
    {
      var prepared := PrepareParent(path);
      if prepared.Err? {
        return Err(prepared.error);
      }
      var readable: bool := *;
      if !readable {
        return Err(IoError);
      }
      if TargetFault(files, path).Some? {
        return Err(TargetFault(files, path).value);
      }
      if * {
        return Err(SaveFailed); // serializing
      }
      var made := OpenTemp(path);
      if made.Err? {
        return Err(made.error);
      }
      var temp := made.value;
      var written := Write(temp, json);
      if !written {
        Remove(temp);
        assert files == old(files) || files == old(files)[temp := files[temp]];
        return Err(SaveFailed);
      }
      var renamed := Rename(temp, path);
      if !renamed {
        Remove(temp);
        assert files == old(files) || files == old(files)[temp := files[temp]];
        return Err(SaveFailed);
      }
      assert files == old(files)[path := File(json, true)];
      return Ok(Unit);
    }
  }

  /** No other file changes either way, and after a failed save the target is what it was. */
  lemma FailedSaveKeepsFiles(before: Files, after: Files, target: Path)
    requires OnlyOwnTempLeft(before, after, target)
    ensures forall p | p in before :: p in after && after[p] == before[p]
    ensures TextAt(after, target) == TextAt(before, target) && (target in after <==> target in before)
    ensures |after| <= |before| + 1
  {
    if after != before {
      var temp :| temp !in before && temp != target && temp.parent == target.parent
                  && temp in after && after == before[temp := after[temp]];
      assert after.Keys == before.Keys + {temp};
      assert |after.Keys| == |after| && |before.Keys| == |before|;
    }
  }
}
