/** `atomicWriteState` of agent/idempotency.go over a directory of named files. */
module StateFiles {
  import opened Base

  /** A file is whole, or holds whatever part of a write had reached it. */
  datatype Blob<D> = Torn | Whole(content: D)

  /** The calls of `atomicWriteState` that can fail, in their order. */
  datatype Call = CreateTemp | Chmod | WriteData | SyncFile | CloseFile | Rename | OpenDirectory | SyncDirectory

  function Position(c: Call): nat {
    match c
    case CreateTemp => 0
    case Chmod => 1
    case WriteData => 2
    case SyncFile => 3
    case CloseFile => 4
    case Rename => 5
    case OpenDirectory => 6
    case SyncDirectory => 7
  }

  ghost function FileOf<D>(files: map<string, Blob<D>>, path: string): Option<Blob<D>> {
    if path in files then Some(files[path]) else None
  }

  ghost predicate SameFile<D>(a: map<string, Blob<D>>, b: map<string, Blob<D>>, path: string) {
    FileOf(a, path) == FileOf(b, path)
  }

  /** The directory as a process leaves it that dies between any two calls of a write, or inside one: first
      the file at `path` is the old one, from some point on it is the complete new one, and at no point has
      another file but the temporary one changed. */
  ghost predicate OldThenNew<D>(before: map<string, Blob<D>>, images: seq<map<string, Blob<D>>>, path: string,
                                temp: string, data: D, n: nat) {
    forall i :: 0 <= i < |images| ==>
      && FileOf(images[i], path) == (if i < n then FileOf(before, path) else Some(Whole(data)))
      && forall other :: other != path && other != temp ==> SameFile(images[i], before, other)
  }

  lemma OneMoreImage<D>(before: map<string, Blob<D>>, images: seq<map<string, Blob<D>>>, image: map<string, Blob<D>>,
                        path: string, temp: string, data: D, n: nat)
    requires OldThenNew(before, images, path, temp, data, n)
    requires FileOf(image, path) == if |images| < n then FileOf(before, path) else Some(Whole(data))
    requires forall other :: other != path && other != temp ==> SameFile(image, before, other)
    ensures OldThenNew(before, images + [image], path, temp, data, n)
  {
  }

  class StateDirectory<D> {
    var files: map<string, Blob<D>>

    constructor ()
      ensures files == map[]
    {
      files := map[];
    }

    /** Replaces the file at `path`. `fault` is the call that fails, if one does; an error is reported
        exactly then, the temporary file is gone, and the file is new exactly if the rename happened.
        `images`: the directory after every call that changed it (history). */
    method AtomicWrite(path: string, temp: string, data: D, fault: Option<Call>)
      returns (failed: bool, ghost images: seq<map<string, Blob<D>>>)
      requires temp != path && temp !in files
      modifies this
      ensures failed <==> fault.Some?
      ensures files == if fault.Some? && Position(fault.value) <= Position(Rename) then old(files)
                       else old(files)[path := Whole(data)]
      ensures images != [] && images[0] == old(files) && images[|images| - 1] == files
      ensures exists n :: OldThenNew(old(files), images, path, temp, data, n)
    {
      images := [files];
      ghost var n := if fault.Some? && Position(fault.value) <= Position(Rename) then 4 else 3;
      assert OldThenNew(files, images, path, temp, data, n);
      hide OldThenNew;
      if fault == Some(CreateTemp) {
        return true, images;
      }
      files := files[temp := Torn];
      OneMoreImage(old(files), images, files, path, temp, data, n);
      images := images + [files];
      var removeTemp := true;
      failed := fault == Some(Chmod) || fault == Some(WriteData);
      if !failed {
        files := files[temp := Whole(data)];
        OneMoreImage(old(files), images, files, path, temp, data, n);
        images := images + [files];
        failed := fault == Some(SyncFile) || fault == Some(CloseFile) || fault == Some(Rename);
      }
      if !failed {
        files := files[path := files[temp]] - {temp};
        OneMoreImage(old(files), images, files, path, temp, data, n);
        images := images + [files];
        removeTemp := false;
        failed := fault.Some?;
      }
      if removeTemp {
        files := files - {temp};
        OneMoreImage(old(files), images, files, path, temp, data, n);
        images := images + [files];
      }
    }
  }
}
