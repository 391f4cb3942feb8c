/**
 * The storage engine, seen from the database: one file that holds a whole
 * snapshot of the key/value map. The binary encoding and the operating
 * system are outside the model: the file is represented by the snapshot it
 * decodes to, and each step that can fail (encoding, creating the file,
 * writing, the durability barrier, opening, reading, decoding) may fail.
 */
module Storage {
  import opened Wrappers
  import opened Values

  datatype IoError =
    | EncodeFailed
    | CreateFailed
    | WriteFailed
    | SyncFailed
    | OpenFailed
    | ReadFailed
    | DecodeFailed

  /** What the file at the engine's path holds. */
  datatype FileState =
    | Missing                                    // no file at the path
    | Snapshot(data: map<string, Value>)         // a complete, decodable snapshot
    | Damaged                                    // present but not a decodable snapshot

  /**
   * What a save with outcome `r` leaves in the file, given what it held
   * before: the new snapshot on success; the old file when encoding or
   * creating failed; a truncated, damaged file when writing failed. When only
   * the flush to disk failed, the whole encoding was already written, so the
   * file holds either the new snapshot or a damaged copy.
   */
  ghost predicate SaveEffect(before: FileState, data: map<string, Value>, r: Result<(), IoError>, after: FileState)
  {
    match r
    case Ok(_) => after == Snapshot(data)
    case Err(EncodeFailed) => after == before
    case Err(CreateFailed) => after == before
    case Err(WriteFailed) => after == Damaged
    case Err(SyncFailed) => after == Snapshot(data) || after == Damaged
    case Err(_) => false
  }

  class StorageEngine {
    const path: string
    var file: FileState
    /** Every snapshot handed to Save, oldest first, whether or not the save succeeded. */
    ghost var handed: seq<map<string, Value>>
    /** The outcome of every call to Save, oldest first. */
    ghost var results: seq<Result<(), IoError>>

    constructor (path: string, onDisk: FileState)
      ensures this.path == path && file == onDisk && handed == [] && results == []
    {
      this.path := path;
      file := onDisk;
      handed := [];
      results := [];
    }

    /**
     * Writes the whole map: create-or-truncate, write everything, then
     * flush to disk. There is no atomic replace, so a failure after the file
     * was truncated may leave it damaged.
     */
    method Save(data: map<string, Value>) returns (r: Result<(), IoError>)
      modifies this
      ensures handed == old(handed) + [data]
      ensures results == old(results) + [r]
      ensures SaveEffect(old(file), data, r, file)
      ensures r.Err? ==> r.error in {EncodeFailed, CreateFailed, WriteFailed, SyncFailed}
    {
      handed := handed + [data];
      r := SaveSteps(data);
      results := results + [r];
    }

    /** The steps of Save, each of which may fail. */
    method SaveSteps(data: map<string, Value>) returns (r: Result<(), IoError>)
      modifies this`file
      ensures SaveEffect(old(file), data, r, file)
    {
      var encoded: bool :| true;
      if !encoded {
        return Err(EncodeFailed);
      }
      var created: bool :| true;
      if !created {
        return Err(CreateFailed);
      }
      file := Damaged;
      var written: bool :| true;
      if !written {
        return Err(WriteFailed);
      }
      file := Snapshot(data);
      var synced: bool :| true;
      if !synced {
        var survived: bool :| true;
        if !survived {
          file := Damaged;
        }
        return Err(SyncFailed);
      }
      r := Ok(());
    }

    /**
     * Reads the whole map back. A missing file is a fresh start and yields
     * the empty map; a file that does not decode is an error, never a
     * partial map.
     */
    method Load() returns (r: Result<map<string, Value>, IoError>)
      ensures file == Missing ==> r == Ok(map[])
      ensures file.Snapshot? && r.Ok? ==> r.value == file.data
      ensures file == Damaged ==> r.Err?
      ensures r.Err? ==> r.error in {OpenFailed, ReadFailed, DecodeFailed}
    {
      if file == Missing {
        return Ok(map[]);
      }
      var isOpen: bool :| true;
      if !isOpen {
        return Err(OpenFailed);
      }
      var read: bool :| true;
      if !read {
        return Err(ReadFailed);
      }
      match file
      case Snapshot(data) => r := Ok(data);
      case _ => r := Err(DecodeFailed);
    }
  }
}
