/** The mock file service: an in-memory list of uploaded files that `uploadFile`
    appends to and `delete` / `clearAll` take from. Its `validateFile` is
    `FileRules.ServiceValidateFile`. */
module FileStore {

  import opened Wrappers
  import opened Lists
  import opened TrackedFiles

  /** A stored copy of a page record, stamped with the time it was stored. */
  datatype StoredFile = StoredFile(
    id: string,
    name: string,
    size: nat,
    mimeType: string,
    lastModified: int,
    uploadProgress: nat,
    status: Status,
    error: Option<string>,
    preview: Option<string>,
    uploadedAt: int)

  function StoredId(f: StoredFile): string { f.id }

  /** Stored copies look finished: full progress, completed, no error. */
  predicate LooksUploaded(f: StoredFile) {
    f.uploadProgress == 100 && f.status == Completed && f.error.None?
  }

  class FileService {
    var files: seq<StoredFile>

    constructor()
      ensures files == []
    {
      files := [];
    }

    /** `uploadFile`: store a finished copy of the record, stamped `now`, and return it. */
    method UploadFile(item: TrackedFile, now: int) returns (copy: StoredFile)
      modifies this
      ensures files == old(files) + [copy]
      ensures LooksUploaded(copy) && copy.uploadedAt == now
      ensures copy.id == item.id && copy.name == item.name && copy.size == item.size
      ensures copy.mimeType == item.mimeType && copy.lastModified == item.lastModified
      ensures copy.preview == item.preview
    {
      copy := StoredFile(item.id, item.name, item.size, item.mimeType, item.lastModified,
        100, Completed, None, item.preview, now);
      files := files + [copy];
    }

    /** `getAll`: a copy of the whole list. */
    method GetAll() returns (r: seq<StoredFile>)
      ensures r == files
    {
      r := files;
    }

    /** `getById`: the first record with the id, or `None`. */
    method GetById(id: string) returns (r: Option<StoredFile>)
      ensures r == Find(files, StoredId, id)
    {
      r := Find(files, StoredId, id);
    }

    /** `delete`: cut out the first record with the id and return it, or `None`. */
    method Delete(id: string) returns (r: Option<StoredFile>)
      modifies this
      ensures (files, r) == DeleteFirst(old(files), StoredId, id)
    {
      var k := FirstIndex(files, StoredId, id);
      if k != -1 {
        r := Some(files[k]);
        files := files[..k] + files[k + 1..];
      } else {
        r := None;
      }
    }

    /** `clearAll`: empty the store and report success. */
    method ClearAll() returns (success: bool)
      modifies this
      ensures files == [] && success
    {
      files := [];
      success := true;
    }
  }
}
