/**
 * The file handle of `storage/abstract-file.js` and `storage/file.js`.
 *
 * `File` extends `AbstractFile` in the source; Dafny classes do not inherit,
 * so the one class below carries both: the constructor `Abstract` is
 * `AbstractFile`'s, the unnamed constructor and `Create` are `File`'s.
 * Store answers are parameters: each store method records the request it
 * makes in the trace and hands back the answer it was given.
 */
module FileHandle {
  import opened Wrappers
  import opened PathParser
  import opened Effects

  /** Metadata a store reports; each field may be absent (`undefined`). */
  datatype Metadata = Metadata(
    contentLength: Option<nat>,
    contentType: Option<string>,
    eTag: Option<string>,
    lastModified: Option<string>)

  /**
   * What `this.info` can hold: nothing (`undefined` or `null`), a value
   * that is not an object (`false`, a number, a string), or a record.
   */
  datatype InfoValue = NoInfo | Scalar | Record(meta: Metadata)

  /** A read stream from a store: it ends cleanly, or emits an error. */
  datatype Stream = Stream(failure: Option<Error>)

  /** `mime.getType`: a type for a file name, or `null`. */
  type MimeLookup = string -> Option<string>

  /** JavaScript truthiness of an optional string. */
  predicate Truthy(s: Option<string>)
  {
    s.Some? && s.value != ""
  }

  class File {
    const storage: Storage
    const cacheStorage: Option<Storage>
    const options: seq<string>
    const filename: string
    var info: InfoValue

    /** `new AbstractFile(storage, filename)`. */
    constructor Abstract(storage: Storage, name: string)
      ensures this.storage == storage && cacheStorage == None
      ensures options == ParseName(name).options && filename == ParseName(name).filename
      ensures info == NoInfo
    {
      this.storage := storage;
      var parsed := ParseName(name);
      options := parsed.options;
      filename := parsed.filename;
      cacheStorage := None;
      info := NoInfo;
    }

    /** `new File(storage, cacheStorage, filename)`. */
    constructor (storage: Storage, cacheStorage: Storage, name: string)
      ensures this.storage == storage && this.cacheStorage == Some(cacheStorage)
      ensures options == ParseName(name).options && filename == ParseName(name).filename
      ensures info == NoInfo
    {
      this.storage := storage;
      var parsed := ParseName(name);
      options := parsed.options;
      filename := parsed.filename;
      this.cacheStorage := Some(cacheStorage);
      info := NoInfo;
    }

    /**
     * `File.create`: construct, then one `readInfo`. The `info` argument is
     * handed to `readInfo`, which takes no parameter, so it has no effect.
     * A rejected `readInfo` rejects `create`.
     */
    static method Create(storage: Storage, cacheStorage: Storage, name: string, info: InfoValue,
                         answer: Result<InfoValue, Error>, trace: Trace)
      returns (r: Result<File, Error>)
      modifies trace
      ensures answer.Err? ==> r == Err(answer.error)
      ensures answer.Ok? ==> r.Ok? && fresh(r.value)
      ensures r.Ok? ==> r.value.storage == storage && r.value.cacheStorage == Some(cacheStorage)
      ensures r.Ok? ==> r.value.options == ParseName(name).options && r.value.filename == ParseName(name).filename
      ensures r.Ok? ==> r.value.info == answer.value
      ensures trace.events == old(trace.events) + [StoreCall(storage, ReadInfoOp, ParseName(name).filename)]
    {
      var file := new File(storage, cacheStorage, name);
      var got := file.ReadInfo(answer, trace);
      if got.Err? {
        return Err(got.error);
      }
      return Ok(file);
    }

    /** `_filepath`: every store call is addressed by the bare key. */
    function FilePath(): string
    {
      filename
    }

    /**
     * `readInfo`: ask the store for the metadata of the bare key. A
     * resolved answer overwrites `info`, whatever it is; a rejected one
     * leaves `info` as it was and is passed on.
     */
    method ReadInfo(answer: Result<InfoValue, Error>, trace: Trace) returns (r: Result<InfoValue, Error>)
      modifies this, trace
      ensures r == answer
      ensures info == if answer.Ok? then answer.value else old(info)
      ensures trace.events == old(trace.events) + [StoreCall(storage, ReadInfoOp, filename)]
    {
      trace.Emit(StoreCall(storage, ReadInfoOp, FilePath()));
      if answer.Ok? {
        info := answer.value;
      }
      r := answer;
    }

    /** `exists()`: `info` is truthy and an object. */
    predicate Exists()
      reads this
    {
      info.Record?
    }

    function ContentLength(): (n: Option<nat>)
      reads this
      ensures n.Some? ==> Exists()
    {
      if info.Record? then info.meta.contentLength else None
    }

    /** Whether the store reported a truthy `ContentType`. */
    predicate HasStoreType()
      reads this
    {
      info.Record? && Truthy(info.meta.contentType)
    }

    /**
     * `contentType()`: the store's type when it is truthy, otherwise the
     * type looked up from the bare key.
     */
    function ContentType(mime: MimeLookup): (t: Option<string>)
      reads this
      ensures HasStoreType() ==> t == info.meta.contentType && Truthy(t)
      ensures !HasStoreType() ==> t == mime(filename)
    {
      if HasStoreType() then info.meta.contentType else mime(filename)
    }

    function ETag(): (e: Option<string>)
      reads this
      ensures e.Some? ==> Exists()
    {
      if info.Record? then info.meta.eTag else None
    }

    function LastModified(): (m: Option<string>)
      reads this
      ensures m.Some? ==> Exists()
    {
      if info.Record? then info.meta.lastModified else None
    }

    /** `requestReadStream`: a stream of the bare key, or the store's error as it is. */
    method RequestReadStream(answer: Result<Stream, Error>, trace: Trace) returns (r: Result<Stream, Error>)
      modifies trace
      ensures r == answer
      ensures trace.events == old(trace.events) + [StoreCall(storage, ReadStreamOp, filename)]
    {
      trace.Emit(StoreCall(storage, ReadStreamOp, FilePath()));
      r := answer;
    }

    /** `requestWriteStream(info)`: a write stream for the bare key, declaring `info`. */
    method RequestWriteStream(declared: WriteInfo, answer: Option<Error>, trace: Trace) returns (failure: Option<Error>)
      modifies trace
      ensures failure == answer
      ensures trace.events == old(trace.events) + [StoreCall(storage, WriteStreamOp(declared), filename)]
    {
      trace.Emit(StoreCall(storage, WriteStreamOp(declared), FilePath()));
      failure := answer;
    }

    /** `deleteFile`: delete the bare key. */
    method DeleteFile(answer: Option<Error>, trace: Trace) returns (failure: Option<Error>)
      modifies trace
      ensures failure == answer
      ensures trace.events == old(trace.events) + [StoreCall(storage, DeleteOp, filename)]
    {
      trace.Emit(StoreCall(storage, DeleteOp, FilePath()));
      failure := answer;
    }
  }

  /** Before any `readInfo`, the handle does not exist and every metadata accessor is `undefined`. */
  lemma FreshHandleHasNoMetadata(f: File, mime: MimeLookup)
    requires f.info == NoInfo
    ensures !f.Exists()
    ensures f.ContentLength() == None && f.ETag() == None && f.LastModified() == None
    ensures f.ContentType(mime) == mime(f.filename)
  {
  }
}
