/**
 * The per-request state the readers share (`req.amaging`), the customer's
 * cache configuration, the collaborators the readers consult, and what a
 * reader does with the middleware continuation.
 */
module Context {
  import opened Wrappers
  import opened Effects
  import opened FileHandle

  /** The customer's cache options, `amaging.options.cache`. */
  datatype CacheOptions = CacheOptions(maxAge: nat, cacheControl: string)

  /**
   * Foreign functions: `mime.getType`, `fileTypeOrLookup` of the utilities
   * module, and the filter engine's `addOptions` followed by `hasFilters`.
   */
  datatype Collaborators = Collaborators(
    mimeType: MimeLookup,
    fileTypeOrLookup: (Option<string>, string) -> Option<string>,
    hasFilters: seq<string> -> bool)

  /** `next(error)` or `next()`; or the body was piped and `next` is not called. */
  datatype Continuation = Next(error: Option<Error>) | Piped

  /** `req.amaging`: the handle to serve and the handle of its cached variant. */
  class Amaging {
    var file: File
    var cacheFile: File
    const cache: CacheOptions

    constructor (file: File, cacheFile: File, cache: CacheOptions)
      ensures this.file == file && this.cacheFile == cacheFile && this.cache == cache
    {
      this.file := file;
      this.cacheFile := cacheFile;
      this.cache := cache;
    }
  }

  /** The type both readers serve a handle under: `fileTypeOrLookup(contentType(), filename)`. */
  function FileType(f: File, collab: Collaborators): Option<string>
    reads f
  {
    collab.fileTypeOrLookup(f.ContentType(collab.mimeType), f.filename)
  }
}
