/**
 * The two readers as they are mounted for a read: the image reader first,
 * then, when it calls `next()` without an error, the default reader on
 * whatever handle is then authoritative.
 */
module Pipeline {
  import opened Wrappers
  import opened Effects
  import opened FileHandle
  import opened Context
  import DefaultReader
  import ImageReader

  method Get(amaging: Amaging, res: DefaultReader.Response, collab: Collaborators,
             o: ImageReader.StepOutcomes, streamAnswer: Result<Stream, Error>, trace: Trace)
    returns (k: Continuation)
    modifies amaging, amaging.cacheFile, res, trace
    // a missing origin is a 404, with options or without, and nothing is transformed
    ensures !old(amaging.file.Exists()) ==> k == Next(Some(DefaultReader.FileNotFound))
    ensures !old(amaging.file.Exists()) ==> trace.events == old(trace.events)
    // a cached variant is served as it is: its headers, then its stream, and no write
    ensures old(ImageReader.DecisionFor(amaging, collab)) == ImageReader.CacheHit ==>
      amaging.file == old(amaging.cacheFile)
      && trace.events == old(trace.events) + DefaultReader.ServeEvents(old(amaging.cacheFile), collab, amaging.cache)
    // a failed materialisation is never answered with the untransformed origin
    ensures old(ImageReader.DecisionFor(amaging, collab)) == ImageReader.Materialize && ImageReader.SeriesError(o).Some? ==>
      k == Next(ImageReader.SeriesError(o))
  {
    var next, ran := ImageReader.Read(amaging, collab, o, trace);
    if next.Next? && next.error.Some? {
      return next;
    }
    k := DefaultReader.Read(amaging, res, collab, streamAnswer, trace);
  }
}
