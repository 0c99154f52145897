# amaging read pipeline, modelled in Dafny

This project models the request path of amaging's read pipeline. amaging serves files, mostly
images, from object storage, and can store transformed variants in a cache store.

- **Path parsing.** A requested name such as `410x410&/tente.jpg` is split into option tokens
  (`["410x410"]`) and a bare storage key (`tente.jpg`). This is done by the regular expression
  `^(.*)&\/` and `split('&')`.
- **File handle.** It holds the bare key, the options and lazily fetched metadata (`info`). It
  derives `exists()` and the header accessors from that metadata. Every store request it makes
  is addressed by the bare key.
- **Image reader.** A chain of bypass checks runs first: origin missing, no options, cache hit,
  unsupported type, no filters. If none applies, nine materialisation steps run strictly in
  order and stop at the first error. On success the cache handle becomes the file to serve.
- **Default reader.** A missing file is a 404. Otherwise it sets five representation headers,
  stopping at the first value Node's `setHeader` refuses (the thrown error goes to `next`). It
  then streams the object, and maps the backends' "not found" stream errors to a 404.

## Layout

| file | module | what it holds |
|---|---|---|
| wrappers.dfy | `Wrappers` | `Option`, `Result` |
| text.dfy | `Text` | JavaScript `split`/`join` on one character; decimal rendering of numbers |
| path_parser.dfy | `PathParser` | `ParseName`, the exact model of the options regular expression |
| effects.dfy | `Effects` | errors, storage identities, the `Trace` of effects |
| file_handle.dfy | `FileHandle` | class `File` (both `AbstractFile` and `File`) |
| context.dfy | `Context` | class `Amaging` (`req.amaging`), cache options, collaborators |
| default_reader.dfy | `DefaultReader` | headers, stream-error classification, the middleware |
| image_reader.dfy | `ImageReader` | the bypass decision, the step series, the middleware |
| pipeline.dfy | `Pipeline` | the two readers mounted in sequence |

How the world outside the core is represented:
- Answers from the stores, the scratch file system and the filter engine are parameters. Each
  method records the request it makes in a `Trace` and returns the answer it was given.
- `mime.getType`, `fileTypeOrLookup` and the filter engine's `hasFilters` are function-valued
  parameters (`Collaborators`).
- A storage backend is known only by its identity (`Storage`).
- Node's `res.setHeader` is modelled by its checks on a header value (`DefaultReader.HeaderValueError`).

Dafny classes cannot inherit without traits, which are not used here. So `File` carries the
members of both source classes: constructor `Abstract` is `AbstractFile`'s, while the unnamed
constructor and `Create` are `File`'s.

In a few places the code behaves differently from what a reader might take its intent to be.
The model follows the code:
- **Options syntax.** The options segment can contain `/`. The code's `.*` is greedy, so the
  split happens at the last `&/` that the expression can reach. JavaScript's `.` does not
  match line terminators, so the expression cannot reach past the first line terminator
  (`ParseStopsAtLineTerminator`).
- **Origin missing.** The image reader does not answer a missing origin itself. It calls
  `next()` with no error, and the 404 comes from the default reader (`Pipeline.Get`).
- **Metadata errors.** `readInfo` does not swallow not-found errors. It passes on any rejection
  of the store and leaves `info` unchanged.
- **Scratch cleanup.** The scratch file is not removed on every exit path. The unlink is one
  step of the series, so a failure in steps 2 to 6 leaves the tmp file behind
  (`ImageReader.TmpLeaksOnEarlyFailure`).
- **Missing metadata.** Node's `res.setHeader` throws on an `undefined` value, and Express
  hands the thrown error to `next`. So a record that lacks a length, an ETag or a modification
  date is answered with that error: the headers before it stay set, and the object is never
  streamed (`DefaultReader.MissingMetadataStops`).

## Model

| member | source | states |
|---|---|---|
| `Text.Split` | src/amaging/storage/abstract-file.js:13 | `split('&')` yields at least one token, and no token contains the separator |
| `Text.JoinSplit` | src/amaging/storage/abstract-file.js:13 | joining the tokens of a split gives back the split string |
| `Text.SplitJoin` | src/amaging/storage/abstract-file.js:13 | splitting a join of non-empty, separator-free token lists gives back the same tokens in the same order |
| `PathParser.ParseName` | src/amaging/storage/abstract-file.js:10-18 | the constructor's parse: on a match, the group split on `&` and the rest of the name after the group's `&/`; otherwise no options and the whole name as the key |
| `PathParser.LastMatchBelow` | src/amaging/storage/abstract-file.js:4 | the greedy group: the largest index with `&/` there and no line terminator before it; none when no such index exists |
| `PathParser.ParseWithoutSeparator` | src/amaging/storage/abstract-file.js:15-17 | a name without `&/` gives no options, and the name is the key unchanged |
| `PathParser.ParseOptionsIffMatch` | src/amaging/storage/abstract-file.js:10-13 | options are non-empty exactly when the regular expression matches |
| `PathParser.ParseTokensHaveNoSep` | src/amaging/storage/abstract-file.js:13 | no option token contains `&` |
| `PathParser.ParseRoundTrip` | src/amaging/storage/abstract-file.js:12-14 | on a match, the tokens joined by `&`, then `&/`, then the key, rebuild the requested name |
| `PathParser.ParseKeyIsBare` | src/amaging/storage/abstract-file.js:4-14 | greediness: parsing the key a second time finds no options and leaves it unchanged |
| `PathParser.ParseKeyHasNoSeparator` | src/amaging/storage/abstract-file.js:4-14 | for a name without line terminators, the key contains no `&/` |
| `PathParser.ParseUnparse` | src/amaging/storage/abstract-file.js:10-14 | separator-free, line-free tokens, then `&/`, then a key without `&/`, parse back to the same tokens in order and the same key |
| `PathParser.ParseEmptyPrefix` | src/amaging/storage/abstract-file.js:13 | `&/` + key parses to the options `[""]`, which is non-empty |
| `PathParser.ParseStopsAtLineTerminator` | src/amaging/storage/abstract-file.js:4 | if no `&/` comes before the first line terminator, there are no options, even when an `&/` follows it |
| `PathParser.ParseScenario` | src/amaging/storage/abstract-file.js:10-14 | `410x410&/tente.jpg` parses to `["410x410"]` and `tente.jpg` |
| `FileHandle.File.Abstract` | src/amaging/storage/abstract-file.js:8-19 | the constructor stores the storage and the parsed options and key; `info` is undefined |
| `FileHandle.File.constructor` | src/amaging/storage/file.js:11-14 | as `AbstractFile`'s constructor, and it also stores `cacheStorage` |
| `FileHandle.File.Create` | src/amaging/storage/file.js:5-9 | a fresh handle after exactly one metadata request for the bare key; `info` is the store's answer; a rejection propagates; the `info` argument plays no part |
| `FileHandle.File.ReadInfo` | src/amaging/storage/abstract-file.js:21-25 | one store request for the bare key; a resolved answer overwrites `info` whatever it holds; a rejection leaves `info` and is returned |
| `FileHandle.File.ContentLength` | src/amaging/storage/abstract-file.js:27-29 | a length is reported only when the handle exists |
| `FileHandle.File.ContentType` | src/amaging/storage/abstract-file.js:31-33 | the store's type when it is present and truthy, otherwise the MIME lookup of the bare key |
| `FileHandle.File.ETag` | src/amaging/storage/abstract-file.js:35-37 | an entity tag is reported only when the handle exists |
| `FileHandle.File.Exists` | src/amaging/storage/abstract-file.js:43-45 | true exactly when the fetched `info` is an object (a record); nothing fetched, or a scalar answer, is not a file |
| `FileHandle.File.FilePath` | src/amaging/storage/abstract-file.js:59-61 | the bare key, without the options, which is what every store request addresses |
| `FileHandle.File.LastModified` | src/amaging/storage/abstract-file.js:39-41 | a timestamp is reported only when the handle exists |
| `FileHandle.FreshHandleHasNoMetadata` | src/amaging/storage/abstract-file.js:27-45 | before any `readInfo`, `exists()` is false, every metadata accessor is undefined, and the content type is the lookup of the key |
| `FileHandle.File.RequestReadStream` | src/amaging/storage/abstract-file.js:47-49 | one stream request for the bare key; the store's stream or error is returned as it is |
| `FileHandle.File.RequestWriteStream` | src/amaging/storage/abstract-file.js:51-53 | one write request for the bare key, declaring the given metadata |
| `FileHandle.File.DeleteFile` | src/amaging/storage/abstract-file.js:55-57 | one delete request for the bare key |
| `DefaultReader.IsNotFound` | src/amaging/reader/default-reader.js:33 | an error whose `code` is `ENOENT`, `NotFound` or `NoSuchKey` |
| `DefaultReader.ClassifyStreamError` | src/amaging/reader/default-reader.js:32-37 | the codes `ENOENT`, `NotFound` and `NoSuchKey` become the 404 error; any other error is forwarded unchanged |
| `DefaultReader.ClassifyStable` | src/amaging/reader/default-reader.js:32-37 | a translated error is either the original or the 404, and classifying again changes nothing |
| `DefaultReader.CacheControl` | src/amaging/reader/default-reader.js:25 | `max-age=`, the decimal `maxAge`, `, `, then the configured directive |
| `DefaultReader.RepresentationHeaders` | src/amaging/reader/default-reader.js:20-26 | the five name and value pairs in the order the source sets them, an absent value being `undefined` |
| `Context.FileType` | src/amaging/reader/default-reader.js:20 | `fileTypeOrLookup` of the handle's content type and bare key, the type both readers use (also image-reader.js line 43) |
| `DefaultReader.CacheControlRoundTrip` | src/amaging/reader/default-reader.js:9-25 | the Cache-Control value reads back into the customer's `maxAge` and directive |
| `DefaultReader.RepresentationHeadersExact` | src/amaging/reader/default-reader.js:20-26 | exactly five distinct headers are set, each with the value from the handle's accessors or the cache options |
| `DefaultReader.HeaderValueError` | src/amaging/reader/default-reader.js:22-26 | what `setHeader` throws: `ERR_HTTP_INVALID_HEADER_VALUE` for `undefined`, `ERR_INVALID_CHAR` for a character outside tab, space to `~` and U+0080 to U+00FF; numbers pass |
| `DefaultReader.FirstRefused` | src/amaging/reader/default-reader.js:22-26 | the position of the first refused header: every header before it is accepted, and the one there is refused |
| `DefaultReader.AcceptedHeaders` | src/amaging/reader/default-reader.js:22-26 | the headers in order up to, and not including, the first refused one |
| `DefaultReader.HeaderFailure` | src/amaging/reader/default-reader.js:22-26 | the error of the first refused header, if one is refused |
| `DefaultReader.ServeEvents` | src/amaging/reader/default-reader.js:22-28 | the accepted headers, then the stream request only when no header was refused |
| `DefaultReader.CacheControlAccepted` | src/amaging/reader/default-reader.js:25 | the `Cache-Control` value is accepted exactly when the configured directive is |
| `DefaultReader.HeaderFailureIff` | src/amaging/reader/default-reader.js:20-26 | no header throws exactly when the length, a found content type, the ETag and the date are present and every text value is made of accepted characters; then all five are set |
| `DefaultReader.MissingMetadataStops` | src/amaging/reader/default-reader.js:22-24 | a record with no length sets nothing and throws `ERR_HTTP_INVALID_HEADER_VALUE`; with a length and type but no ETag, exactly the first two headers are set before the throw |
| `DefaultReader.Response.SetHeader` | src/amaging/reader/default-reader.js:22 | a value `setHeader` accepts is set and recorded; a refused one throws its error and changes nothing |
| `DefaultReader.SetHeaderAt` | src/amaging/reader/default-reader.js:22-26 | one call after the earlier headers: it sets the next header, or throws, and is then the first refusal |
| `DefaultReader.SetRepresentationHeaders` | src/amaging/reader/default-reader.js:22-26 | the five calls leave exactly the accepted headers, in the map and in the trace, and return the first thrown error |
| `DefaultReader.Read` | src/amaging/reader/default-reader.js:13-40 | missing file: `next(404)`, no header set, no store call. Otherwise the accepted headers are set; a thrown header error goes to `next` with no stream request; with all five set, one stream request follows, a stream-request error is forwarded, a stream error is classified, and a clean stream is piped |
| `ImageReader.Decide` | src/amaging/reader/image-reader.js:27-55 | the first bypass that applies, in the source's order (origin missing, no options, cache hit, unsupported type, no filters), or the transform |
| `ImageReader.DecisionFor` | src/amaging/reader/image-reader.js:27-55 | the decision for a request: origin and cache existence, the options, the looked-up type and the filter check |
| `ImageReader.DecideMaterializeIff` | src/amaging/reader/image-reader.js:27-55 | the series runs exactly when the origin exists, options are present, the cache misses, the type is one of the six, and filters apply |
| `ImageReader.CacheHitPrecedesTypeGate` | src/amaging/reader/image-reader.js:36-47 | with options and an existing cache file, the cache hit wins whatever the type and the filters |
| `ImageReader.StepError` | src/amaging/reader/image-reader.js:64-107 | the error each step hands to `done`: the outside answer for the fallible steps, none for the cache copy and the promotion |
| `ImageReader.StepEvents` | src/amaging/reader/image-reader.js:64-107 | the effects each step asks for, with the cache write declaring the stat size and the origin's type |
| `ImageReader.SeriesEvents` | src/amaging/reader/image-reader.js:63-108 | the effects of the first n steps, in series order |
| `ImageReader.FirstFailure` | src/amaging/reader/image-reader.js:63-108 | the first failing step at or after a position: every earlier step succeeded, and the one found failed |
| `ImageReader.SeriesStopsAtFirstError` | src/amaging/reader/image-reader.js:63-108 | a failing series ends at its first failing step and reports that step's error; it succeeds exactly when all nine steps run |
| `ImageReader.PromotionNeedsEverything` | src/amaging/reader/image-reader.js:99-106 | the cache handle is promoted exactly when no step failed; the metadata re-read happens only after a successful unlink |
| `ImageReader.UnlinkRunsIffCacheWritten` | src/amaging/reader/image-reader.js:93-98 | the tmp file is unlinked exactly when every step up to the close of the cache write succeeded |
| `ImageReader.TmpLeaksOnEarlyFailure` | src/amaging/reader/image-reader.js:64-98 | a failure after the tmp file was created and before the cache write closed means no unlink |
| `ImageReader.SeriesWritesOnce` | src/amaging/reader/image-reader.js:63-108 | the series requests at most one write stream; every store request addresses the origin key (read) or the cache key |
| `ImageReader.WriteDeclaresStatSize` | src/amaging/reader/image-reader.js:78-87 | the cache write declares the size stat reported for the tmp file, and the origin's content type |
| `ImageReader.UnlinkBetweenCloseAndRefresh` | src/amaging/reader/image-reader.js:93-102 | in the trace, the close of the copy into the cache comes first, then the unlink, then the cache metadata request |
| `ImageReader.Read` | src/amaging/reader/image-reader.js:12-109 | every bypass calls `next()` with no step run and no effect; a cache hit swaps in the cache handle; otherwise the run steps, effects, error, promotion and cache metadata are those of the series specification |
| `ImageReader.RunSeries` | src/amaging/reader/image-reader.js:63-108 | running the nine steps in order until the first error yields the steps run, the error passed on, the effects, the promotion and the refreshed cache metadata of the series specification |
| `ImageReader.RunStep` | src/amaging/reader/image-reader.js:64-107 | one step: its effect in the trace, its error, and its change to the request state |
| `Pipeline.Get` | src/amaging/reader/image-reader.js:27-30 | a missing origin is answered 404 with or without options; a cache hit serves the cached handle (its accepted headers, then its stream unless a header was refused) with no write; a failed materialisation passes its error and never serves the origin |

## Left out

- The byte streams are left out: piping, `tmp.file`, `fs.stat`, `fs.unlink` and `createReadStream`. They are I/O. Each series step is an abstract outcome, and its request is a trace event.
- `mime.getType`, `fileTypeOrLookup` (from `lib/utils`, which is not part of this model) and the GraphicsMagick filter engine are foreign code. They are parameters.
- Concurrency between requests and client disconnects are left out: nothing in the modelled files implements them.
- The upload and delete policy test (`test/policy_test.js`) is left out. It exercises authorisation code that is not part of this model.
- FileHandle.File.RequestReadStream: models the intended "stream or error" result. In the source, both readers pass a callback to `requestReadStream`, but the method is `async` and takes no argument, so the callback would never be called.
- ImageReader.RunStep: the origin's stream is assumed to be copied to its end: its outcome is only the request's rejection or success. In the source only `end` is listened for, and `pipe` adds no `error` listener to the read side, so a stream that fails mid-copy throws an unhandled `error` event outside the request.
- ImageReader.RunStep: the order `TmpFilled` before `FiltersRun` is stronger than the source guarantees. `end` fires on the read side, before the tmp file's write stream has flushed, so the filter engine can see a partly written file.
- ImageReader.Read: inherits both `RunStep` assumptions about the copy into the tmp file.
- DefaultReader.Read: the response body is not modelled beyond the `Piped` outcome.
- DefaultReader.Response.SetHeader: only Node's checks on the value are modelled (`undefined`, and characters outside the accepted set). Its other refusals are not: a header name is always one of the five constant names, and headers already sent do not arise before the body is piped.
- DefaultReader.CacheControlRoundTrip: `maxAge` is a non-negative integer. Other JavaScript values in that configuration field are not modelled. `Text.Decimal` matches `${n}` only below 10^21; from there on JavaScript writes the number in exponent form (`1e+21`), which the model does not.
- Metadata values (`LastModified`, `ETag`) are opaque strings. The dates and formats the stores use are not modelled.
- The `debug` logging calls in both readers are left out. They only write diagnostics and change nothing the model observes.
