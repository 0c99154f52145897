/**
 * `reader/default-reader.js`: serve the authoritative handle. A missing
 * file is a 404; otherwise five representation headers are set, then the
 * stored bytes are streamed, and a stream error that means "not found" in
 * any backend's words becomes a 404 while every other error is passed on.
 */
module DefaultReader {
  import opened Wrappers
  import opened Text
  import opened Effects
  import opened FileHandle
  import opened Context

  /** `httpError(404, 'File not found')`. */
  const FileNotFound: Error := HttpError(404, "File not found")

  /** The three spellings of "no such object" across the storage backends. */
  const NotFoundCodes: seq<string> := ["ENOENT", "NotFound", "NoSuchKey"]

  predicate IsNotFound(e: Error)
  {
    e.Failure? && e.code.Some? && e.code.value in NotFoundCodes
  }

  /** The stream `error` listener: translate not-found codes, forward the rest unchanged. */
  function ClassifyStreamError(e: Error): (r: Error)
    ensures IsNotFound(e) ==> r == FileNotFound
    ensures !IsNotFound(e) ==> r == e
  {
    if IsNotFound(e) then FileNotFound else e
  }

  /** The translation is only ever the 404, and a translated error is left alone by a second pass. */
  lemma ClassifyStable(e: Error)
    ensures ClassifyStreamError(e) == e || ClassifyStreamError(e) == FileNotFound
    ensures ClassifyStreamError(ClassifyStreamError(e)) == ClassifyStreamError(e)
  {
  }

  /** The `Cache-Control` value: `max-age=${maxAge}, ${cacheControl}`. */
  function CacheControl(c: CacheOptions): string
  {
    "max-age=" + Decimal(c.maxAge) + ", " + c.cacheControl
  }

  /** Reads a `Cache-Control` value of that shape back into the options it came from. */
  function ParseCacheControl(v: string): Option<CacheOptions>
  {
    if |v| < 8 || v[..8] != "max-age=" then None
    else
      var rest := v[8..];
      var k := IndexOf(rest, ',');
      if k == 0 || k + 1 >= |rest| || rest[k + 1] != ' ' || !AllDigits(rest[..k]) then None
      else Some(CacheOptions(DigitsValue(rest[..k]), rest[k + 2..]))
  }

  /** The header value carries the configured `maxAge` and directive, and both can be read back. */
  lemma CacheControlRoundTrip(c: CacheOptions)
    ensures ParseCacheControl(CacheControl(c)) == Some(c)
  {
    var v := CacheControl(c);
    var digits := Decimal(c.maxAge);
    assert v[..8] == "max-age=";
    var rest := v[8..];
    assert rest == digits + ", " + c.cacheControl;
    assert rest[|digits|] == ',';
    forall j | 0 <= j < |digits| ensures rest[j] != ',' {
      assert rest[j] == digits[j];
    }
    var k := IndexOf(rest, ',');
    assert k == |digits|;
    assert rest[..k] == digits;
    assert rest[k + 1] == ' ';
    assert rest[k + 2..] == c.cacheControl;
    DecimalRoundTrip(c.maxAge);
  }

  function NumberHeader(n: Option<nat>): HeaderValue
  {
    if n.Some? then NumberValue(n.value) else Undefined
  }

  function TextHeader(s: Option<string>): HeaderValue
  {
    if s.Some? then TextValue(s.value) else Undefined
  }

  /** The five representation headers, in the order they are set. */
  function RepresentationHeaders(f: File, collab: Collaborators, cache: CacheOptions): seq<(string, HeaderValue)>
    reads f
  {
    [ ("Content-Length", NumberHeader(f.ContentLength())),
      ("Content-Type", TextHeader(FileType(f, collab))),
      ("Etag", TextHeader(f.ETag())),
      ("Cache-Control", TextValue(CacheControl(cache))),
      ("Last-Modified", TextHeader(f.LastModified())) ]
  }

  /** The trace of setting headers one after the other. */
  function HeaderEvents(hs: seq<(string, HeaderValue)>): (es: seq<Event>)
    ensures |es| == |hs|
    ensures forall i :: 0 <= i < |hs| ==> es[i] == HeaderSet(hs[i].0, hs[i].1)
  {
    if |hs| == 0 then [] else HeaderEvents(hs[..|hs| - 1]) + [HeaderSet(hs[|hs| - 1].0, hs[|hs| - 1].1)]
  }

  /** The header map that setting `hs` in order leaves behind (a later name wins). */
  function HeaderMap(hs: seq<(string, HeaderValue)>): map<string, HeaderValue>
  {
    if |hs| == 0 then map[] else HeaderMap(hs[..|hs| - 1])[hs[|hs| - 1].0 := hs[|hs| - 1].1]
  }

  /**
   * Exactly five headers are set, under five distinct names, each with the
   * value the handle and the cache options give it.
   */
  lemma RepresentationHeadersExact(f: File, collab: Collaborators, cache: CacheOptions)
    ensures HeaderMap(RepresentationHeaders(f, collab, cache)).Keys
         == {"Content-Length", "Content-Type", "Etag", "Cache-Control", "Last-Modified"}
    ensures |HeaderMap(RepresentationHeaders(f, collab, cache))| == 5
    ensures HeaderMap(RepresentationHeaders(f, collab, cache))["Cache-Control"] == TextValue(CacheControl(cache))
    ensures HeaderMap(RepresentationHeaders(f, collab, cache))["Content-Length"] == NumberHeader(f.ContentLength())
    ensures HeaderMap(RepresentationHeaders(f, collab, cache))["Content-Type"] == TextHeader(FileType(f, collab))
    ensures HeaderMap(RepresentationHeaders(f, collab, cache))["Etag"] == TextHeader(f.ETag())
    ensures HeaderMap(RepresentationHeaders(f, collab, cache))["Last-Modified"] == TextHeader(f.LastModified())
  {
    var hs := RepresentationHeaders(f, collab, cache);
    HeaderMapOfFive(hs);
    var m := HeaderMap(hs);
    assert m.Keys == {"Content-Length", "Content-Type", "Etag", "Cache-Control", "Last-Modified"};
    assert |m.Keys| == 5;
  }

  lemma HeaderMapStep(hs: seq<(string, HeaderValue)>, k: nat)
    requires k < |hs|
    ensures HeaderMap(hs[..k + 1]) == HeaderMap(hs[..k])[hs[k].0 := hs[k].1]
  {
    assert hs[..k + 1][..k] == hs[..k];
  }

  /** Setting five headers one by one leaves the five updates. */
  lemma HeaderMapOfFive(hs: seq<(string, HeaderValue)>)
    requires |hs| == 5
    ensures HeaderMap(hs) == map[][hs[0].0 := hs[0].1][hs[1].0 := hs[1].1][hs[2].0 := hs[2].1]
                                  [hs[3].0 := hs[3].1][hs[4].0 := hs[4].1]
  {
    assert hs[..0] == [];
    HeaderMapStep(hs, 0);
    HeaderMapStep(hs, 1);
    HeaderMapStep(hs, 2);
    HeaderMapStep(hs, 3);
    HeaderMapStep(hs, 4);
    assert hs[..5] == hs;
  }

  /** What Node's `setHeader` throws for `undefined`. */
  const InvalidHeaderValue: Error := Failure(Some("ERR_HTTP_INVALID_HEADER_VALUE"))

  /** What Node's `setHeader` throws for a value holding a character it does not accept. */
  const InvalidHeaderChar: Error := Failure(Some("ERR_INVALID_CHAR"))

  /** A character Node accepts in a header value: tab, space to `~`, and U+0080 to U+00FF. */
  predicate IsHeaderChar(c: char)
  {
    c == '\t' || (' ' <= c <= '~') || ('\U{0080}' <= c <= '\U{00FF}')
  }

  predicate HeaderText(s: string)
  {
    forall i :: 0 <= i < |s| ==> IsHeaderChar(s[i])
  }

  /** The error `setHeader` throws for a value, if any. A number is written in digits, which are always accepted. */
  function HeaderValueError(v: HeaderValue): Option<Error>
  {
    match v
    case Undefined => Some(InvalidHeaderValue)
    case TextValue(s) => if HeaderText(s) then None else Some(InvalidHeaderChar)
    case NumberValue(_) => None
  }

  /** The position of the first header whose value `setHeader` refuses, or |hs| when it accepts them all. */
  function FirstRefused(hs: seq<(string, HeaderValue)>): (n: nat)
    ensures n <= |hs|
    ensures forall j :: 0 <= j < n ==> HeaderValueError(hs[j].1).None?
    ensures n < |hs| ==> HeaderValueError(hs[n].1).Some?
  {
    if |hs| == 0 then 0
    else if HeaderValueError(hs[0].1).Some? then 0
    else 1 + FirstRefused(hs[1..])
  }

  /** The headers that are set before `setHeader` throws, if it does. */
  function AcceptedHeaders(f: File, collab: Collaborators, cache: CacheOptions): seq<(string, HeaderValue)>
    reads f
  {
    var hs := RepresentationHeaders(f, collab, cache);
    hs[..FirstRefused(hs)]
  }

  /** The error `setHeader` throws on the way through the five headers, if any. */
  function HeaderFailure(f: File, collab: Collaborators, cache: CacheOptions): Option<Error>
    reads f
  {
    var hs := RepresentationHeaders(f, collab, cache);
    var n := FirstRefused(hs);
    if n < |hs| then HeaderValueError(hs[n].1) else None
  }

  /** The effects of serving an existing file: the headers set, then the stream request unless a header was refused. */
  function ServeEvents(f: File, collab: Collaborators, cache: CacheOptions): seq<Event>
    reads f
  {
    HeaderEvents(AcceptedHeaders(f, collab, cache))
      + (if HeaderFailure(f, collab, cache).None? then [StoreCall(f.storage, ReadStreamOp, f.filename)] else [])
  }

  /** An optional string header that `setHeader` accepts: present, and made of header characters. */
  predicate AcceptsText(v: Option<string>)
  {
    v.Some? && HeaderText(v.value)
  }

  lemma HeaderTextConcat(a: string, b: string)
    ensures HeaderText(a + b) <==> HeaderText(a) && HeaderText(b)
  {
    if HeaderText(a) && HeaderText(b) {
      forall i | 0 <= i < |a + b| ensures IsHeaderChar((a + b)[i]) {
        if i >= |a| { assert (a + b)[i] == b[i - |a|]; }
      }
    }
    if HeaderText(a + b) {
      forall i | 0 <= i < |a| ensures IsHeaderChar(a[i]) {
        assert a[i] == (a + b)[i];
      }
      forall i | 0 <= i < |b| ensures IsHeaderChar(b[i]) {
        assert b[i] == (a + b)[|a| + i];
      }
    }
  }

  /** The `Cache-Control` value is accepted exactly when the configured directive is. */
  lemma CacheControlAccepted(c: CacheOptions)
    ensures HeaderText(CacheControl(c)) <==> HeaderText(c.cacheControl)
  {
    HeaderTextConcat("max-age=", Decimal(c.maxAge));
    HeaderTextConcat("max-age=" + Decimal(c.maxAge), ", ");
    HeaderTextConcat("max-age=" + Decimal(c.maxAge) + ", ", c.cacheControl);
  }

  /**
   * All five headers are set, and the stream is requested, exactly when the
   * handle has a length, an ETag and a modification date, a content type
   * is found, and every text value consists of characters Node accepts.
   */
  lemma HeaderFailureIff(f: File, collab: Collaborators, cache: CacheOptions)
    ensures HeaderFailure(f, collab, cache).None? <==>
      && f.ContentLength().Some?
      && AcceptsText(FileType(f, collab))
      && AcceptsText(f.ETag())
      && HeaderText(cache.cacheControl)
      && AcceptsText(f.LastModified())
    ensures HeaderFailure(f, collab, cache).None? ==> AcceptedHeaders(f, collab, cache) == RepresentationHeaders(f, collab, cache)
  {
    var hs := RepresentationHeaders(f, collab, cache);
    CacheControlAccepted(cache);
    assert HeaderValueError(hs[0].1).None? <==> f.ContentLength().Some?;
    assert HeaderValueError(hs[1].1).None? <==> AcceptsText(FileType(f, collab));
    assert HeaderValueError(hs[2].1).None? <==> AcceptsText(f.ETag());
    assert HeaderValueError(hs[3].1).None? <==> HeaderText(cache.cacheControl);
    assert HeaderValueError(hs[4].1).None? <==> AcceptsText(f.LastModified());
    if FirstRefused(hs) == 5 {
      assert hs[..5] == hs;
    } else {
      assert HeaderValueError(hs[FirstRefused(hs)].1).Some?;
    }
    if forall i | 0 <= i < 5 :: HeaderValueError(hs[i].1).None? {
      AcceptedAll(hs);
    }
  }

  /**
   * A record without a length refuses the first header: nothing is set.
   * A record with an accepted length and type but no ETag keeps the first
   * two headers and refuses the third.
   */
  lemma MissingMetadataStops(f: File, collab: Collaborators, cache: CacheOptions)
    ensures f.ContentLength().None? ==>
      HeaderFailure(f, collab, cache) == Some(InvalidHeaderValue) && AcceptedHeaders(f, collab, cache) == []
    ensures f.ContentLength().Some? && AcceptsText(FileType(f, collab)) && f.ETag().None? ==>
      && HeaderFailure(f, collab, cache) == Some(InvalidHeaderValue)
      && AcceptedHeaders(f, collab, cache)
         == [("Content-Length", NumberHeader(f.ContentLength())), ("Content-Type", TextHeader(FileType(f, collab)))]
  {
    var hs := RepresentationHeaders(f, collab, cache);
    if f.ContentLength().None? {
      RefusedAt(hs, 0);
    }
    if f.ContentLength().Some? && AcceptsText(FileType(f, collab)) && f.ETag().None? {
      RefusedAt(hs, 2);
    }
  }

  /** The headers before position `j` are accepted. */
  predicate AcceptedBelow(hs: seq<(string, HeaderValue)>, j: nat)
  {
    forall i :: 0 <= i < j && i < |hs| ==> HeaderValueError(hs[i].1).None?
  }

  lemma RefusedAt(hs: seq<(string, HeaderValue)>, j: nat)
    requires j < |hs| && AcceptedBelow(hs, j) && HeaderValueError(hs[j].1).Some?
    ensures FirstRefused(hs) == j
  {
  }

  lemma AcceptedAll(hs: seq<(string, HeaderValue)>)
    requires AcceptedBelow(hs, |hs|)
    ensures FirstRefused(hs) == |hs|
  {
  }

  /** Setting the header at `j` after the ones before it. */
  lemma AcceptedStep(h: map<string, HeaderValue>, es: seq<Event>, hs: seq<(string, HeaderValue)>, j: nat)
    requires j < |hs| && AcceptedBelow(hs, j) && HeaderValueError(hs[j].1).None?
    ensures AcceptedBelow(hs, j + 1)
    ensures (h + HeaderMap(hs[..j]))[hs[j].0 := hs[j].1] == h + HeaderMap(hs[..j + 1])
    ensures es + HeaderEvents(hs[..j]) + [HeaderSet(hs[j].0, hs[j].1)] == es + HeaderEvents(hs[..j + 1])
  {
    HeaderMapStep(hs, j);
    assert hs[..j + 1][..j] == hs[..j];
  }

  /** `res`: only the headers the reader sets are modelled. */
  class Response {
    var headers: map<string, HeaderValue>

    constructor ()
      ensures headers == map[]
    {
      headers := map[];
    }

    /** `res.setHeader`: a refused value throws, and then nothing is set. */
    method SetHeader(name: string, value: HeaderValue, trace: Trace) returns (thrown: Option<Error>)
      modifies this, trace
      ensures thrown == HeaderValueError(value)
      ensures thrown.None? ==> headers == old(headers)[name := value]
      ensures thrown.None? ==> trace.events == old(trace.events) + [HeaderSet(name, value)]
      ensures thrown.Some? ==> headers == old(headers) && trace.events == old(trace.events)
    {
      thrown := HeaderValueError(value);
      if thrown.None? {
        headers := headers[name := value];
        trace.Emit(HeaderSet(name, value));
      }
    }
  }

  /**
   * One `setHeader` call, made after the headers before position `j` were
   * set. It sets `hs[j]`, or throws, and then it is the first refusal.
   */
  method SetHeaderAt(res: Response, name: string, value: HeaderValue, trace: Trace,
                     ghost hs: seq<(string, HeaderValue)>, ghost j: nat,
                     ghost h: map<string, HeaderValue>, ghost es: seq<Event>)
    returns (thrown: Option<Error>)
    requires j < |hs| && hs[j] == (name, value) && AcceptedBelow(hs, j)
    requires res.headers == h + HeaderMap(hs[..j]) && trace.events == es + HeaderEvents(hs[..j])
    modifies res, trace
    ensures thrown == HeaderValueError(value)
    ensures thrown.None? ==> AcceptedBelow(hs, j + 1)
    ensures thrown.None? ==>
      res.headers == h + HeaderMap(hs[..j + 1]) && trace.events == es + HeaderEvents(hs[..j + 1])
    ensures thrown.Some? ==>
      FirstRefused(hs) == j && res.headers == h + HeaderMap(hs[..j]) && trace.events == es + HeaderEvents(hs[..j])
  {
    thrown := res.SetHeader(name, value, trace);
    if thrown.Some? {
      RefusedAt(hs, j);
    } else {
      AcceptedStep(h, es, hs, j);
    }
  }

  /** The five `setHeader` calls, stopping at the first one that throws. */
  method SetRepresentationHeaders(file: File, collab: Collaborators, cache: CacheOptions, res: Response, trace: Trace)
    returns (thrown: Option<Error>)
    modifies res, trace
    ensures thrown == HeaderFailure(file, collab, cache)
    ensures res.headers == old(res.headers) + HeaderMap(AcceptedHeaders(file, collab, cache))
    ensures trace.events == old(trace.events) + HeaderEvents(AcceptedHeaders(file, collab, cache))
  {
    ghost var hs := RepresentationHeaders(file, collab, cache);
    ghost var h, es := res.headers, trace.events;
    assert hs[..0] == [];
    var fileType := FileType(file, collab);
    thrown := SetHeaderAt(res, "Content-Length", NumberHeader(file.ContentLength()), trace, hs, 0, h, es);
    if thrown.Some? {
      return;
    }
    thrown := SetHeaderAt(res, "Content-Type", TextHeader(fileType), trace, hs, 1, h, es);
    if thrown.Some? {
      return;
    }
    thrown := SetHeaderAt(res, "Etag", TextHeader(file.ETag()), trace, hs, 2, h, es);
    if thrown.Some? {
      return;
    }
    thrown := SetHeaderAt(res, "Cache-Control", TextValue(CacheControl(cache)), trace, hs, 3, h, es);
    if thrown.Some? {
      return;
    }
    thrown := SetHeaderAt(res, "Last-Modified", TextHeader(file.LastModified()), trace, hs, 4, h, es);
    if thrown.None? {
      AcceptedAll(hs);
    }
  }

  /**
   * The middleware. `streamAnswer` is what the store answers to the stream
   * request; its `failure` is the error the stream emits while piping. An
   * error thrown by `setHeader` reaches `next`, as Express does with an
   * exception thrown by a middleware.
   */
  method Read(amaging: Amaging, res: Response, collab: Collaborators,
              streamAnswer: Result<Stream, Error>, trace: Trace) returns (k: Continuation)
    modifies res, trace
    ensures !amaging.file.Exists() ==> k == Next(Some(FileNotFound))
    ensures !amaging.file.Exists() ==> res.headers == old(res.headers) && trace.events == old(trace.events)
    ensures amaging.file.Exists() ==>
      res.headers == old(res.headers) + HeaderMap(AcceptedHeaders(amaging.file, collab, amaging.cache))
    ensures amaging.file.Exists() ==>
      trace.events == old(trace.events) + ServeEvents(amaging.file, collab, amaging.cache)
    ensures amaging.file.Exists() && HeaderFailure(amaging.file, collab, amaging.cache).Some? ==>
      k == Next(HeaderFailure(amaging.file, collab, amaging.cache))
    ensures amaging.file.Exists() && HeaderFailure(amaging.file, collab, amaging.cache).None? ==>
      && (streamAnswer.Err? ==> k == Next(Some(streamAnswer.error)))
      && (streamAnswer.Ok? && streamAnswer.value.failure.None? ==> k == Piped)
      && (streamAnswer.Ok? && streamAnswer.value.failure.Some? ==>
            k == Next(Some(ClassifyStreamError(streamAnswer.value.failure.value))))
  {
    var file := amaging.file;
    if !file.Exists() {
      return Next(Some(FileNotFound));
    }
    var thrown := SetRepresentationHeaders(file, collab, amaging.cache, res, trace);
    if thrown.Some? {
      return Next(thrown);
    }
    var stream := file.RequestReadStream(streamAnswer, trace);
    if stream.Err? {
      return Next(Some(stream.error));
    }
    if stream.value.failure.Some? {
      return Next(Some(ClassifyStreamError(stream.value.failure.value)));
    }
    return Piped;
  }
}
