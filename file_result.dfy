/** The file action result: it answers 304 Not Modified when the client's
    If-Modified-Since equals the file's last write time truncated to whole
    seconds, and otherwise 200 with the file as body. Only exact equality is
    tested, not the "not later than" rule of section 3.3 of RFC 7232. */
module FileResult {
  import opened Common

  /** What a response holds: the status, the content type, the Last-Modified
      header and the files written to the body, in order. */
  datatype ResponseState = ResponseState(
    statusCode: int,
    contentType: Option<string>,
    lastModified: Option<nat>,
    writtenFiles: seq<string>)

  /** The response after `WriteResponse` on a file last written at
      `lastWriteTime` whose MIME type is `mime`. */
  function Respond(before: ResponseState, filePath: string, ifModifiedSince: Option<nat>,
                   lastWriteTime: nat, mime: string): ResponseState
  {
    var lastModified := Truncate(lastWriteTime);
    if ifModifiedSince.Some? && ifModifiedSince.value == lastModified then
      ResponseState(304, Some(mime), Some(lastModified), before.writtenFiles)
    else
      ResponseState(200, Some(mime), Some(lastModified), before.writtenFiles + [filePath])
  }

  /** 304 with nothing written iff the client's time is exactly the
      truncated write time; otherwise 200 with the file appended. Last-Modified
      and the content type are set either way. */
  lemma NotModifiedIff(before: ResponseState, filePath: string, ifModifiedSince: Option<nat>,
                       lastWriteTime: nat, mime: string)
    ensures var r := Respond(before, filePath, ifModifiedSince, lastWriteTime, mime);
      (r.statusCode == 304 <==> ifModifiedSince == Some(Truncate(lastWriteTime))) &&
      (r.statusCode == 304 ==> r.writtenFiles == before.writtenFiles) &&
      (r.statusCode != 304 ==> r.statusCode == 200 && r.writtenFiles == before.writtenFiles + [filePath]) &&
      r.lastModified == Some(Truncate(lastWriteTime)) && r.contentType == Some(mime)
  {
  }

  /** A client time later than the file still gets the whole file. */
  lemma LaterTimeIsModified(before: ResponseState, filePath: string, lastWriteTime: nat, later: nat, mime: string)
    requires later >= lastWriteTime + TicksPerSecond
    ensures Respond(before, filePath, Some(later), lastWriteTime, mime).statusCode == 200
  {
  }

  /** A client that sends back the Last-Modified it received gets 304 while
      the file is unchanged, whatever the first request carried. */
  lemma RevalidationRoundTrip(first: ResponseState, second: ResponseState, filePath: string,
                              ifModifiedSince: Option<nat>, lastWriteTime: nat, mime: string)
    ensures var r := Respond(first, filePath, ifModifiedSince, lastWriteTime, mime);
      Respond(second, filePath, r.lastModified, lastWriteTime, mime).statusCode == 304
  {
  }

  /** The HTTP response the result is written to. */
  class HttpResponse {
    var statusCode: int
    var contentType: Option<string>
    var lastModified: Option<nat>
    var writtenFiles: seq<string>

    function State(): ResponseState
      reads this
    {
      ResponseState(statusCode, contentType, lastModified, writtenFiles)
    }

    constructor ()
      ensures State() == ResponseState(200, None, None, [])
    {
      statusCode := 200;
      contentType := None;
      lastModified := None;
      writtenFiles := [];
    }
  }

  class FileResult {
    var filePath: string
    var ifModifiedSince: Option<nat>

    /** `ifModifiedSince` is None when the client sent no header. */
    constructor (path: string, ifModifiedSince: Option<nat>)
      ensures filePath == path && this.ifModifiedSince == ifModifiedSince
    {
      filePath := path;
      this.ifModifiedSince := ifModifiedSince;
    }

    /** `WriteResponse`; the file's write time and MIME type are inputs. */
    method WriteResponse(response: HttpResponse, lastWriteTime: nat, mime: string)
      modifies response
      ensures response.State() == Respond(old(response.State()), filePath, ifModifiedSince, lastWriteTime, mime)
    {
      var lastModified := Truncate(lastWriteTime);
      response.lastModified := Some(lastModified);
      response.contentType := Some(mime);
      if ifModifiedSince.Some? && ifModifiedSince.value == lastModified {
        response.statusCode := 304;
        return;
      }
      response.statusCode := 200;
      response.writtenFiles := response.writtenFiles + [filePath];
    }
  }
}
