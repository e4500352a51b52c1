/** The file action result of the System.Web generation: it answers 304
    with content suppressed when the client's If-Modified-Since equals the
    file's last write time truncated to whole seconds; otherwise it sets the
    MIME type and writes the file, leaving the status as it was. */
module LegacyFileResult {
  import opened Common

  /** What a response holds: the status, whether content is suppressed, the
      content type, the Last-Modified cache setting and the files written. */
  datatype ResponseState = ResponseState(
    statusCode: int,
    suppressContent: bool,
    contentType: Option<string>,
    lastModified: Option<nat>,
    writtenFiles: seq<string>)

  /** The response after `WriteResponse` on a file last written at
      `lastWriteTime` whose MIME mapping is `mime`. */
  function Respond(before: ResponseState, filePath: string, ifModifiedSince: Option<nat>,
                   lastWriteTime: nat, mime: string): ResponseState
  {
    var lastModified := Truncate(lastWriteTime);
    if ifModifiedSince.Some? && ifModifiedSince.value == lastModified then
      ResponseState(304, true, before.contentType, Some(lastModified), before.writtenFiles)
    else
      ResponseState(before.statusCode, before.suppressContent, Some(mime), Some(lastModified),
        before.writtenFiles + [filePath])
  }

  /** 304 with content suppressed and the content type untouched iff the
      client's time is exactly the truncated write time; otherwise the status
      is untouched, the content type set and the file appended. */
  lemma NotModifiedIff(before: ResponseState, filePath: string, ifModifiedSince: Option<nat>,
                       lastWriteTime: nat, mime: string)
    requires before.statusCode != 304
    ensures var r := Respond(before, filePath, ifModifiedSince, lastWriteTime, mime);
      (r.statusCode == 304 <==> ifModifiedSince == Some(Truncate(lastWriteTime))) &&
      (r.statusCode == 304 ==>
        r.suppressContent && r.contentType == before.contentType && r.writtenFiles == before.writtenFiles) &&
      (r.statusCode != 304 ==>
        r.statusCode == before.statusCode && r.contentType == Some(mime) &&
        r.writtenFiles == before.writtenFiles + [filePath]) &&
      r.lastModified == Some(Truncate(lastWriteTime))
  {
  }

  /** A client that sends back the Last-Modified it received gets 304 while
      the file is unchanged. */
  lemma RevalidationRoundTrip(first: ResponseState, second: ResponseState, filePath: string,
                              ifModifiedSince: Option<nat>, lastWriteTime: nat, mime: string)
    ensures var r := Respond(first, filePath, ifModifiedSince, lastWriteTime, mime);
      Respond(second, filePath, r.lastModified, lastWriteTime, mime).statusCode == 304
  {
  }

  /** The HTTP response the result is written to; a fresh one is 200 with content. */
  class HttpResponse {
    var statusCode: int
    var suppressContent: bool
    var contentType: Option<string>
    var lastModified: Option<nat>
    var writtenFiles: seq<string>

    function State(): ResponseState
      reads this
    {
      ResponseState(statusCode, suppressContent, contentType, lastModified, writtenFiles)
    }

    constructor ()
      ensures State() == ResponseState(200, false, None, None, [])
    {
      statusCode := 200;
      suppressContent := false;
      contentType := None;
      lastModified := None;
      writtenFiles := [];
    }
  }

  class FileResult {
    var filePath: string
    var ifModifiedSince: Option<nat>

    /** `ifModifiedSince` is None when the client sent no header. */
    constructor (path: string, ifModifiedSince: Option<nat>)
      ensures filePath == path && this.ifModifiedSince == ifModifiedSince
    {
      filePath := path;
      this.ifModifiedSince := ifModifiedSince;
    }

    /** `WriteResponse`; the file's write time and MIME mapping are inputs. */
    method WriteResponse(response: HttpResponse, lastWriteTime: nat, mime: string)
      modifies response
      ensures response.State() == Respond(old(response.State()), filePath, ifModifiedSince, lastWriteTime, mime)
    {
      var lastModified := Truncate(lastWriteTime);
      response.lastModified := Some(lastModified);
      if ifModifiedSince.Some? && ifModifiedSince.value == lastModified {
        response.statusCode := 304;
        response.suppressContent := true;
        return;
      }
      response.contentType := Some(mime);
      response.writtenFiles := response.writtenFiles + [filePath];
    }
  }
}
