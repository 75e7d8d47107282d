/**
  The `GET /video` handler: from the `Range` request header and the video file it computes an inclusive byte
  window, the 206 response head and the body, a slice of the file. The client's end bound is ignored, a start
  past the end of the file is not rejected, and a chunk runs up to `CHUNK_SIZE` bytes past the start.
 */
module VideoRoute {
  import opened Wrappers
  import opened Decimal
  import opened RangeRequest
  import opened ContentRangeHeader

  newtype byte = b: int | 0 <= b < 256

  /** 10 ** 6, the most bytes the window may extend past its start. */
  const CHUNK_SIZE: nat := 1000000

  const MISSING_RANGE_MESSAGE: string := "Range header is required."

  function Min(a: int, b: int): int {
    if a <= b then a else b
  }

  /** The last byte served for a request starting at `start`: `Math.min(start + CHUNK_SIZE, size - 1)`. */
  function ChunkEnd(start: nat, size: nat): (end: int)
    ensures end <= size - 1 && end <= start + CHUNK_SIZE
    ensures end == size - 1 || end == start + CHUNK_SIZE
  {
    Min(start + CHUNK_SIZE, size - 1)
  }

  /** An inclusive byte window; it is empty or inverted when `end < start`. */
  datatype Window = Window(start: nat, end: int) {
    function Length(): int {
      end - start + 1
    }
  }

  /** The status and headers the route passes to `writeHead`. */
  datatype Head = Head(status: nat, contentRange: string, acceptRanges: string, contentLength: int, contentType: string)

  /** The client-error reply: a status and the `message` of its JSON body. */
  datatype Rejection = Rejection(status: nat, message: string)

  datatype Negotiated = Negotiated(window: Window, head: Head)

  /** The 206 head for a window of a file of `size` bytes. */
  function PartialHead(w: Window, size: nat): (h: Head)
    ensures h.status == 206
    ensures h.contentRange == "bytes " + Show(w.start) + "-" + ShowInt(w.end) + "/" + Show(size)
    ensures Parse(h.contentRange) == Some(ContentRange(w.start, w.end, size))
    ensures h.contentLength == w.end - w.start + 1
    ensures h.acceptRanges == "bytes" && h.contentType == "video/mp4"
  {
    var cr := ContentRange(w.start, w.end, size);
    ParseFormat(cr);
    Head(206, Format(cr), "bytes", w.Length(), "video/mp4")
  }

  /**
    The route's decision for a `Range` header (absent, or its text) and a file of `size` bytes. An absent or empty
    header is refused with 400; any other header yields a 206 head, even one whose start lies past the file.
    The head is what the route passes to `writeHead`; whether it reaches the client is decided when the read
    stream is opened (see `Serve`).
   */
  function Negotiate(range: Option<string>, size: nat): (r: Result<Negotiated, Rejection>)
    ensures r.Failure? <==> range.None? || range.value == ""
    ensures r.Failure? ==> r.error == Rejection(400, MISSING_RANGE_MESSAGE)
    ensures r.Success? ==>
      var w, h := r.value.window, r.value.head;
      && w.start == ParseStart(range.value)
      && w.end <= size - 1
      && w.end <= w.start + CHUNK_SIZE
      && (w.end == size - 1 || w.end == w.start + CHUNK_SIZE)
      && h.status == 206
      && h.contentRange == "bytes " + Show(w.start) + "-" + ShowInt(w.end) + "/" + Show(size)
      && Parse(h.contentRange) == Some(ContentRange(w.start, w.end, size))
      && h.acceptRanges == "bytes"
      && h.contentType == "video/mp4"
      && h.contentLength == w.end - w.start + 1
      && (w.start < size ==> w.start <= w.end && 1 <= h.contentLength <= CHUNK_SIZE + 1)
      && (w.start >= size ==> w.end < w.start && h.contentLength <= 0)
  {
    if range.None? || range.value == "" then
      Failure(Rejection(400, MISSING_RANGE_MESSAGE))
    else
      var start := ParseStart(range.value);
      var w := Window(start, ChunkEnd(start, size));
      Success(Negotiated(w, PartialHead(w, size)))
  }

  /**
    Whether `createReadStream(path, { start, end })` accepts the window: Node.js throws a range error from the
    stream's constructor when `end` is negative or `start` exceeds `end`.
   */
  predicate ReadStreamOpens(w: Window) {
    0 <= w.end && w.start <= w.end
  }

  /** The bytes a read stream over `file` from `w.start` to `w.end`, both inclusive, yields. */
  function Body(file: seq<byte>, w: Window): (body: seq<byte>)
    requires w.start <= w.end < |file|
    ensures |body| == w.Length()
    ensures forall i :: 0 <= i < |body| ==> body[i] == file[w.start + i]
  {
    file[w.start..w.end + 1]
  }

  /**
    How a request ends: the 400 rejection, or a 206 head with the window's bytes, or `Overrun`. In `Overrun` the
    route has computed a head and passed it to `writeHead`, but the read stream refuses the window and throws.
    Node.js sends a head only with the first body write, so nothing reaches the client, and nothing handles the
    rejected promise of the handler.
   */
  datatype Reply =
    | Rejected(rejection: Rejection)
    | Partial(head: Head, window: Window, body: seq<byte>)
    | Overrun(head: Head, window: Window)

  /** The whole handler for a file whose size is its length. */
  function Serve(file: seq<byte>, range: Option<string>): (reply: Reply)
    ensures reply.Rejected? <==> range.None? || range.value == ""
    ensures reply.Rejected? ==> reply.rejection == Rejection(400, MISSING_RANGE_MESSAGE)
    ensures !reply.Rejected? ==>
      Negotiate(range, |file|) == Success(Negotiated(reply.window, reply.head))
    ensures reply.Partial? <==> !reply.Rejected? && ParseStart(range.value) < |file|
    ensures reply.Partial? ==>
      && reply.window.end < |file|
      && |reply.body| == reply.head.contentLength
      && reply.body == file[reply.window.start..reply.window.end + 1]
    ensures reply.Overrun? <==> !reply.Rejected? && !ReadStreamOpens(reply.window)
    ensures reply.Overrun? ==> reply.window.end < reply.window.start && reply.head.contentLength <= 0
  {
    var n := Negotiate(range, |file|);
    if n.Failure? then Rejected(n.error)
    else
      var w, h := n.value.window, n.value.head;
      assert ReadStreamOpens(w) <==> w.start < |file|;
      if ReadStreamOpens(w) then Partial(h, w, Body(file, w)) else Overrun(h, w)
  }

  /**
    The first request for a 2,500,000-byte video: the window runs to byte 1,000,000, so the chunk holds
    1,000,001 bytes, one more than `CHUNK_SIZE`.
   */
  lemma ExampleFirstChunk()
    ensures
      var r := Negotiate(Some("bytes=0-"), 2500000);
      && r.Success?
      && r.value.window == Window(0, 1000000)
      && r.value.head.contentLength == 1000001
  {
    assert Show(0) == "0";
    assert "bytes=0-" == RequestHeader(0) + "";
    ParseStartOfRequest(0, "");
  }

  /** Near the end of the same video the window stops at its last byte. */
  lemma ExampleLastChunk()
    ensures
      var r := Negotiate(Some("bytes=2400000-"), 2500000);
      && r.Success?
      && r.value.window == Window(2400000, 2499999)
      && r.value.head.contentLength == 100000
  {
    ShowExampleStarts();
    assert "bytes=2400000-" == RequestHeader(2400000) + "";
    ParseStartOfRequest(2400000, "");
  }

  /**
    A start past the end of a 2,500,000-byte video still gets a 206 head passed to `writeHead`, with a window
    that runs backwards.
   */
  lemma ExampleStartPastEnd()
    ensures
      var r := Negotiate(Some("bytes=3000000-"), 2500000);
      && r.Success?
      && r.value.head.status == 206
      && r.value.window == Window(3000000, 2499999)
      && r.value.head.contentLength == -500000
  {
    ShowExampleStarts();
    assert "bytes=3000000-" == RequestHeader(3000000) + "";
    ParseStartOfRequest(3000000, "");
  }

  /** An empty `Range` header is refused like a missing one. */
  lemma ExampleEmptyHeader()
    ensures Serve([], Some("")) == Rejected(Rejection(400, "Range header is required."))
  {
  }
}
