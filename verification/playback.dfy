/**
  A player streaming the whole video through the route: it asks for `bytes=<offset>-`, reads the last byte it was
  sent from the reply's `Content-Range`, and asks again from the byte after it, until the file is exhausted.
 */
module Playback {
  import opened Wrappers
  import opened Decimal
  import opened RangeRequest
  import opened ContentRangeHeader
  import opened VideoRoute

  /** Whatever answers a player's requests: the file it serves and the `Range` header it receives give the reply. */
  type Server = (seq<byte>, Option<string>) -> Reply

  /** How a player reads the numbers out of a `Content-Range` header. */
  type Reader = string -> Option<ContentRange>

  /** The offset after the last byte a reply advertises, as `reader` reads it from the `Content-Range` header. */
  function NextOffset(reply: Reply, reader: Reader): (next: Option<int>)
    ensures next.Some? ==> !reply.Rejected?
  {
    if reply.Rejected? then None
    else
      match reader(reply.head.contentRange)
      case Some(cr) => Some(cr.end + 1)
      case None => None
  }

  /**
    The replies a player collects from `from` on when it talks to `server`; it stops when an advertised range
    makes no progress or runs past the file.
   */
  function Session(file: seq<byte>, from: nat, server: Server, reader: Reader): (log: seq<Reply>)
    ensures |log| == 0 <==> from >= |file|
    decreases |file| - from
  {
    if from >= |file| then []
    else
      var reply := server(file, Some(RequestHeader(from)));
      var next := NextOffset(reply, reader);
      if next.Some? && from < next.value <= |file| then [reply] + Session(file, next.value as nat, server, reader)
      else [reply]
  }

  /** The bytes of a sequence of replies, in order. */
  function Bodies(log: seq<Reply>): seq<byte> {
    if log == [] then [] else (if log[0].Partial? then log[0].body else []) + Bodies(log[1..])
  }

  /** The reply the route gives to a request for the bytes from `from` on, in a file that has them. */
  ghost predicate AnswersChunk(file: seq<byte>, from: nat, reply: Reply, reader: Reader) {
    var next := ChunkEnd(from, |file|) + 1;
    && from < next <= |file|
    && reply.Partial?
    && reply.head.status == 206
    && reply.window == Window(from, next - 1)
    && reply.body == file[from..next]
    && NextOffset(reply, reader) == Some(next)
  }

  /** A server that answers every in-file request the way the route does. */
  ghost predicate ServesChunks(file: seq<byte>, server: Server, reader: Reader) {
    forall from: nat :: from < |file| ==> AnswersChunk(file, from, server(file, Some(RequestHeader(from))), reader)
  }

  /** The route answers every request inside the file with the chunk that starts there. */
  lemma {:induction false} RouteServesChunks(file: seq<byte>)
    ensures ServesChunks(file, Serve, Parse)
  {
    forall from: nat | from < |file|
      ensures AnswersChunk(file, from, Serve(file, Some(RequestHeader(from))), Parse)
    {
      ParseStartOfRequest(from, "");
      assert RequestHeader(from) + "" == RequestHeader(from);
    }
  }

  /** A session inside the file is its first reply followed by the session from the byte after that reply's window. */
  lemma SessionUnfold(file: seq<byte>, from: nat, server: Server, reader: Reader)
    requires ServesChunks(file, server, reader) && from < |file|
    ensures
      var reply := server(file, Some(RequestHeader(from)));
      && AnswersChunk(file, from, reply, reader)
      && Session(file, from, server, reader) == [reply] + Session(file, ChunkEnd(from, |file|) + 1, server, reader)
  {
  }

  /** The i-th reply of a session is a 206 with bytes, and the first one starts at `from`. */
  lemma {:induction false} SessionAtPartial(file: seq<byte>, from: nat, server: Server, reader: Reader, i: nat)
    requires ServesChunks(file, server, reader) && from < |file| && i < |Session(file, from, server, reader)|
    ensures
      var log := Session(file, from, server, reader);
      && log[i].Partial?
      && log[i].head.status == 206
      && (i == 0 ==> log[i].window.start == from)
    decreases i
  {
    SessionUnfold(file, from, server, reader);
    if i > 0 {
      var next := ChunkEnd(from, |file|) + 1;
      assert Session(file, from, server, reader)[i] == Session(file, next, server, reader)[i - 1];
      SessionAtPartial(file, next, server, reader, i - 1);
    }
  }

  /** Each reply of a session but the last is followed by one that starts right after its window. */
  lemma {:induction false} SessionAtNext(file: seq<byte>, from: nat, server: Server, reader: Reader, i: nat)
    requires ServesChunks(file, server, reader) && from < |file| && i + 1 < |Session(file, from, server, reader)|
    ensures
      var log := Session(file, from, server, reader);
      && log[i].Partial? && log[i + 1].Partial?
      && log[i + 1].window.start == log[i].window.end + 1
    decreases i
  {
    SessionUnfold(file, from, server, reader);
    var next := ChunkEnd(from, |file|) + 1;
    var log := Session(file, from, server, reader);
    var rest := Session(file, next, server, reader);
    if i == 0 {
      SessionUnfold(file, next, server, reader);
      assert log[1] == rest[0];
    } else {
      assert log[i] == rest[i - 1] && log[i + 1] == rest[i];
      SessionAtNext(file, next, server, reader, i - 1);
    }
  }

  /** The last reply of a session ends with the last byte of the file. */
  lemma {:induction false} SessionAtLast(file: seq<byte>, from: nat, server: Server, reader: Reader)
    requires ServesChunks(file, server, reader) && from < |file|
    ensures
      var log := Session(file, from, server, reader);
      log[|log| - 1].Partial? && log[|log| - 1].window.end == |file| - 1
    decreases |file| - from
  {
    SessionUnfold(file, from, server, reader);
    var next := ChunkEnd(from, |file|) + 1;
    var log := Session(file, from, server, reader);
    var rest := Session(file, next, server, reader);
    if next < |file| {
      SessionAtLast(file, next, server, reader);
      assert log[|log| - 1] == rest[|rest| - 1];
    } else {
      assert |log| == 1;
    }
  }

  /** Every reply of a session with a server that answers like the route is a 206 that carries bytes. */
  lemma SessionAllPartial(file: seq<byte>, from: nat, server: Server, reader: Reader)
    requires ServesChunks(file, server, reader) && from < |file|
    ensures
      var log := Session(file, from, server, reader);
      forall i :: 0 <= i < |log| ==> log[i].Partial? && log[i].head.status == 206
  {
    var log := Session(file, from, server, reader);
    forall i | 0 <= i < |log|
      ensures log[i].Partial? && log[i].head.status == 206
    {
      SessionAtPartial(file, from, server, reader, i);
    }
  }

  /**
    The windows of a session with a server that answers like the route start at `from`, follow one another
    without gap or overlap, and the last ends with the last byte of the file.
   */
  lemma SessionTiles(file: seq<byte>, from: nat, server: Server, reader: Reader)
    requires ServesChunks(file, server, reader) && from < |file|
    ensures
      var log := Session(file, from, server, reader);
      && (forall i :: 0 <= i < |log| ==> log[i].Partial?)
      && log[0].window.start == from
      && (forall i :: 0 < i < |log| ==> log[i].window.start == log[i - 1].window.end + 1)
      && log[|log| - 1].window.end == |file| - 1
  {
    var log := Session(file, from, server, reader);
    SessionAllPartial(file, from, server, reader);
    SessionAtPartial(file, from, server, reader, 0);
    SessionAtLast(file, from, server, reader);
    forall i | 0 < i < |log|
      ensures log[i].window.start == log[i - 1].window.end + 1
    {
      SessionAtNext(file, from, server, reader, i - 1);
    }
  }

  /**
    A player streaming the route's video from 0 gets only 206 replies with bytes; their windows start at 0, follow
    one another without gap or overlap, and the last one ends with the last byte of the file.
   */
  lemma PlaybackTiles(file: seq<byte>)
    requires |file| > 0
    ensures
      var log := Session(file, 0, Serve, Parse);
      && (forall i :: 0 <= i < |log| ==> log[i].Partial? && log[i].head.status == 206)
      && log[0].window.start == 0
      && (forall i :: 0 < i < |log| ==> log[i].window.start == log[i - 1].window.end + 1)
      && log[|log| - 1].window.end == |file| - 1
  {
    RouteServesChunks(file);
    SessionAllPartial(file, 0, Serve, Parse);
    SessionTiles(file, 0, Serve, Parse);
  }

  /** Concatenating the bodies of a session from `from` gives the file from `from` on, byte for byte. */
  lemma {:induction false} SessionReassembles(file: seq<byte>, from: nat, server: Server, reader: Reader)
    requires ServesChunks(file, server, reader) && from <= |file|
    ensures Bodies(Session(file, from, server, reader)) == file[from..]
    decreases |file| - from
  {
    if from < |file| {
      SessionUnfold(file, from, server, reader);
      var next := ChunkEnd(from, |file|) + 1;
      var log := Session(file, from, server, reader);
      SessionReassembles(file, next, server, reader);
      assert log == [log[0]] + log[1..];
      assert file[from..] == file[from..next] + file[next..];
    }
  }

  /** A player that starts at 0 and follows the route's `Content-Range` headers receives the whole video. */
  lemma PlaybackReassemblesFile(file: seq<byte>)
    ensures Bodies(Session(file, 0, Serve, Parse)) == file
  {
    RouteServesChunks(file);
    SessionReassembles(file, 0, Serve, Parse);
  }

  /** Rounding up `n / (CHUNK_SIZE + 1)` counts one for the first chunk and rounds up what is left after it. */
  lemma CeilingStep(n: nat)
    requires n >= 1
    ensures (n + CHUNK_SIZE) / (CHUNK_SIZE + 1)
      == 1 + (if n > CHUNK_SIZE + 1 then (n - (CHUNK_SIZE + 1) + CHUNK_SIZE) / (CHUNK_SIZE + 1) else 0)
  {
    if n > CHUNK_SIZE + 1 {
      assert n + CHUNK_SIZE == (n - (CHUNK_SIZE + 1) + CHUNK_SIZE) + (CHUNK_SIZE + 1);
    } else {
      assert CHUNK_SIZE + 1 <= n + CHUNK_SIZE < 2 * (CHUNK_SIZE + 1);
    }
  }

  /** With a server that answers like the route, a session needs one request per `CHUNK_SIZE + 1` bytes, rounded up. */
  lemma {:induction false} SessionLength(file: seq<byte>, from: nat, server: Server, reader: Reader)
    requires ServesChunks(file, server, reader) && from <= |file|
    ensures |Session(file, from, server, reader)| == (|file| - from + CHUNK_SIZE) / (CHUNK_SIZE + 1)
    decreases |file| - from
  {
    if from < |file| {
      SessionUnfold(file, from, server, reader);
      var next := ChunkEnd(from, |file|) + 1;
      SessionLength(file, next, server, reader);
      CeilingStep(|file| - from);
    }
  }


  /** A player streaming the route's video from 0 sends one request per `CHUNK_SIZE + 1` bytes, rounded up. */
  lemma PlaybackRequestCount(file: seq<byte>)
    ensures |Session(file, 0, Serve, Parse)| == (|file| + CHUNK_SIZE) / (CHUNK_SIZE + 1)
  {
    RouteServesChunks(file);
    SessionLength(file, 0, Serve, Parse);
  }
}
