# Byte-range video route, modelled in Dafny

The service streams one video over HTTP. Its only real logic is the `GET /video` handler in `src/routes.ts`. The
handler reads the `Range` request header and the size of the video file. From those it computes an inclusive byte
window, sends a `206 Partial Content` head (`Content-Range`, `Accept-Ranges`, `Content-Length`, `Content-Type`),
and then streams that window of the file. A missing header is refused with `400` and the JSON message
`Range header is required.`.

The model is a set of pure functions over `string`, `nat` and `seq<byte>`. The file is a byte sequence, its size is
its length, and the streamed body is a slice of it.

- `Decimal` covers digit strings and numbers. It models `Number(...)` applied to a string of ASCII digits, and the
  rendering of a number inside a template literal.
- `RangeRequest` covers reading the start offset out of the `Range` header. The text before the first `-` is kept
  (`split("-")[0]`), then every character that is not a digit is dropped (`replace(/\D/g, "")`), and the digits
  are read as a number.
- `ContentRangeHeader` formats `bytes <start>-<end>/<size>`. It also has an independent reader for that text.
- `VideoRoute` holds `CHUNK_SIZE = 10 ** 6` and the end computation `min(start + CHUNK_SIZE, size - 1)`. It also
  holds the 206 head, the 400 rejection, the body slice and the whole handler `Serve`.
- `Playback` models a player that follows the route. It asks for `bytes=<offset>-`, reads the last byte it was
  sent from `Content-Range`, and asks again from the next byte. The player is parameterised by the server it talks
  to and by its `Content-Range` reader. The main theorems instantiate them with `Serve` and `Parse`.

The model follows the code as written, also where it departs from the usual range-request rules (section 2.1 of
RFC 7233 for the `bytes=` syntax, sections 4.1 and 4.2 for 206 and `Content-Range`):

- **The client's end bound is ignored.** `bytes=2400000-999` starts at 2400000 and ends where the server decides.
- **The chunk is one byte longer than `CHUNK_SIZE`.** The comment at `src/routes.ts:29-30` calls the chunk size
  the maximum length of the content sent. The window is inclusive and ends at `start + 10^6`, so it can hold
  `10^6 + 1` bytes. A request for `bytes=0-` on a 2,500,000-byte file gets bytes 0 to 1,000,000
  (`Content-Length: 1000001`). A full playback therefore takes one request per 1,000,001 bytes.
- **A start at or past the end of the file is not checked.** There is no 416. The route computes a 206 head and
  passes it to `writeHead`. Its window runs backwards (`end < start`), and its `Content-Length` is zero or
  negative. Then `createReadStream` throws, because its `start` exceeds its `end` (and its `end` is `-1` when the
  file is empty). `writeHead` only stores the head, and Node.js sends it with the first body write, so nothing
  reaches the client. The model calls this outcome `Overrun`. It carries the computed head and window but no body.
- **Malformed headers are not refused.** Only non-digits are dropped, so any non-empty header gets a start.
  `bytes=-500` and `nonsense` both start at 0.
- **An empty `Range` header is refused like a missing one**, because `!headers.range` also holds for `""`.

## Model

| member | source | states |
|---|---|---|
| `Decimal.Value` | src/routes.ts:34 | The number a digit string denotes has fewer digits than the string: it is below `10^length`, and the empty string denotes 0. |
| `Decimal.Show` | src/routes.ts:44 | A number is rendered as a non-empty digit string. It starts with `0` exactly when the number is 0, so there are no leading zeros. |
| `Decimal.ShowInt` | src/routes.ts:44 | An integer is rendered with a leading `-` exactly when it is negative, and digits after that. This is how a negative end such as `-1` appears in `Content-Range`. |
| `Decimal.ValueAppend` | src/routes.ts:34 | Reading `a + b` as digits gives `Value(a) * 10^|b| + Value(b)`: each digit weighs by its position. |
| `Decimal.ValueLeadingZeros` | src/routes.ts:34 | Leading zeros do not change the number, so `bytes=007-` starts at 7. |
| `Decimal.ValueOfShow` | src/routes.ts:34 | Reading a rendered number back as digits gives the number. |
| `Decimal.ParseIntOfShowInt` | src/routes.ts:44 | Reading a rendered integer back, sign included, gives the integer. |
| `RangeRequest.Before` | src/routes.ts:34 | `split("-")[0]` is a prefix of the header that contains no `-`. It is either the whole header or is followed by a `-`, so it is the text before the first `-`. |
| `RangeRequest.BeforeFirst` | src/routes.ts:34 | For a text `a` without the separator, splitting `a + sep + b` gives back exactly `a`, whatever `b` is. |
| `RangeRequest.KeepDigits` | src/routes.ts:34 | `replace(/\D/g, "")` leaves only digits and never lengthens the text. It keeps an all-digit text unchanged and empties a text without digits. |
| `RangeRequest.KeepDigitsAppend` | src/routes.ts:34 | Dropping non-digits commutes with concatenation, so the digits keep their order and each one survives. |
| `RangeRequest.ParseStart` | src/routes.ts:34 | The start is a natural number with no more digits than there are characters before the first `-`. |
| `RangeRequest.ParseStartIgnoresEnd` | src/routes.ts:34 | Everything after the first `-`, a client end bound included, has no effect on the start. |
| `RangeRequest.ParseStartWithoutDigits` | src/routes.ts:34 | With no digit before the first `-`, the start is 0 (`Number("")`). |
| `RangeRequest.ParseStartOfRequest` | src/routes.ts:34 | A header `bytes=<n>-<anything>` is read as start `n`, for every `n`. |
| `RangeRequest.ExampleEndBoundIgnored` | src/routes.ts:34 | `bytes=2400000-999` starts at 2400000. |
| `RangeRequest.ExampleSuffixRange` | src/routes.ts:34 | `bytes=-500` starts at 0. |
| `ContentRangeHeader.Format` | src/routes.ts:44 | The template literal `bytes ${start}-${end}/${size}` always begins with `bytes `. Its partner `ParseFormat` shows that the rest reads back as the three numbers. |
| `ContentRangeHeader.ParseFormat` | src/routes.ts:44 | Reading the formatted `bytes <start>-<end>/<size>` gives back exactly those three numbers, a negative end included. |
| `VideoRoute.ChunkEnd` | src/routes.ts:31-38 | The end is at most `size - 1` and at most `start + 10^6`, and it equals one of them: it is their minimum. |
| `VideoRoute.PartialHead` | src/routes.ts:43-48 | The head has status 206, `Accept-Ranges: bytes` and `Content-Type: video/mp4`. `Content-Length` is `end - start + 1`. `Content-Range` is the text `bytes <start>-<end>/<size>`, with each number in its shortest rendering. It reads back as exactly the window's start and end and the file size. |
| `VideoRoute.Negotiate` | src/routes.ts:16-48 | The route refuses exactly the absent or empty header, with 400 and the fixed message, and then computes no window. Otherwise the window starts at the parsed start and ends at or before both `size - 1` and `start + 10^6`, meeting one of them. If the start is inside the file, then `start <= end` and `Content-Length` is in `[1, 10^6 + 1]`. If it is not, then `end < start` and `Content-Length <= 0`. The head agrees with the window: its `Content-Range` is exactly `bytes <start>-<end>/<size>` and reads back as those numbers. |
| `VideoRoute.Body` | src/routes.ts:53 | The read window `{ start, end }` yields `end - start + 1` bytes, and byte `i` of the body is byte `start + i` of the file. |
| `VideoRoute.Serve` | src/routes.ts:16-54 | The whole handler. It gives a 400 exactly for an absent or empty header. Otherwise its head and window are the negotiated ones. It carries bytes exactly when the start is inside the file, and then the body is `file[start..end]` inclusive with length equal to `Content-Length`. Otherwise the read stream refuses the window (`Overrun`): the window is inverted and `Content-Length <= 0`. |
| `VideoRoute.ExampleFirstChunk` | src/routes.ts:31-38 | On a 2,500,000-byte file, `bytes=0-` gets the window 0 to 1,000,000 and `Content-Length: 1000001`. |
| `VideoRoute.ExampleLastChunk` | src/routes.ts:38 | On the same file, `bytes=2400000-` gets the window 2,400,000 to 2,499,999 and `Content-Length: 100000`. |
| `VideoRoute.ExampleStartPastEnd` | src/routes.ts:34-38 | On the same file, `bytes=3000000-` still gets a 206 head passed to `writeHead`, with the window 3,000,000 to 2,499,999 and `Content-Length: -500000`. |
| `VideoRoute.ExampleEmptyHeader` | src/routes.ts:19-21 | An empty `Range` header gets the 400 rejection. |
| `Playback.RouteServesChunks` | src/routes.ts:34-53 | For every offset inside the file, the reply to `bytes=<offset>-` is a 206 with bytes. Its window starts at the offset and ends at `ChunkEnd`, its body is that slice, and its `Content-Range` points the player to the byte after the window. |
| `Playback.SessionAllPartial` | src/routes.ts:43-53 | With any server that answers like the route, every reply of a session is a 206 that carries bytes. |
| `Playback.SessionTiles` | src/routes.ts:38 | With any server that answers like the route, the windows of a session start at the first offset and follow one another with no gap or overlap. The last window ends at `size - 1`. |
| `Playback.PlaybackTiles` | src/routes.ts:38-53 | A player that streams the route's video from 0 gets only 206 replies with bytes. Their windows start at 0, follow one another with no gap or overlap, and the last one ends at the file's last byte. |
| `Playback.SessionReassembles` | src/routes.ts:38-53 | With any server that answers like the route, the bodies of a session from `from` concatenate to `file[from..]`. |
| `Playback.PlaybackReassemblesFile` | src/routes.ts:38-53 | A player that starts at 0 and follows the route's `Content-Range` headers receives the whole file, byte for byte. |
| `Playback.SessionLength` | src/routes.ts:31-38 | With any server that answers like the route, a session from `from` takes `ceil((size - from) / (10^6 + 1))` requests. |
| `Playback.PlaybackRequestCount` | src/routes.ts:31-38 | A full playback from the route takes `ceil(size / (10^6 + 1))` requests. |

## Left out

- `src/server.ts` is not modelled. It creates the Express app, sets up logging, reads the port from the environment and listens; it has no logic.
- The `/` route (`src/routes.ts:9-12`) is not modelled. It only sends a static HTML file.
- The file path and `stat` (`src/routes.ts:25-26`) are not modelled. The file is an input, and its size is its length.
- Streaming is not modelled: `createReadStream(...).pipe(response)`, backpressure, cancellation on client disconnect, and asynchronous delivery. The body is the byte slice the read stream yields.
- For `Overrun` the model records only that the read stream refuses the window (`VideoRoute.ReadStreamOpens`, which states the two checks `createReadStream` makes). The thrown error itself is not modelled. It rejects the handler's promise, and nothing in the route handles that. What happens next is up to Node.js's policy for unhandled rejections. Node.js and Express are not part of this model.
- `Decimal.Value`: a digit string is read as an unbounded natural number. It does not model the rounding `Number(...)` does on strings longer than about 15 digits.
- `Decimal.Show`: it does not model the exponent notation JavaScript uses for numbers of 10^21 or more.
- `VideoRoute.Negotiate`: `start + CHUNK_SIZE` and `end - start + 1` are exact integers, not floating-point numbers.
- A `Range` header that arrives as an array of values is not modelled. The header is an optional string.
- The 400 reply is modelled as its status and the `message` field of its JSON body. The JSON serialisation is left out.
- The player in `Playback.Session` is a model of a client, not of the route. It stops as soon as a reply's advertised end makes no progress or runs past the file. With the route that never happens inside the file, as `Playback.RouteServesChunks` shows.
