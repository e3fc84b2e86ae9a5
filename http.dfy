/** Values the service worker exchanges with its host: intercepted requests,
    response snapshots, the outcome of one network fetch, what a fetch handler
    hands back to the page, and the commands a handler emits to the host. */
module Http {

  datatype Option<+T> = None | Some(value: T)

  newtype byte = x: int | 0 <= x < 256

  /** The request modes of the Fetch standard; the workers only ever ask
      whether a request is a navigation. */
  datatype Mode = Navigate | SameOrigin | NoCors | Cors

  /** An intercepted request. `url` is the cache key; `sameOrigin` stands for
      the comparison of the URL's origin with the worker's own origin;
      `verb` is the HTTP method; `body` is None when the request has no body */
  datatype Request = Request(
    verb: string,
    url: string,
    mode: Mode,
    destination: string,
    sameOrigin: bool,
    headers: map<string, string>,
    body: Option<seq<byte>>)

  /** A response snapshot: status, whether it is opaque (cross-origin, status
      and body hidden), header map and body bytes. */
  datatype Response = Response(
    status: int,
    isOpaque: bool,
    headers: map<string, string>,
    body: seq<byte>)

  /** What the network does with one fetch: the promise rejects, or it
      resolves with a response of any status (an HTTP error is not a failure). */
  datatype Attempt = Failed | Answered(response: Response)

  /** What a fetch handler gives the page. PassThrough: respondWith is never
      called and the browser performs the request itself. Respond(answer):
      the value the promise passed to respondWith settles to; None stands for
      a promise that resolves to undefined or rejects, which the page sees as
      a network error. */
  datatype Reply = PassThrough | Respond(answer: Option<Response>)

  /** Host commands the handlers emit; their effect on the host is not part
      of the model. */
  datatype Command = SkipWaiting | ClaimClients | RegisterSync(tag: string)

  /** The bytes of a text the workers build from ASCII characters only, for
      which the UTF-8 encoding is one byte per character. */
  function AsciiBytes(s: string): (b: seq<byte>)
    ensures |b| == |s|
    ensures forall i | 0 <= i < |s| && s[i] as int < 128 :: b[i] as int == s[i] as int
  {
    seq(|s|, i requires 0 <= i < |s| => (s[i] as int % 256) as byte)
  }
}
