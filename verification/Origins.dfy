/** Where records come from: HTTP requests and WebSocket frames (proxy.go:97-125, websocket.go:94-132). */
module Origins {
  import opened Common
  import opened JsonTree
  import opened Model
  import opened Extractor
  import B = BodyCapture
  import H = HttpCapture
  import F = FrameRelay

  datatype Origin =
    | Http(request: H.Request)
    | Ws(connection: F.Connection, frame: F.Frame, stamp: F.Stamp, fallbackModel: string)

  function BodyPayload(s: H.Settings, r: H.Request): Payload {
    H.PayloadOf(s, r.contentType, B.Readable(r.body).0)
  }

  /** The record that an origin gives rise to, if it does. */
  function RecordFrom(s: H.Settings, o: Origin): Option<CaptureRecord> {
    match o
    case Http(r) => H.Offered(s, r)
    case Ws(c, f, stamp, model) => if F.Recorded(c, f) then Some(F.RecordOf(c, f, stamp, model)) else None
  }
}
