/**
  The client side of the wire protocol (communication.js): the frames
  `sendMessage` builds, the header/payload split and type dispatch of
  `ws.onmessage`, and the visibility rule of `updateProgressBar`.

  JSON serialisation and parsing are outside this module: the header is an
  opaque string, and parsing is a parameter that either yields a type and a
  content or fails.
 */
module Communication {
  import opened Results
  import opened Bytes
  import Alignment

  /** What `ws.send` puts on the wire: a text frame or a binary frame. */
  datatype Frame = TextFrame(text: JsString) | BinaryFrame(data: seq<Byte>)

  /** The header text followed by its alignment spaces. */
  function PaddedHeader(header: JsString): (p: JsString)
    ensures |p| == |header| + Alignment.PadCount(|header|)
    ensures Alignment.PayloadAligned(|p|, 0)
    ensures (Alignment.PrefixSize + |p|) % 4 == 0
  {
    var p := Alignment.Pad(header, Space);
    Alignment.AlignedForFloats(|p|);
    p
  }

  /** The bytes of a binary frame: a 32-bit header length, the header one
      byte per code unit, then the payload verbatim. */
  function Layout(header: JsString, payload: seq<Byte>): (frame: seq<Byte>)
    ensures |frame| == Alignment.PrefixSize + |header| + |payload|
  {
    Int32Bytes(|header|) + StoreAsBytes(header) + payload
  }

  /** The binary frame `sendMessage` builds for a serialised header and a
      payload, with the length prefix written as one 32-bit element. */
  function EncodeBinary(header: JsString, payload: seq<Byte>): (frame: seq<Byte>)
    ensures |frame| == Alignment.PrefixSize + |PaddedHeader(header)| + |payload|
    ensures Alignment.PayloadAligned(|PaddedHeader(header)|, 0)
    ensures frame[..4] == Int32Bytes(|PaddedHeader(header)|)
    ensures frame[4..4 + |PaddedHeader(header)|] == StoreAsBytes(PaddedHeader(header))
    ensures frame[4 + |PaddedHeader(header)|..] == payload
  {
    var p := PaddedHeader(header);
    var frame := Layout(p, payload);
    assert frame[..4] == Int32Bytes(|p|);
    assert frame[4..4 + |p|] == StoreAsBytes(p);
    frame
  }

  /** The exception `sendMessage` can throw before anything is sent. */
  datatype SendError = RangeError

  /** `sendMessage` as written: the prefix view is created with four 32-bit
      elements, which needs 16 bytes of buffer, so a shorter frame makes the
      typed-array constructor throw and nothing is sent. */
  function EncodeBinaryAsWritten(header: JsString, payload: seq<Byte>): (r: Result<seq<Byte>, SendError>)
    ensures r.Err? <==> |EncodeBinary(header, payload)| < 16
    ensures r.Ok? ==> r.value == EncodeBinary(header, payload)
  {
    var size := Alignment.PrefixSize + |PaddedHeader(header)| + |payload|;
    if size < 4 * 4 then Err(RangeError) else Ok(EncodeBinary(header, payload))
  }

  /** The two-character header `{}` with an empty payload gives an 8-byte
      frame, which the as-written encoder refuses although the corrected one
      produces a well-formed frame for it. */
  lemma ShortFrameIsRefused()
    ensures EncodeBinaryAsWritten([123, 125], []) == Err(RangeError)
    ensures |EncodeBinary([123, 125], [])| == 8
  {
  }

  /** Every header of four or more code units (any serialised object with a
      `type` key is far longer) gives a frame of at least 16 bytes, so the
      as-written encoder agrees with the corrected one there. */
  lemma AsWrittenAgreesOnRealHeaders(header: JsString, payload: seq<Byte>)
    requires |header| >= 4
    ensures EncodeBinaryAsWritten(header, payload) == Ok(EncodeBinary(header, payload))
  {
  }

  /** `sendMessage`: a text frame holding the serialised `{type, content}`
      when there is no payload, otherwise the binary frame. */
  function SendMessage(json: JsString, payload: Option<seq<Byte>>): (f: Frame)
    ensures f.TextFrame? <==> payload.None?
    ensures f.TextFrame? ==> f.text == json
    ensures f.BinaryFrame? ==>
              && |f.data| == 4 + |PaddedHeader(json)| + |payload.value|
              && f.data[..4] == Int32Bytes(|PaddedHeader(json)|)
              && f.data[4..4 + |PaddedHeader(json)|] == StoreAsBytes(PaddedHeader(json))
              && f.data[4 + |PaddedHeader(json)|..] == payload.value
    ensures f.BinaryFrame? ==> f.data == EncodeBinary(json, payload.value)
  {
    match payload
    case None => TextFrame(json)
    case Some(p) => BinaryFrame(EncodeBinary(json, p))
  }

  /** `sendMessage` as written: a binary frame shorter than 16 bytes throws
      before anything is sent; every other call sends what the corrected
      `SendMessage` sends. */
  function SendMessageAsWritten(json: JsString, payload: Option<seq<Byte>>): (r: Result<Frame, SendError>)
    ensures r.Err? <==> payload.Some? && 4 + |PaddedHeader(json)| + |payload.value| < 16
    ensures r.Ok? ==> r.value == SendMessage(json, payload)
  {
    match payload
    case None => Ok(TextFrame(json))
    case Some(p) =>
      match EncodeBinaryAsWritten(json, p)
      case Err(e) => Err(e)
      case Ok(frame) => Ok(BinaryFrame(frame))
  }

  /** `sendMessage` with neither type nor content serialises to `{}`; with a
      four-byte payload the frame is 12 bytes long, so the call throws. */
  lemma ShortMessageIsRefused()
    ensures SendMessageAsWritten([123, 125], Some([0, 0, 0, 0])) == Err(RangeError)
    ensures |SendMessage([123, 125], Some([0, 0, 0, 0])).data| == 12
  {
  }

  /** Why a received frame leads to no action. The range errors are the
      `RangeError`s thrown by the typed-array views; the JSON error is the
      one caught around `JSON.parse`. */
  datatype DropReason =
    | PrefixOutOfRange    // fewer than 4 bytes for the length prefix
    | HeaderOutOfRange    // negative header length, or header past the end
    | InvalidJson         // the header text does not parse
    | PayloadMisaligned   // the payload is no whole number of aligned floats

  /** A received WebSocket message. */
  datatype Event = TextMessage(text: JsString) | BinaryMessage(data: seq<Byte>)

  /** Splits a binary frame into header text and payload, reading the
      signed 32-bit prefix and never reading past the end of the buffer. */
  function SplitFrame(data: seq<Byte>): (r: Result<(JsString, seq<Byte>), DropReason>)
    ensures r.Ok? ==> data == Layout(r.value.0, r.value.1)
    ensures r.Ok? ==> IsLatin1(r.value.0)
    ensures r.Ok? ==>
      && 4 + |r.value.0| <= |data|
      && |r.value.0| == ReadInt32(data[..4])
      && r.value.1 == data[4 + |r.value.0|..]
    ensures r.Err? <==>
      |data| < 4 || ReadInt32(data[..4]) < 0 || 4 + ReadInt32(data[..4]) > |data|
  {
    if |data| < 4 then Err(PrefixOutOfRange)
    else
      var n := ReadInt32(data[..4]);
      if n < 0 || 4 + n > |data| then Err(HeaderOutOfRange)
      else
        var header := BytesAsString(data[4..4 + n]);
        Int32BytesOfRead(data[..4]);
        BytesRoundTrip(data[4..4 + n]);
        assert data == data[..4] + data[4..4 + n] + data[4 + n..];
        Ok((header, data[4 + n..]))
  }

  /** Splitting a frame the client encoded gives back the padded header and
      the exact payload, precisely when the header is Latin-1; otherwise the
      header comes back with its code units reduced modulo 256. */
  lemma SplitEncodedFrame(header: JsString, payload: seq<Byte>)
    requires |PaddedHeader(header)| < TwoTo31
    ensures SplitFrame(EncodeBinary(header, payload))
         == Ok((BytesAsString(StoreAsBytes(PaddedHeader(header))), payload))
    ensures SplitFrame(EncodeBinary(header, payload)) == Ok((PaddedHeader(header), payload))
        <==> IsLatin1(header)
  {
    var p := PaddedHeader(header);
    var frame := EncodeBinary(header, payload);
    Int32RoundTrip(|p|);
    assert frame[..4] == Int32Bytes(|p|);
    Latin1RoundTrip(p);
    assert IsLatin1(p) <==> IsLatin1(header) by {
      assert p[..|header|] == header;
      if IsLatin1(header) {
        forall i | 0 <= i < |p| ensures p[i] < 256 {
          if i < |header| { assert p[i] == header[i]; } else { assert p[i] == Space; }
        }
      } else {
        var i :| 0 <= i < |header| && header[i] >= 256;
        assert p[i] == header[i];
      }
    }
  }

  /** A Latin-1 header comes back from the client's own frame unchanged,
      padding included, together with the exact payload. */
  lemma Latin1FrameSplits(header: JsString, payload: seq<Byte>)
    requires IsLatin1(header)
    requires |PaddedHeader(header)| < TwoTo31
    ensures SplitFrame(EncodeBinary(header, payload)) == Ok((PaddedHeader(header), payload))
  {
    SplitEncodedFrame(header, payload);
  }

  /** The parsed `{type, content}` object of a header. */
  datatype Header<C> = Header(msgType: JsString, content: C)

  /** What `ws.onmessage` does with a message. */
  datatype Action<C> =
    | LoadSpectrogram(samples: seq<Byte>, content: C)
    | UpdateProgress(content: C)
    | LogMessage(msgType: JsString, content: C)
    | Drop(reason: DropReason)

  const SpectrogramType: JsString := AsciiToJs("spectrogram")
  const ProgressType: JsString := AsciiToJs("loading_progress")

  /** The action for a parsed header and the payload that came with it. */
  function Dispatch<C>(h: Header<C>, payload: seq<Byte>): (a: Action<C>)
    ensures a.LoadSpectrogram? <==> h.msgType == SpectrogramType
    ensures a.UpdateProgress? <==> h.msgType == ProgressType
    ensures a.LogMessage? <==> h.msgType != SpectrogramType && h.msgType != ProgressType
    ensures a.LoadSpectrogram? ==> a == LoadSpectrogram(payload, h.content)
    ensures !a.LoadSpectrogram? ==> a.content == h.content
  {
    assert SpectrogramType != ProgressType by {
      assert |SpectrogramType| != |ProgressType|;
    }
    if h.msgType == SpectrogramType then LoadSpectrogram(payload, h.content)
    else if h.msgType == ProgressType then UpdateProgress(h.content)
    else LogMessage(h.msgType, h.content)
  }

  /** The header text of a message: the whole text of a text message, the
      header slice of a binary one. */
  function HeaderText(e: Event): (r: Result<JsString, DropReason>)
    ensures e.TextMessage? ==> r == Ok(e.text)
    ensures e.BinaryMessage? ==> (r.Ok? <==> SplitFrame(e.data).Ok?)
    ensures e.BinaryMessage? && r.Ok? ==> r.value == SplitFrame(e.data).value.0
    ensures e.BinaryMessage? && r.Err? ==> r.error == SplitFrame(e.data).error
  {
    match e
    case TextMessage(text) => Ok(text)
    case BinaryMessage(data) =>
      match SplitFrame(data)
      case Err(reason) => Err(reason)
      case Ok((header, _)) => Ok(header)
  }

  /** `ws.onmessage`. A text message carries no buffer, so a "spectrogram"
      text message loads an empty sample array (`new Float32Array` of a
      string has length 0). A binary "spectrogram" message needs its payload
      to be a whole number of 4-byte floats at a 4-aligned offset. */
  function OnMessage<C>(e: Event, parse: JsString -> Option<Header<C>>): (a: Action<C>)
    ensures HeaderText(e).Err? ==> a == Drop(HeaderText(e).error)
    ensures HeaderText(e).Ok? && parse(HeaderText(e).value).None? ==> a == Drop(InvalidJson)
    ensures !a.Drop? ==>
              && HeaderText(e).Ok?
              && parse(HeaderText(e).value).Some?
              && parse(HeaderText(e).value).value.content == a.content
    ensures a.LoadSpectrogram? && e.BinaryMessage? ==>
              && |a.samples| <= |e.data|
              && a.samples == e.data[|e.data| - |a.samples|..]
              && (|e.data| - |a.samples|) % 4 == 0
              && |a.samples| % 4 == 0
    ensures a.LoadSpectrogram? && e.TextMessage? ==> a.samples == []
    ensures e.TextMessage? && parse(e.text).Some? ==> a == Dispatch(parse(e.text).value, [])
    ensures e.BinaryMessage? && SplitFrame(e.data).Ok? && parse(SplitFrame(e.data).value.0).Some? ==>
      var header := SplitFrame(e.data).value.0;
      var payload := SplitFrame(e.data).value.1;
      var h := parse(header).value;
      && (a == Drop(PayloadMisaligned) <==>
            h.msgType == SpectrogramType && ((4 + |header|) % 4 != 0 || |payload| % 4 != 0))
      && (a != Drop(PayloadMisaligned) ==> a == Dispatch(h, payload))
  {
    match e
    case TextMessage(text) =>
      (match parse(text)
       case None => Drop(InvalidJson)
       case Some(h) => Dispatch(h, []))
    case BinaryMessage(data) =>
      match SplitFrame(data)
      case Err(reason) => Drop(reason)
      case Ok((header, payload)) =>
        match parse(header)
        case None => Drop(InvalidJson)
        case Some(h) =>
          if h.msgType == SpectrogramType && ((4 + |header|) % 4 != 0 || |payload| % 4 != 0)
          then Drop(PayloadMisaligned)
          else Dispatch(h, payload)
  }

  /** A frame that splits into a parsed header and a payload, with the
      float view at offset `4 + headerLen` aligned, is dispatched with that
      payload. */
  lemma AlignedSplitDispatches<C>(data: seq<Byte>, parse: JsString -> Option<Header<C>>,
                                  header: JsString, payload: seq<Byte>, h: Header<C>)
    requires SplitFrame(data) == Ok((header, payload))
    requires parse(header) == Some(h)
    requires (4 + |header|) % 4 == 0 && |payload| % 4 == 0
    ensures OnMessage(BinaryMessage(data), parse) == Dispatch(h, payload)
  {
  }

  /** End to end on the client's own frames: a Latin-1 header that parses,
      sent with a payload of whole floats, is dispatched with that payload
      exactly as its parsed header says. */
  lemma ClientFrameDispatches<C>(json: JsString, payload: seq<Byte>,
                                 parse: JsString -> Option<Header<C>>, h: Header<C>)
    requires IsLatin1(json)
    requires |PaddedHeader(json)| < TwoTo31
    requires parse(PaddedHeader(json)) == Some(h)
    requires |payload| % 4 == 0
    ensures OnMessage(BinaryMessage(SendMessage(json, Some(payload)).data), parse) == Dispatch(h, payload)
  {
    var frame := SendMessage(json, Some(payload)).data;
    Latin1FrameSplits(json, payload);
    AlignedSplitDispatches(frame, parse, PaddedHeader(json), payload, h);
  }

  /** The progress indicator. */
  datatype ProgressBar = ProgressBar(hidden: bool, value: real)

  /** `updateProgressBar`: progress 0 or 1 hides the bar and leaves its
      value alone; any other progress shows it with that value. */
  function UpdateProgressBar(bar: ProgressBar, progress: real): (r: ProgressBar)
    ensures r.hidden <==> progress == 0.0 || progress == 1.0
    ensures !r.hidden ==> r.value == progress
    ensures r.hidden ==> r.value == bar.value
  {
    if progress == 0.0 || progress == 1.0 then bar.(hidden := true)
    else ProgressBar(false, progress)
  }

  /** Applying the same progress twice is the same as applying it once. */
  lemma UpdateProgressBarIdempotent(bar: ProgressBar, progress: real)
    ensures UpdateProgressBar(UpdateProgressBar(bar, progress), progress)
         == UpdateProgressBar(bar, progress)
  {
  }
}
